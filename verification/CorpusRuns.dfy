/**
 Whole runs of corpus operations: what every one of them keeps. A run remembers, beside the store,
 what happened to each block's ladder and which hit rows earned a credit.
 */
module CorpusRuns {
  import opened Wrappers
  import opened Schedule
  import opened CorpusModel
  import opened Ordering
  import HitReport

  datatype Tracked = Tracked(c: Corpus, history: map<string, seq<Event>>, credited: seq<string>)
  {
    function Note(id: string, e: Event): Tracked
      requires id in history
    {
      this.(history := history[id := history[id] + [e]])
    }
  }

  datatype Op =
    | Hit(user: string, session: string, turn: string, id: string, ms: int)
    | RealUse(user: string, id: string, source: UseSource, ref: string, at: int)
    | Answer(user: string, id: string, pass: bool, at: int)
    | Edit(user: string, id: string, wording: Wording, at: int)
    | Favorite(user: string, id: string, favorite: bool, pinnedAt: Option<int>, at: int)
    | Delete(user: string, id: string, at: int)
    | Reassign(from: string, to: string)
    | Sweep(user: string, dueBefore: int, at: int)
    | Accept(block: PhraseBlock, found: Option<string>)

  /** A block as newAcceptedBlock builds it, under an id not used before. */
  predicate Newborn(c: Corpus, b: PhraseBlock) {
    b.id !in c.blocks && b.ladder.state == New && b.ladder.streak == 0 && b.realUseCount == 0 && b.totalUses == 0
  }

  /** The block is there, is the user's and is not deleted. */
  predicate Present(c: Corpus, user: string, id: string) {
    id in c.blocks && c.blocks[id].userId == user && c.blocks[id].deletedAt.None?
  }

  /** No hit row for the session, turn and block yet, and the block can be credited. */
  predicate FirstHit(c: Corpus, user: string, session: string, turn: string, id: string) {
    session + "\0" + turn + "\0" + id !in c.uses && Present(c, user, id)
  }

  /** The ledger has no row of this user, block, source and reference yet, and the block can be credited. */
  predicate FirstUse(c: Corpus, user: string, id: string, source: UseSource, ref: string) {
    && Present(c, user, id)
    && (forall i | 0 <= i < |c.realUses| ::
          !(c.realUses[i].userId == user && c.realUses[i].blockId == id && c.realUses[i].source == source
              && c.realUses[i].refId == ref))
  }

  lemma FirstUseIsCredited(c: Corpus, user: string, id: string, source: UseSource, ref: string, at: int)
    ensures UseCredits(c, user, id, source, ref, at) <==> FirstUse(c, user, id, source, ref)
  {
    var use := CorpusModel.RealUse(user, id, source, ref, at);
    assert forall i | 0 <= i < |c.realUses| :: SameUse(c.realUses[i], use) <==>
        c.realUses[i].userId == user && c.realUses[i].blockId == id && c.realUses[i].source == source
          && c.realUses[i].refId == ref;
  }

  function Step(t: Tracked, op: Op): Tracked
    requires t.history.Keys == t.c.blocks.Keys
    ensures Step(t, op).history.Keys == Step(t, op).c.blocks.Keys
  {
    var c := t.c;
    match op
    case Hit(user, session, turn, id, ms) =>
      var t1 := t.(c := RecordHit(c, user, session, turn, id, ms));
      if FirstHit(c, user, session, turn, id)
      then t1.Note(id, Success(ms * MILLISECOND)).(credited := t.credited + [UseKey(session, turn, id)])
      else t1
    case RealUse(user, id, source, ref, at) =>
      var t1 := t.(c := RecordRealUse(c, user, id, source, ref, at));
      if FirstUse(c, user, id, source, ref) then t1.Note(id, Success(at)) else t1
    case Answer(user, id, pass, at) =>
      if !Present(c, user, id) then t
      else t.(c := UpdateSchedule(c, user, id, c.schedule.Advance(c.blocks[id].ladder, pass, at), at))
            .Note(id, if pass then Success(at) else Failure(at))
    case Edit(user, id, wording, at) =>
      var t1 := t.(c := EditBlock(c, user, id, wording, at));
      if Present(c, user, id) && ValidWording(wording) && wording.expression != c.blocks[id].expression
      then t1.Note(id, Reset(at)) else t1
    case Favorite(user, id, favorite, pinnedAt, at) => t.(c := SetFavorite(c, user, id, favorite, pinnedAt, at))
    case Delete(user, id, at) => t.(c := SoftDelete(c, user, id, at))
    case Reassign(from, to) => t.(c := ReassignUser(c, from, to))
    case Sweep(user, dueBefore, at) => t.(c := SweepOverdue(c, user, dueBefore, at))
    case Accept(b, found) =>
      if !Newborn(c, b) || !Finds(c, b, found) then t
      else
        var t1 := t.(c := SaveAccepted(c, b, found));
        if found.None? then t1.(history := t.history[b.id := []]) else t1
  }

  function Exec(t: Tracked, ops: seq<Op>): Tracked
    requires t.history.Keys == t.c.blocks.Keys
    ensures Exec(t, ops).history.Keys == Exec(t, ops).c.blocks.Keys
  {
    if ops == [] then t else Step(Exec(t, ops[..|ops| - 1]), ops[|ops| - 1])
  }

  function Start(schedule: Schedule): Tracked {
    Tracked(Corpus(schedule, map[], map[], [], []), map[], [])
  }

  /** The ledger rows that name a block. */
  function Rows(rows: seq<CorpusModel.RealUse>, id: string): nat {
    if rows == [] then 0
    else Rows(rows[..|rows| - 1], id) + if rows[|rows| - 1].blockId == id then 1 else 0
  }

  /** State and streak are those of the block's history. */
  predicate Follows(s: Schedule, l: Ladder, history: seq<Event>) {
    var f := ClosedForm(s.Normalize(), 0, history);
    l.state == f.state && l.streak == f.streak
  }

  predicate CountsItsRows(b: PhraseBlock, rows: seq<CorpusModel.RealUse>) {
    b.realUseCount == b.totalUses == Rows(rows, b.id)
  }

  ghost predicate CheckinsOnce(rows: seq<CorpusModel.RealUse>) {
    forall i, j | 0 <= i < j < |rows| :: rows[i].source.FromCheckin? ==> !SameUse(rows[i], rows[j])
  }

  /** One block: its key, its counters and its standing. */
  ghost predicate BlockOk(t: Tracked, id: string)
    requires id in t.c.blocks && id in t.history
  {
    && t.c.blocks[id].id == id
    && CountsItsRows(t.c.blocks[id], t.c.realUses)
    && Follows(t.c.schedule, t.c.blocks[id].ladder, t.history[id])
  }

  ghost predicate BlocksOk(t: Tracked) {
    t.history.Keys == t.c.blocks.Keys && forall id | id in t.c.blocks :: BlockOk(t, id)
  }

  /** The ledger names known blocks, and no check-in twice. */
  ghost predicate LedgerOk(t: Tracked) {
    && (forall i | 0 <= i < |t.c.realUses| :: t.c.realUses[i].blockId in t.c.blocks)
    && CheckinsOnce(t.c.realUses)
  }

  /** Every credited hit row is on file, once. */
  ghost predicate CreditsOk(t: Tracked) {
    Distinct(t.credited) && forall k | k in t.credited :: k in t.c.uses
  }

  ghost predicate Inv(t: Tracked) { BlocksOk(t) && LedgerOk(t) && CreditsOk(t) }

  lemma FollowsAdvance(s: Schedule, l: Ladder, history: seq<Event>, pass: bool, at: int)
    requires Follows(s, l, history)
    ensures Follows(s, s.Advance(l, pass, at), history + [if pass then Success(at) else Failure(at)])
    ensures Follows(s, s.Restart(at), history + [Reset(at)])
  {
    assert (history + [if pass then Success(at) else Failure(at)])[..|history|] == history;
  }

  lemma {:induction false} RowsOfAbsent(rows: seq<CorpusModel.RealUse>, id: string)
    requires forall i | 0 <= i < |rows| :: rows[i].blockId != id
    ensures Rows(rows, id) == 0
  {
    if rows != [] { RowsOfAbsent(rows[..|rows| - 1], id); }
  }

  /** The block is only relabelled: same id, counters, state and streak. */
  predicate SameStanding(x: PhraseBlock, y: PhraseBlock) {
    && x.id == y.id && x.realUseCount == y.realUseCount && x.totalUses == y.totalUses
    && x.ladder.state == y.ladder.state && x.ladder.streak == y.ladder.streak
  }

  lemma NeutralBlocks(t: Tracked, c: Corpus)
    requires BlocksOk(t) && c.schedule == t.c.schedule && c.realUses == t.c.realUses && c.blocks.Keys == t.c.blocks.Keys
    requires forall id | id in c.blocks :: SameStanding(c.blocks[id], t.c.blocks[id])
    ensures BlocksOk(t.(c := c))
  {
    forall id | id in c.blocks ensures BlockOk(t.(c := c), id) {
      assert SameStanding(c.blocks[id], t.c.blocks[id]) && BlockOk(t, id);
    }
  }

  lemma NeutralKeeps(t: Tracked, c: Corpus)
    requires Inv(t)
    requires c.schedule == t.c.schedule && c.uses == t.c.uses && c.realUses == t.c.realUses
    requires c.blocks.Keys == t.c.blocks.Keys
    requires forall id | id in c.blocks :: SameStanding(c.blocks[id], t.c.blocks[id])
    ensures Inv(t.(c := c))
  {
    NeutralBlocks(t, c);
  }

  lemma AppendKeepsCheckinsOnce(rows: seq<CorpusModel.RealUse>, row: CorpusModel.RealUse)
    requires CheckinsOnce(rows)
    requires row.source.FromCheckin? ==> !Recorded(rows, row)
    ensures CheckinsOnce(rows + [row])
  {
    assert forall i | 0 <= i < |rows| :: SameUse(rows[i], row) ==> Recorded(rows, row);
  }

  /** The tracked store after a credited use: its ledger row, its count and one success on the ladder. */
  function CreditStep(t: Tracked, id: string, row: CorpusModel.RealUse, uses: map<string, Use>,
                      credited: seq<string>): Tracked
    requires id in t.c.blocks && id in t.history
  {
    Tracked(t.c.(blocks := t.c.blocks[id := Credit(t.c.schedule, t.c.blocks[id], row.usedAt)],
                 realUses := t.c.realUses + [row], uses := uses),
            t.history[id := t.history[id] + [Success(row.usedAt)]], credited)
  }

  lemma CreditBlocks(t: Tracked, id: string, row: CorpusModel.RealUse, uses: map<string, Use>, credited: seq<string>)
    requires BlocksOk(t) && id in t.c.blocks && row.blockId == id
    ensures BlocksOk(CreditStep(t, id, row, uses, credited))
  {
    var t1 := CreditStep(t, id, row, uses, credited);
    assert t1.c.realUses[..|t.c.realUses|] == t.c.realUses;
    forall other | other in t1.c.blocks ensures BlockOk(t1, other) {
      assert BlockOk(t, other);
      if other == id { FollowsAdvance(t.c.schedule, t.c.blocks[id].ladder, t.history[id], true, row.usedAt); }
    }
  }

  lemma CreditLedger(t: Tracked, id: string, row: CorpusModel.RealUse, uses: map<string, Use>, credited: seq<string>)
    requires LedgerOk(t) && id in t.c.blocks && id in t.history && row.blockId == id
    requires row.source.FromCheckin? ==> !Recorded(t.c.realUses, row)
    ensures LedgerOk(CreditStep(t, id, row, uses, credited))
  {
    AppendKeepsCheckinsOnce(t.c.realUses, row);
  }

  /** A credited use appends its ledger row, counts it and is one success on the ladder. */
  lemma CreditKeeps(t: Tracked, id: string, row: CorpusModel.RealUse, uses: map<string, Use>, credited: seq<string>)
    requires Inv(t) && id in t.c.blocks && row.blockId == id
    requires row.source.FromCheckin? ==> !Recorded(t.c.realUses, row)
    requires forall k | k in t.c.uses :: k in uses
    requires Distinct(credited) && forall k | k in credited :: k in uses
    ensures Inv(CreditStep(t, id, row, uses, credited))
  {
    CreditBlocks(t, id, row, uses, credited);
    CreditLedger(t, id, row, uses, credited);
  }

  lemma HitKeeps(t: Tracked, op: Op)
    requires Inv(t) && op.Hit?
    ensures Inv(Step(t, op))
  {
    var key := UseKey(op.session, op.turn, op.id);
    var uses := t.c.uses[key := Use(op.user, op.session, op.turn, op.id, op.ms)];
    if HitCredits(t.c, op.user, op.session, op.turn, op.id) {
      var at := op.ms * MILLISECOND;
      CreditKeeps(t, op.id, CorpusModel.RealUse(op.user, op.id, FromHit, op.turn, at), uses, t.credited + [key]);
    }
  }

  lemma AnswerKeeps(t: Tracked, op: Op)
    requires Inv(t) && op.Answer?
    ensures Inv(Step(t, op))
  {
    if t.c.Live(op.user, op.id) {
      FollowsAdvance(t.c.schedule, t.c.blocks[op.id].ladder, t.history[op.id], op.pass, op.at);
    }
  }

  lemma ResetKeeps(t: Tracked, user: string, id: string, at: int)
    requires Inv(t) && t.c.Live(user, id)
    ensures Inv(t.(c := ResetSchedule(t.c, user, id, at)).Note(id, Reset(at)))
  {
    FollowsAdvance(t.c.schedule, t.c.blocks[id].ladder, t.history[id], true, at);
  }

  lemma RewriteKeeps(t: Tracked, user: string, id: string, w: Wording, at: int, c: Corpus)
    requires Inv(t) && t.c.Live(user, id) && c == Rewrite(t.c, user, id, w, at)
    ensures w.expression == t.c.blocks[id].expression ==> Inv(t.(c := c))
    ensures w.expression != t.c.blocks[id].expression ==> Inv(t.(c := c).Note(id, Reset(at)))
  {
    var before, b := t.c.blocks[id], Reworded(t.c.blocks[id], w, at);
    var c1 := UpdateBlock(t.c, b);
    UpdateIsNeutral(t, b);
    if w.expression == before.expression {
      assert c == c1;
    } else {
      var edit := BlockEdit(user, id, before.version + 1, before.expression, w.expression, at);
      assert c == ResetSchedule(SaveBlockEdit(c1, edit), user, id, at);
      assert c1.Live(user, id);
      RephraseKeeps(t.(c := c1), user, id, edit, at);
      assert t.(c := c1).(c := c) == t.(c := c);
    }
  }

  lemma UpdateIsNeutral(t: Tracked, b: PhraseBlock)
    requires Inv(t)
    ensures Inv(t.(c := UpdateBlock(t.c, b)))
  {
    NeutralKeeps(t, UpdateBlock(t.c, b));
  }

  lemma RephraseKeeps(t: Tracked, user: string, id: string, e: BlockEdit, at: int)
    requires Inv(t) && t.c.Live(user, id) && e.userId == user && e.blockId == id
    ensures Inv(t.(c := ResetSchedule(SaveBlockEdit(t.c, e), user, id, at)).Note(id, Reset(at)))
  {
    NeutralKeeps(t, SaveBlockEdit(t.c, e));
    ResetKeeps(t.(c := SaveBlockEdit(t.c, e)), user, id, at);
  }

  lemma EditKeeps(t: Tracked, op: Op)
    requires Inv(t) && op.Edit?
    ensures Inv(Step(t, op))
  {
    if t.c.Live(op.user, op.id) && ValidWording(op.wording) {
      RewriteKeeps(t, op.user, op.id, op.wording, op.at, Rewrite(t.c, op.user, op.id, op.wording, op.at));
    }
  }

  lemma AcceptKeeps(t: Tracked, op: Op)
    requires Inv(t) && op.Accept?
    ensures Inv(Step(t, op))
  {
    if Newborn(t.c, op.block) && Finds(t.c, op.block, op.found) {
      if op.found.None? { InsertKeeps(t, op.block); } else { NeutralKeeps(t, SaveAccepted(t.c, op.block, op.found)); }
    }
  }

  lemma InsertKeeps(t: Tracked, b: PhraseBlock)
    requires Inv(t) && Newborn(t.c, b) && Finds(t.c, b, None)
    ensures Inv(t.(c := SaveAccepted(t.c, b, None), history := t.history[b.id := []]))
  {
    RowsOfAbsent(t.c.realUses, b.id);
  }

  lemma RealUseKeeps(t: Tracked, op: Op)
    requires Inv(t) && op.RealUse?
    ensures Inv(Step(t, op))
  {
    FirstUseIsCredited(t.c, op.user, op.id, op.source, op.ref, op.at);
    if UseCredits(t.c, op.user, op.id, op.source, op.ref, op.at) {
      CreditKeeps(t, op.id, CorpusModel.RealUse(op.user, op.id, op.source, op.ref, op.at), t.c.uses, t.credited);
    }
  }

  lemma FavoriteKeeps(t: Tracked, user: string, id: string, favorite: bool, pinnedAt: Option<int>, at: int)
    requires Inv(t)
    ensures Inv(t.(c := SetFavorite(t.c, user, id, favorite, pinnedAt, at)))
  {
    NeutralKeeps(t, SetFavorite(t.c, user, id, favorite, pinnedAt, at));
  }

  lemma DeleteKeeps(t: Tracked, user: string, id: string, at: int)
    requires Inv(t)
    ensures Inv(t.(c := SoftDelete(t.c, user, id, at)))
  {
    NeutralKeeps(t, SoftDelete(t.c, user, id, at));
  }

  lemma ReassignKeeps(t: Tracked, from: string, to: string)
    requires Inv(t)
    ensures Inv(t.(c := ReassignUser(t.c, from, to)))
  {
    NeutralKeeps(t, ReassignUser(t.c, from, to));
  }

  lemma SweepKeeps(t: Tracked, user: string, dueBefore: int, at: int)
    requires Inv(t)
    ensures Inv(t.(c := SweepOverdue(t.c, user, dueBefore, at)))
  {
    NeutralKeeps(t, SweepOverdue(t.c, user, dueBefore, at));
  }

  lemma StepKeeps(t: Tracked, op: Op)
    requires Inv(t)
    ensures Inv(Step(t, op))
  {
    match op
    case Hit(_, _, _, _, _) => HitKeeps(t, op);
    case RealUse(_, _, _, _, _) => RealUseKeeps(t, op);
    case Answer(_, _, _, _) => AnswerKeeps(t, op);
    case Edit(_, _, _, _) => EditKeeps(t, op);
    case Accept(_, _) => AcceptKeeps(t, op);
    case Favorite(user, id, favorite, pinnedAt, at) => FavoriteKeeps(t, user, id, favorite, pinnedAt, at);
    case Delete(user, id, at) => DeleteKeeps(t, user, id, at);
    case Reassign(from, to) => ReassignKeeps(t, from, to);
    case Sweep(user, dueBefore, at) => SweepKeeps(t, user, dueBefore, at);
  }

  lemma {:induction false} ExecKeeps(schedule: Schedule, ops: seq<Op>)
    ensures Inv(Exec(Start(schedule), ops))
  {
    if ops != [] {
      ExecKeeps(schedule, ops[..|ops| - 1]);
      StepKeeps(Exec(Start(schedule), ops[..|ops| - 1]), ops[|ops| - 1]);
    }
  }

  /**
   Conservation: after any run, every block's real-use count and total uses are the number of ledger
   rows that name it; no check-in reference is on the ledger twice for one learner and block; and no
   (session, turn, block) hit row has been credited twice.
   */
  lemma UsesAreConserved(schedule: Schedule, ops: seq<Op>)
    ensures var t := Exec(Start(schedule), ops);
            && (forall id | id in t.c.blocks ::
                t.c.blocks[id].realUseCount == t.c.blocks[id].totalUses == Rows(t.c.realUses, id))
            && CheckinsOnce(t.c.realUses)
            && Distinct(t.credited)
  {
    ExecKeeps(schedule, ops);
    var t := Exec(Start(schedule), ops);
    forall id | id in t.c.blocks
      ensures t.c.blocks[id].realUseCount == t.c.blocks[id].totalUses == Rows(t.c.realUses, id)
    {
      assert CountsItsRows(t.c.blocks[id], t.c.realUses);
    }
  }

  /**
   After any run, whatever mix of drill answers, hits, check-ins, edits, sweeps, deletions and revivals
   it made: a block's streak is its current run of successes capped at the promotion streak; it is
   automated exactly when that run has reached the promotion streak, and new exactly when nothing has
   happened to it since it was accepted or its sentence was edited.
   */
  lemma StandingFollowsHistory(schedule: Schedule, ops: seq<Op>, id: string)
    requires id in Exec(Start(schedule), ops).c.blocks
    ensures var t := Exec(Start(schedule), ops);
            var l, run, promote := t.c.blocks[id].ladder, Run(t.history[id]), schedule.Normalize().promoteStreak;
            && l.streak == (if run < promote then run else promote)
            && (l.state == Automated <==> run >= promote)
            && (l.state == New <==> Fresh(t.history[id]))
  {
    ExecKeeps(schedule, ops);
    ExecKeepsSchedule(schedule, ops);
  }

  lemma StepKeepsSchedule(t: Tracked, op: Op)
    requires t.history.Keys == t.c.blocks.Keys
    ensures Step(t, op).c.schedule == t.c.schedule
  {
  }

  lemma {:induction false} ExecKeepsSchedule(schedule: Schedule, ops: seq<Op>)
    ensures Exec(Start(schedule), ops).c.schedule == schedule
  {
    if ops != [] {
      ExecKeepsSchedule(schedule, ops[..|ops| - 1]);
      StepKeepsSchedule(Exec(Start(schedule), ops[..|ops| - 1]), ops[|ops| - 1]);
    }
  }

  /** The hits of one report, as run steps. */
  function HitOps(user: string, session: string, turn: string, ids: seq<string>, times: map<string, int>): (r: seq<Op>)
    requires forall id | id in ids :: id in times
    ensures |r| == |ids|
  {
    if ids == [] then []
    else
      var n := |ids| - 1;
      HitOps(user, session, turn, ids[..n], times) + [Hit(user, session, turn, ids[n], times[ids[n]])]
  }

  /** Recording a whole report is the run of its hits, so the run laws hold for reports. */
  lemma {:induction false} ReportIsARun(t: Tracked, user: string, session: string, turn: string, ids: seq<string>,
                                        times: map<string, int>)
    requires t.history.Keys == t.c.blocks.Keys
    requires forall id | id in ids :: id in times
    ensures Exec(t, HitOps(user, session, turn, ids, times)).c ==
              HitReport.RecordAll(t.c, user, session, turn, ids, times)
  {
    if ids != [] {
      var n := |ids| - 1;
      var ops := HitOps(user, session, turn, ids, times);
      assert ops[..n] == HitOps(user, session, turn, ids[..n], times);
      ReportIsARun(t, user, session, turn, ids[..n], times);
    }
  }
}
