/**
 Runs of attempts and appeals, and of the other writers of the same blocks. A run remembers a log of
 every move made on any block, which entry of the log each ledger row stands for, which entries an
 appeal has struck out, and which attempts were rescinded.
 */
module DrillRuns {
  import opened Wrappers
  import opened Text
  import opened Schedule
  import opened CorpusModel
  import opened DrillModel

  /** A logged move: an attempt with its verdict, or a ladder stored by a hit, an edit or a sweep. */
  datatype Entry = Tried(block: string, verdict: Verdict, at: int) | Wrote(block: string, ladder: Ladder)

  datatype Op =
    | Judge(user: string, block: string, asr: string, verdict: Verdict, at: int)
    | Appeal(user: string, recordId: int, at: int)
    | Write(block: string, ladder: Ladder, at: int)
    | SetDeleted(block: string, deletedAt: Option<int>)

  datatype History = History(w: World, log: seq<Entry>, pos: seq<nat>, dead: set<nat>, rescinded: set<nat>)

  /** The entries that rescinding the k-th attempt strikes out: itself and later moves of its block. */
  function Struck(h: History, k: nat, block: string): set<nat>
    requires k < |h.pos|
  {
    set i | h.pos[k] <= i < |h.log| && h.log[i].block == block
  }

  function Step(s: Schedule, h: History, op: Op): History {
    match op
    case Judge(user, block, asr, verdict, at) =>
      var (w, r) := JudgeStep(s, h.w, user, block, asr, verdict, at);
      if r.Ok? then h.(w := w, log := h.log + [Tried(TrimSpace(block), verdict, at)], pos := h.pos + [|h.log|])
          else h.(w := w)
    case Appeal(user, recordId, at) =>
      var (w, r) := AppealStep(h.w, user, recordId, at);
      if r.Ok? && r.value.restored && 1 <= r.value.recordId <= |h.pos|
      then h.(w := w, dead := h.dead + Struck(h, r.value.recordId - 1, r.value.blockId),
              rescinded := h.rescinded + {r.value.recordId})
      else h.(w := w)
    case Write(block, ladder, at) =>
      if block in h.w.blocks then h.(w := h.w.Reschedule(block, ladder, at), log := h.log + [Wrote(block, ladder)])
          else h
    case SetDeleted(block, deletedAt) =>
      if block in h.w.blocks
          then h.(w := h.w.(blocks := h.w.blocks[block := h.w.blocks[block].(deletedAt := deletedAt)])) else h
  }

  function Exec(s: Schedule, h: History, ops: seq<Op>): History {
    if ops == [] then h else Step(s, Exec(s, h, ops[..|ops| - 1]), ops[|ops| - 1])
  }

  /** Any stock of blocks, with an empty ledger. */
  function Start(blocks: map<string, PhraseBlock>): History {
    History(World(blocks, 0, []), [], [], {}, {})
  }

  function Apply(s: Schedule, l: Ladder, e: Entry): Ladder {
    match e
    case Wrote(_, ladder) => ladder
    case Tried(_, verdict, at) => if verdict.Judged? then s.Advance(l, verdict.pass, at) else l
  }

  /** A block's ladder replayed from the log, skipping what was struck out. */
  function Replay(s: Schedule, start: Ladder, log: seq<Entry>, dead: set<nat>, block: string): Ladder {
    if log == [] then start
    else
      var n := |log| - 1;
      var l := Replay(s, start, log[..n], dead, block);
      if n in dead || log[n].block != block then l else Apply(s, l, log[n])
  }

  /** Replay looks only at its own block's entries. */
  lemma {:induction false} ReplayDependsOn(s: Schedule, start: Ladder, log: seq<Entry>, dead: set<nat>,
                                           dead': set<nat>, block: string)
    requires forall i | 0 <= i < |log| && log[i].block == block :: i in dead <==> i in dead'
    ensures Replay(s, start, log, dead, block) == Replay(s, start, log, dead', block)
  {
    if log != [] { ReplayDependsOn(s, start, log[..|log| - 1], dead, dead', block); }
  }

  /** When everything on a block from some point on is struck out, replay ends at that point. */
  lemma {:induction false} ReplayStopsAt(s: Schedule, start: Ladder, log: seq<Entry>, dead: set<nat>, block: string,
                                         p: nat)
    requires p <= |log| && forall i | p <= i < |log| && log[i].block == block :: i in dead
    ensures Replay(s, start, log, dead, block) == Replay(s, start, log[..p], dead, block)
  {
    if p < |log| {
      var n := |log| - 1;
      ReplayStopsAt(s, start, log[..n], dead, block, p);
      assert log[..n][..p] == log[..p];
    } else {
      assert log[..p] == log;
    }
  }

  function EntryOf(rec: Record): Entry {
    Tried(rec.blockId, if rec.judged then Judged(rec.pass) else Unjudged, rec.createdAt)
  }

  /** The k-th ledger row, its log entry and its snapshot. */
  ghost predicate RowOk(s: Schedule, blocks0: map<string, PhraseBlock>, h: History, k: nat)
    requires k < |h.w.records| == |h.pos| && h.w.blocks.Keys == blocks0.Keys
  {
    var rec := h.w.records[k];
    && rec.id == k + 1
    && h.pos[k] < |h.log| && h.log[h.pos[k]] == EntryOf(rec)
    && rec.blockId in blocks0 && rec.userId == blocks0[rec.blockId].userId
    && rec.prev == Some(Replay(s, blocks0[rec.blockId].ladder, h.log[..h.pos[k]], h.dead, rec.blockId))
    && (h.pos[k] in h.dead <==> rec.id in h.rescinded)
    && (rec.id in h.rescinded ==> rec.judged && !rec.pass && rec.appealedAt.Some?)
  }

  ghost predicate BlockOk(s: Schedule, blocks0: map<string, PhraseBlock>, h: History, b: string)
    requires b in blocks0 && b in h.w.blocks
  {
    && h.w.blocks[b].userId == blocks0[b].userId
    && h.w.blocks[b].ladder == Replay(s, blocks0[b].ladder, h.log, h.dead, b)
  }

  ghost predicate Inv(s: Schedule, blocks0: map<string, PhraseBlock>, h: History) {
    && h.w.blocks.Keys == blocks0.Keys
    && h.w.nextId == |h.w.records| == |h.pos|
    && (forall b | b in blocks0 :: BlockOk(s, blocks0, h, b))
    && (forall k | 0 <= k < |h.pos| :: RowOk(s, blocks0, h, k))
    && (forall j, k | 0 <= j < k < |h.pos| :: h.pos[j] < h.pos[k])
    && (forall i | i in h.dead :: i < |h.log|)
    && (forall id | id in h.rescinded :: 1 <= id <= |h.pos|)
  }

  /** Moving one block by a new log entry keeps every row and block in step with the log. */
  lemma LogGrows(s: Schedule, blocks0: map<string, PhraseBlock>, h: History, e: Entry, w: World)
    requires Inv(s, blocks0, h) && e.block in blocks0
    requires w.blocks.Keys == blocks0.Keys && w.nextId == h.w.nextId && w.records == h.w.records
    requires forall b | b in blocks0 :: w.blocks[b].userId == h.w.blocks[b].userId
    requires forall b | b in blocks0 && b != e.block :: w.blocks[b].ladder == h.w.blocks[b].ladder
    requires w.blocks[e.block].ladder == Apply(s, h.w.blocks[e.block].ladder, e)
    ensures Inv(s, blocks0, h.(w := w, log := h.log + [e]))
  {
    var log := h.log + [e];
    assert log[..|h.log|] == h.log;
    var h1 := h.(w := w, log := log);
    forall b | b in blocks0 ensures BlockOk(s, blocks0, h1, b) {
      assert BlockOk(s, blocks0, h, b);
    }
    forall k | 0 <= k < |h.pos| ensures RowOk(s, blocks0, h1, k) {
      assert RowOk(s, blocks0, h, k);
      assert log[..h.pos[k]] == h.log[..h.pos[k]];
    }
  }

  /** Filing an attempt whose entry was just logged. */
  lemma LedgerGrows(s: Schedule, blocks0: map<string, PhraseBlock>, before: History, h: History, rec: Record)
    requires Inv(s, blocks0, h) && Inv(s, blocks0, before)
    requires h.log == before.log + [EntryOf(rec)] && h.dead == before.dead && h.pos == before.pos
             && h.rescinded == before.rescinded
    requires rec.blockId in blocks0 && rec.userId == blocks0[rec.blockId].userId
    requires rec.prev == Some(before.w.blocks[rec.blockId].ladder)
    ensures Inv(s, blocks0, h.(w := h.w.Insert(rec), pos := h.pos + [|before.log|]))
  {
    var h1 := h.(w := h.w.Insert(rec), pos := h.pos + [|before.log|]);
    assert h1.log[..|before.log|] == before.log;
    assert BlockOk(s, blocks0, before, rec.blockId);
    forall k | 0 <= k < |h1.pos| ensures RowOk(s, blocks0, h1, k) {
      if k < |h.pos| { assert RowOk(s, blocks0, h, k); }
    }
    forall b | b in blocks0 ensures BlockOk(s, blocks0, h1, b) { assert BlockOk(s, blocks0, h, b); }
    forall j, k | 0 <= j < k < |h1.pos| ensures h1.pos[j] < h1.pos[k] {
      if k == |h.pos| { assert RowOk(s, blocks0, before, j); }
    }
  }

  lemma JudgeKeeps(s: Schedule, blocks0: map<string, PhraseBlock>, h: History, op: Op)
    requires Inv(s, blocks0, h) && op.Judge?
    ensures Inv(s, blocks0, Step(s, h, op))
  {
    var user, id := TrimSpace(op.user), TrimSpace(op.block);
    if JudgeStep(s, h.w, op.user, op.block, op.asr, op.verdict, op.at).1.Ok? {
      var before := h.w.blocks[id].ladder;
      var e := Tried(id, op.verdict, op.at);
      var w := if op.verdict.Judged? then h.w.Reschedule(id, s.Advance(before, op.verdict.pass, op.at), op.at) else h.w;
      assert BlockOk(s, blocks0, h, id);
      LogGrows(s, blocks0, h, e, w);
      var judged := op.verdict.Judged?;
      var rec := Record(0, user, id, judged, judged && op.verdict.pass, Some(before), None, op.at);
      assert EntryOf(rec) == e;
      LedgerGrows(s, blocks0, h, h.(w := w, log := h.log + [e]), rec);
    }
  }

  lemma WriteKeeps(s: Schedule, blocks0: map<string, PhraseBlock>, h: History, op: Op)
    requires Inv(s, blocks0, h) && op.Write?
    ensures Inv(s, blocks0, Step(s, h, op))
  {
    if op.block in h.w.blocks {
      LogGrows(s, blocks0, h, Wrote(op.block, op.ladder), h.w.Reschedule(op.block, op.ladder, op.at));
    }
  }

  lemma SetDeletedKeeps(s: Schedule, blocks0: map<string, PhraseBlock>, h: History, op: Op)
    requires Inv(s, blocks0, h) && op.SetDeleted?
    ensures Inv(s, blocks0, Step(s, h, op))
  {
    var h1 := Step(s, h, op);
    forall b | b in blocks0 ensures BlockOk(s, blocks0, h1, b) { assert BlockOk(s, blocks0, h, b); }
    forall k | 0 <= k < |h.pos| ensures RowOk(s, blocks0, h1, k) { assert RowOk(s, blocks0, h, k); }
  }

  /** Stamping a row that is not rescinded changes nothing the replay looks at. */
  lemma StampKeeps(s: Schedule, blocks0: map<string, PhraseBlock>, h: History, k: nat, at: int)
    requires Inv(s, blocks0, h) && k < |h.w.records|
    ensures Inv(s, blocks0, h.(w := Stamped(h.w, k, at)))
  {
    var h1 := h.(w := Stamped(h.w, k, at));
    forall b | b in blocks0 ensures BlockOk(s, blocks0, h1, b) { assert BlockOk(s, blocks0, h, b); }
    forall j | 0 <= j < |h1.pos| ensures RowOk(s, blocks0, h1, j) { assert RowOk(s, blocks0, h, j); }
  }

  /** The newest attempt on a block has no later attempt on it in the ledger. */
  lemma LatestIsLast(s: Schedule, blocks0: map<string, PhraseBlock>, h: History, k: nat)
    requires Inv(s, blocks0, h) && k < |h.w.records|
    requires LatestId(h.w.records, h.w.records[k].userId, h.w.records[k].blockId) == k + 1
    ensures forall m | k < m < |h.w.records| :: h.w.records[m].blockId != h.w.records[k].blockId
  {
    assert RowOk(s, blocks0, h, k);
    forall m | k < m < |h.w.records| ensures h.w.records[m].blockId != h.w.records[k].blockId {
      assert RowOk(s, blocks0, h, m);
    }
  }

  /** Restoring the newest attempt's snapshot is striking out the attempt and what followed on its block. */
  lemma RestoreKeeps(s: Schedule, blocks0: map<string, PhraseBlock>, h: History, k: nat, at: int)
    requires Inv(s, blocks0, h) && k < |h.w.records|
    requires var rec := h.w.records[k]; rec.judged && !rec.pass && rec.prev.Some? && rec.blockId in h.w.blocks
    requires forall m | k < m < |h.w.records| :: h.w.records[m].blockId != h.w.records[k].blockId
    ensures var rec := h.w.records[k];
            Inv(s, blocks0, h.(w := Restored(h.w, k, at),
                               dead := h.dead + Struck(h, k, rec.blockId), rescinded := h.rescinded + {rec.id}))
  {
    var rec := h.w.records[k];
    assert RowOk(s, blocks0, h, k);
    var dead := h.dead + Struck(h, k, rec.blockId);
    var h1 := h.(w := Restored(h.w, k, at), dead := dead, rescinded := h.rescinded + {rec.id});
    forall b | b in blocks0 ensures BlockOk(s, blocks0, h1, b) {
      assert BlockOk(s, blocks0, h, b);
      if b == rec.blockId {
        ReplayStopsAt(s, blocks0[b].ladder, h.log, dead, b, h.pos[k]);
        ReplayDependsOn(s, blocks0[b].ladder, h.log[..h.pos[k]], h.dead, dead, b);
      } else {
        ReplayDependsOn(s, blocks0[b].ladder, h.log, h.dead, dead, b);
      }
    }
    forall m | 0 <= m < |h.pos| ensures RowOk(s, blocks0, h1, m) {
      assert RowOk(s, blocks0, h, m);
      var b := h.w.records[m].blockId;
      assert b == rec.blockId ==> m <= k && h.pos[m] <= h.pos[k];
      ReplayDependsOn(s, blocks0[b].ladder, h.log[..h.pos[m]], h.dead, dead, b);
    }
  }

  /** An appeal of the k-th row, as a step of the run. */
  function Disputed(h: History, user: string, k: nat, at: int): History
    requires k < |h.w.records| && k < |h.pos|
  {
    var (w, r) := Dispute(h.w, user, k, at);
    if r.Ok? && r.value.restored
    then h.(w := w, dead := h.dead + Struck(h, k, r.value.blockId), rescinded := h.rescinded + {r.value.recordId})
    else h.(w := w)
  }

  lemma DisputeKeeps(s: Schedule, blocks0: map<string, PhraseBlock>, h: History, user: string, k: nat, at: int)
    requires Inv(s, blocks0, h) && k < |h.w.records| && h.w.records[k].userId == user
    ensures Inv(s, blocks0, Disputed(h, user, k, at))
  {
    assert RowOk(s, blocks0, h, k);
    var (w, r) := Dispute(h.w, user, k, at);
    if r.Ok? && r.value.restored {
      LatestIsLast(s, blocks0, h, k);
      RestoreKeeps(s, blocks0, h, k, at);
    } else if w != h.w {
      StampKeeps(s, blocks0, h, k, at);
    }
  }

  lemma AppealKeeps(s: Schedule, blocks0: map<string, PhraseBlock>, h: History, op: Op)
    requires Inv(s, blocks0, h) && op.Appeal?
    ensures Inv(s, blocks0, Step(s, h, op))
  {
    var user := TrimSpace(op.user);
    if user != "" && op.recordId > 0 && Lookup(h.w.records, user, op.recordId).Some? {
      var k := Lookup(h.w.records, user, op.recordId).value;
      assert RowOk(s, blocks0, h, k);
      AppealIsDispute(s, h, op, user, k);
      DisputeKeeps(s, blocks0, h, user, k, op.at);
    } else {
      AppealIsRefused(s, h, op);
    }
  }

  lemma AppealIsDispute(s: Schedule, h: History, op: Op, user: string, k: nat)
    requires op.Appeal? && user == TrimSpace(op.user) && user != "" && op.recordId > 0
    requires Lookup(h.w.records, user, op.recordId) == Some(k) && k < |h.w.records| == |h.pos|
             && h.w.records[k].id == k + 1
    ensures Step(s, h, op) == Disputed(h, user, k, op.at)
  {
    assert AppealStep(h.w, op.user, op.recordId, op.at) == Dispute(h.w, user, k, op.at);
  }

  lemma AppealIsRefused(s: Schedule, h: History, op: Op)
    requires op.Appeal? && (TrimSpace(op.user) == "" || op.recordId <= 0
             || Lookup(h.w.records, TrimSpace(op.user), op.recordId).None?)
    ensures Step(s, h, op) == h
  {
  }

  lemma StepKeeps(s: Schedule, blocks0: map<string, PhraseBlock>, h: History, op: Op)
    requires Inv(s, blocks0, h)
    ensures Inv(s, blocks0, Step(s, h, op))
  {
    match op
    case Judge(_, _, _, _, _) => JudgeKeeps(s, blocks0, h, op);
    case Appeal(_, _, _) => AppealKeeps(s, blocks0, h, op);
    case Write(_, _, _) => WriteKeeps(s, blocks0, h, op);
    case SetDeleted(_, _) => SetDeletedKeeps(s, blocks0, h, op);
  }

  lemma {:induction false} ExecKeeps(s: Schedule, blocks0: map<string, PhraseBlock>, ops: seq<Op>)
    ensures Inv(s, blocks0, Exec(s, Start(blocks0), ops))
  {
    if ops != [] {
      ExecKeeps(s, blocks0, ops[..|ops| - 1]);
      StepKeeps(s, blocks0, Exec(s, Start(blocks0), ops[..|ops| - 1]), ops[|ops| - 1]);
    }
  }

  /**
   In every run of attempts, appeals and other writers, over any blocks: each block's ladder is the
   replay of the log without what appeals struck out, each ledger row's snapshot is the replay of what
   the log held before it, and an attempt is struck out exactly when an appeal rescinded it.
   */
  lemma LedgerReplays(s: Schedule, blocks0: map<string, PhraseBlock>, ops: seq<Op>)
    ensures var h := Exec(s, Start(blocks0), ops);
            && h.w.blocks.Keys == blocks0.Keys
            && |h.pos| == |h.w.records|
            && (forall b | b in blocks0 :: h.w.blocks[b].ladder == Replay(s, blocks0[b].ladder, h.log, h.dead, b))
            && (forall k | 0 <= k < |h.pos| :: RowOk(s, blocks0, h, k))
  {
    ExecKeeps(s, blocks0, ops);
    var h := Exec(s, Start(blocks0), ops);
    forall b | b in blocks0 ensures h.w.blocks[b].ladder == Replay(s, blocks0[b].ladder, h.log, h.dead, b) {
      assert BlockOk(s, blocks0, h, b);
    }
  }

  /** A block's ladder replayed from the ledger in id order, skipping the rescinded attempts. */
  function ReplayLedger(s: Schedule, start: Ladder, records: seq<Record>, rescinded: set<nat>, block: string): Ladder {
    if records == [] then start
    else
      var n := |records| - 1;
      var l := ReplayLedger(s, start, records[..n], rescinded, block);
      var rec := records[n];
      if rec.blockId == block && rec.judged && rec.id !in rescinded then s.Advance(l, rec.pass, rec.createdAt) else l
  }

  predicate Undisturbed(ops: seq<Op>) { forall i | 0 <= i < |ops| :: !ops[i].Write? }

  /** Without other writers the log is the ledger. */
  ghost predicate LogIsLedger(h: History) {
    && |h.log| == |h.pos| == |h.w.records|
    && (forall k | 0 <= k < |h.pos| :: h.pos[k] == k)
  }

  lemma AppealFilesNothing(w: World, user: string, recordId: int, at: int)
    ensures |AppealStep(w, user, recordId, at).0.records| == |w.records|
  {
  }

  lemma {:induction false} UndisturbedLog(s: Schedule, blocks0: map<string, PhraseBlock>, ops: seq<Op>)
    requires Undisturbed(ops)
    ensures LogIsLedger(Exec(s, Start(blocks0), ops))
  {
    if ops != [] {
      var n := |ops| - 1;
      UndisturbedLog(s, blocks0, ops[..n]);
      assert !ops[n].Write?;
      UndisturbedStep(s, Exec(s, Start(blocks0), ops[..n]), ops[n]);
    }
  }

  lemma UndisturbedStep(s: Schedule, h: History, op: Op)
    requires LogIsLedger(h) && !op.Write?
    ensures LogIsLedger(Step(s, h, op))
  {
    if op.Appeal? { AppealFilesNothing(h.w, op.user, op.recordId, op.at); }
  }

  lemma {:induction false} LedgerReplayIsLogReplay(s: Schedule, start: Ladder, records: seq<Record>,
                                                   rescinded: set<nat>, log: seq<Entry>, dead: set<nat>, block: string)
    requires |records| == |log|
    requires forall i | 0 <= i < |log| :: log[i] == EntryOf(records[i]) && (i in dead <==> records[i].id in rescinded)
    ensures ReplayLedger(s, start, records, rescinded, block) == Replay(s, start, log, dead, block)
  {
    if log != [] {
      var n := |log| - 1;
      LedgerReplayIsLogReplay(s, start, records[..n], rescinded, log[..n], dead, block);
    }
  }

  /**
   In every run of attempts (passed, failed or unjudged) and appeals over any number of blocks, each
   block's state, streak and due time equal the ladder replayed over its judged ledger rows in id order,
   skipping exactly those that an appeal restored; and every row's snapshot is that replay of the rows
   before it.
   */
  lemma SchedulesAreReplays(s: Schedule, blocks0: map<string, PhraseBlock>, ops: seq<Op>)
    requires Undisturbed(ops)
    ensures var h := Exec(s, Start(blocks0), ops);
            && h.w.blocks.Keys == blocks0.Keys
            && (forall b | b in blocks0 ::
                h.w.blocks[b].ladder == ReplayLedger(s, blocks0[b].ladder, h.w.records, h.rescinded, b))
            && (forall k | 0 <= k < |h.w.records| ::
                  && h.w.records[k].blockId in blocks0
                  && h.w.records[k].prev ==
                    Some(ReplayLedger(s, blocks0[h.w.records[k].blockId].ladder, h.w.records[..k], h.rescinded,
                                      h.w.records[k].blockId)))
  {
    var h := Exec(s, Start(blocks0), ops);
    LedgerReplays(s, blocks0, ops);
    UndisturbedLog(s, blocks0, ops);
    var records := h.w.records;
    forall i | 0 <= i < |h.log|
      ensures h.log[i] == EntryOf(records[i]) && (i in h.dead <==> records[i].id in h.rescinded)
    {
      assert RowOk(s, blocks0, h, i);
    }
    forall b | b in blocks0
      ensures h.w.blocks[b].ladder == ReplayLedger(s, blocks0[b].ladder, records, h.rescinded, b)
    {
      LedgerReplayIsLogReplay(s, blocks0[b].ladder, records, h.rescinded, h.log, h.dead, b);
    }
    forall k | 0 <= k < |records| ensures records[k].blockId in blocks0
      && records[k].prev ==
          Some(ReplayLedger(s, blocks0[records[k].blockId].ladder, records[..k], h.rescinded, records[k].blockId))
    {
      assert RowOk(s, blocks0, h, k);
      LedgerReplayIsLogReplay(s, blocks0[records[k].blockId].ladder, records[..k], h.rescinded, h.log[..k], h.dead,
                              records[k].blockId);
    }
  }

  /** Every attempt in the log is a ledger row. */
  ghost predicate Filed(h: History) {
    forall i | 0 <= i < |h.log| && h.log[i].Tried? :: i in h.pos
  }

  /**
   Entry i went with the appeal of row k: it is that attempt or a later move of its block before any
   newer attempt.
   */
  ghost predicate StruckWith(h: History, k: nat, i: nat)
    requires k < |h.pos| == |h.w.records| && i < |h.log|
  {
    var b := h.w.records[k].blockId;
    && h.w.records[k].id in h.rescinded
    && h.log[i].block == b && h.pos[k] <= i
    && (forall m | k < m < |h.pos| && h.w.records[m].blockId == b :: i < h.pos[m])
  }

  ghost predicate DeadOk(h: History, i: nat)
    requires |h.pos| == |h.w.records| && i < |h.log|
  {
    exists k: nat | k < |h.pos| :: StruckWith(h, k, i)
  }

  /** Attempts are filed, and whatever is struck out went with a rescinded attempt. */
  ghost predicate Accounted(h: History) {
    && |h.pos| == |h.w.records|
    && Filed(h)
    && (forall i | i in h.dead :: i < |h.log| && DeadOk(h, i))
  }

  /** What is struck out stays accounted for when rows are kept and new attempts come last. */
  lemma DeadStaysOk(h: History, h1: History, i: nat)
    requires |h.pos| == |h.w.records| && i < |h.log| && DeadOk(h, i)
    requires |h1.pos| == |h1.w.records| >= |h.pos| && h1.pos[..|h.pos|] == h.pos
    requires |h1.log| >= |h.log| && h1.log[..|h.log|] == h.log && h.rescinded <= h1.rescinded
    requires forall k | 0 <= k < |h.pos| ::
             h1.w.records[k].blockId == h.w.records[k].blockId && h1.w.records[k].id == h.w.records[k].id
    requires forall m | |h.pos| <= m < |h1.pos| :: i < h1.pos[m]
    ensures DeadOk(h1, i)
  {
    var k: nat :| k < |h.pos| && StruckWith(h, k, i);
    assert forall m | 0 <= m < |h.pos| :: h1.pos[m] == h1.pos[..|h.pos|][m];
    assert h1.log[i] == h1.log[..|h.log|][i];
    assert StruckWith(h1, k, i);
  }

  lemma JudgeAccounts(s: Schedule, h: History, op: Op)
    requires Accounted(h) && op.Judge?
    ensures Accounted(Step(s, h, op))
  {
    var h1 := Step(s, h, op);
    assert h1 == h || (h1.pos == h.pos + [|h.log|] && |h1.log| == |h.log| + 1 && |h1.w.records| == |h.w.records| + 1);
    forall i | i in h1.dead ensures DeadOk(h1, i) { DeadStaysOk(h, h1, i); }
    assert forall i :: i in h.pos ==> i in h1.pos;
    assert h1 != h ==> h1.pos[|h.pos|] == |h.log|;
  }

  lemma DisputeAccounts(s: Schedule, blocks0: map<string, PhraseBlock>, h: History, user: string, k: nat, at: int)
    requires Inv(s, blocks0, h) && Accounted(h) && k < |h.w.records| && h.w.records[k].userId == user
    ensures Accounted(Disputed(h, user, k, at))
  {
    assert RowOk(s, blocks0, h, k);
    var h1 := Disputed(h, user, k, at);
    DisputeKeepsTheRest(h, user, k, at, h1);
    forall i | i in h1.dead ensures i < |h1.log| && DeadOk(h1, i) {
      if i in h.dead {
        DeadStaysOk(h, h1, i);
      } else {
        LatestIsLast(s, blocks0, h, k);
        assert StruckWith(h1, k, i);
      }
    }
  }

  /** A dispute keeps log, places, ids and blocks; it strikes out nothing, or what went with the newest attempt. */
  lemma DisputeKeepsTheRest(h: History, user: string, k: nat, at: int, h1: History)
    requires |h.pos| == |h.w.records| && k < |h.pos| && h1 == Disputed(h, user, k, at)
    requires h.w.records[k].userId == user && h.w.records[k].id == k + 1
    ensures h1.log == h.log && h1.pos == h.pos && |h1.w.records| == |h.w.records| && h.rescinded <= h1.rescinded
    ensures forall m | 0 <= m < |h.pos| ::
              h1.w.records[m].blockId == h.w.records[m].blockId && h1.w.records[m].id == h.w.records[m].id
    ensures h1.dead == h.dead || (
              && h1.dead == h.dead + Struck(h, k, h.w.records[k].blockId)
              && h.w.records[k].id in h1.rescinded
              && LatestId(h.w.records, user, h.w.records[k].blockId) == k + 1)
  {
  }

  lemma OthersAccount(s: Schedule, h: History, op: Op)
    requires Accounted(h) && (op.Write? || op.SetDeleted?)
    ensures Accounted(Step(s, h, op))
  {
    var h1 := Step(s, h, op);
    forall i | i in h1.dead ensures DeadOk(h1, i) { DeadStaysOk(h, h1, i); }
  }

  lemma AppealAccounts(s: Schedule, blocks0: map<string, PhraseBlock>, h: History, op: Op)
    requires Inv(s, blocks0, h) && Accounted(h) && op.Appeal?
    ensures Accounted(Step(s, h, op))
  {
    var user := TrimSpace(op.user);
    if user != "" && op.recordId > 0 && Lookup(h.w.records, user, op.recordId).Some? {
      var k := Lookup(h.w.records, user, op.recordId).value;
      assert RowOk(s, blocks0, h, k);
      AppealIsDispute(s, h, op, user, k);
      DisputeAccounts(s, blocks0, h, user, k, op.at);
    } else {
      AppealIsRefused(s, h, op);
    }
  }

  lemma {:induction false} ExecAccounts(s: Schedule, blocks0: map<string, PhraseBlock>, ops: seq<Op>)
    ensures Accounted(Exec(s, Start(blocks0), ops))
  {
    if ops != [] {
      var h, op := Exec(s, Start(blocks0), ops[..|ops| - 1]), ops[|ops| - 1];
      ExecAccounts(s, blocks0, ops[..|ops| - 1]);
      ExecKeeps(s, blocks0, ops[..|ops| - 1]);
      match op
      case Judge(_, _, _, _, _) => JudgeAccounts(s, h, op);
      case Appeal(_, _, _) => AppealAccounts(s, blocks0, h, op);
      case _ => OthersAccount(s, h, op);
    }
  }

  /** Some other writer has stored a ladder on the block since this point of the log. */
  predicate WrittenSince(log: seq<Entry>, block: string, p: nat) {
    exists i | p <= i < |log| :: log[i].Wrote? && log[i].block == block
  }

  /** From some point on a block's entries are live writes; then one write more decides both replays. */
  lemma {:induction false} SkipOne(s: Schedule, start: Ladder, log: seq<Entry>, dead: set<nat>, block: string, p: nat)
    requires p < |log| && forall i | p < i < |log| && log[i].block == block :: log[i].Wrote? && i !in dead
    ensures !WrittenSince(log, block, p + 1) ==>
              Replay(s, start, log, dead + {p}, block) == Replay(s, start, log[..p], dead, block)
    ensures WrittenSince(log, block, p + 1) ==>
              Replay(s, start, log, dead + {p}, block) == Replay(s, start, log, dead, block)
  {
    var n := |log| - 1;
    if p < n {
      var rest := log[..n];
      SkipOne(s, start, rest, dead, block, p);
      assert rest[..p] == log[..p];
      assert forall i | 0 <= i < n :: rest[i] == log[i];
      if log[n].block == block {
        assert log[n].Wrote?;
      } else {
        assert WrittenSince(log, block, p + 1) <==> WrittenSince(rest, block, p + 1);
      }
    } else {
      ReplayDependsOn(s, start, log[..p], dead, dead + {p}, block);
    }
  }

  /** After the newest attempt on a block, while it is not rescinded, only live writes of others follow. */
  lemma OnlyWritesFollow(s: Schedule, blocks0: map<string, PhraseBlock>, h: History, k: nat)
    requires Inv(s, blocks0, h) && Accounted(h) && k < |h.w.records| && h.w.records[k].id !in h.rescinded
    requires LatestId(h.w.records, h.w.records[k].userId, h.w.records[k].blockId) == k + 1
    ensures h.pos[k] < |h.log|
    ensures forall i | h.pos[k] < i < |h.log| && h.log[i].block == h.w.records[k].blockId ::
              h.log[i].Wrote? && i !in h.dead
  {
    assert RowOk(s, blocks0, h, k);
    LatestIsLast(s, blocks0, h, k);
    NoAttemptFollows(s, blocks0, h, k);
    NothingStruckFollows(h, k);
  }

  lemma NoAttemptFollows(s: Schedule, blocks0: map<string, PhraseBlock>, h: History, k: nat)
    requires Inv(s, blocks0, h) && Filed(h) && k < |h.w.records|
    requires forall m | k < m < |h.w.records| :: h.w.records[m].blockId != h.w.records[k].blockId
    ensures forall i | h.pos[k] < i < |h.log| && h.log[i].Tried? :: h.log[i].block != h.w.records[k].blockId
  {
    forall i | h.pos[k] < i < |h.log| && h.log[i].Tried? ensures h.log[i].block != h.w.records[k].blockId {
      var m :| 0 <= m < |h.pos| && h.pos[m] == i;
      assert RowOk(s, blocks0, h, m);
    }
  }

  /** What went with an earlier attempt lies before this one, and nothing went with this one. */
  lemma NothingStruckFollows(h: History, k: nat)
    requires Accounted(h) && k < |h.w.records| && h.w.records[k].id !in h.rescinded
    requires forall m | k < m < |h.w.records| :: h.w.records[m].blockId != h.w.records[k].blockId
    ensures forall i | h.pos[k] < i < |h.log| && h.log[i].block == h.w.records[k].blockId :: i !in h.dead
  {
    forall i: nat | i in h.dead && i < |h.log| && h.log[i].block == h.w.records[k].blockId ensures i <= h.pos[k] {
      assert DeadOk(h, i);
      var m: nat :| m < |h.pos| && StruckWith(h, m, i);
      assert m < k ==> i < h.pos[k];
    }
  }

  /**
   With other writers about, appealing the newest attempt on a live block, failed and not yet appealed,
   undoes that attempt and nothing else, that is, leaves the ladder that replays the log without it,
   exactly when no other writer has stored a ladder on the block since, or the ladder now on the block
   is already the one from before the attempt.
   */
  lemma AppealUndoesOnlyTheAttemptIff(s: Schedule, blocks0: map<string, PhraseBlock>, ops: seq<Op>, h: History, k: nat,
                                      user: string, at: int)
    requires h == Exec(s, Start(blocks0), ops) && k < |h.w.records| && k < |h.pos|
    requires var rec := h.w.records[k];
             && rec.judged && !rec.pass && rec.appealedAt.None?
             && TrimSpace(user) == rec.userId != "" && h.w.Live(rec.userId, rec.blockId)
             && LatestId(h.w.records, rec.userId, rec.blockId) == k + 1
    ensures var b := h.w.records[k].blockId;
            && b in blocks0
            && var (w1, r) := AppealStep(h.w, user, k + 1, at);
            && r.Ok? && r.value.restored && b in w1.blocks
            && (w1.blocks[b].ladder == Replay(s, blocks0[b].ladder, h.log, h.dead + {h.pos[k]}, b) <==>
                  !WrittenSince(h.log, b, h.pos[k] + 1) || Some(h.w.blocks[b].ladder) == h.w.records[k].prev)
  {
    var rec := h.w.records[k];
    ExecKeeps(s, blocks0, ops);
    ExecAccounts(s, blocks0, ops);
    assert RowOk(s, blocks0, h, k) && BlockOk(s, blocks0, h, rec.blockId);
    OnlyWritesFollow(s, blocks0, h, k);
    SkipOne(s, blocks0[rec.blockId].ladder, h.log, h.dead, rec.blockId, h.pos[k]);
    AppealRestores(s, blocks0, h, k, user, at);
  }

  /** Such an appeal restores the attempt's snapshot. */
  lemma AppealRestores(s: Schedule, blocks0: map<string, PhraseBlock>, h: History, k: nat, user: string, at: int)
    requires Inv(s, blocks0, h) && k < |h.w.records|
    requires var rec := h.w.records[k];
             && rec.judged && !rec.pass && rec.appealedAt.None?
             && TrimSpace(user) == rec.userId != "" && h.w.Live(rec.userId, rec.blockId)
             && LatestId(h.w.records, rec.userId, rec.blockId) == k + 1
    ensures var (w1, r) := AppealStep(h.w, user, k + 1, at);
            && r.Ok? && r.value.restored && h.w.records[k].blockId in w1.blocks
            && Some(w1.blocks[h.w.records[k].blockId].ladder) == h.w.records[k].prev
  {
    assert RowOk(s, blocks0, h, k);
    var found := Lookup(h.w.records, h.w.records[k].userId, k + 1);
    assert Owns(h.w.records[k], h.w.records[k].userId, k + 1);
    if found.Some? { assert RowOk(s, blocks0, h, found.value); }
    assert found == Some(k);
  }

  /**
   A hit, edit or sweep between a failed attempt and its appeal: whatever ladder it stored, the appeal
   restores and leaves the ladder from before the attempt, so the later move is lost.
   */
  lemma AppealErasesLaterMoves(s: Schedule, w: World, user: string, block: string, fail: int, later: Ladder, at: int,
                               appeal: int)
    requires w.Live(user, block) && TrimSpace(user) == user != ""
    requires forall i | 0 <= i < |w.records| :: w.records[i].id <= w.nextId
    ensures var (w1, r1) := Attempt(s, w, user, block, Judged(false), fail);
            var (w2, r2) := AppealStep(w1.Reschedule(block, later, at), user, w.nextId + 1, appeal);
            r1.Ok? && r2.Ok? && r2.value.restored && w2.blocks[block].ladder == w.blocks[block].ladder
  {
    var w1 := Attempt(s, w, user, block, Judged(false), fail).0.Reschedule(block, later, at);
    assert Lookup(w1.records, user, w.nextId + 1) == Some(|w.records|);
    assert LatestId(w1.records, user, block) == w.nextId + 1;
  }
}
