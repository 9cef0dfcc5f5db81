/**
 What one corpus call does, in the terms of its caller (internal/corpus/memory_store.go, service.go): who is
 credited by a report or a check-in and with what, what an edit writes, what an accepted item becomes.
 */
module CorpusEffects {
  import opened Wrappers
  import opened Text
  import opened Ordering
  import opened Schedule
  import opened CorpusModel
  import opened CorpusRuns
  import HitReport
  import CorpusStore
  import BatchAccept
  import Rounds

  /** The ledger rows that name a block, in order. */
  function RowsOf(rows: seq<CorpusModel.RealUse>, id: string): seq<CorpusModel.RealUse> {
    if rows == [] then []
    else
      var n := |rows| - 1;
      RowsOf(rows[..n], id) + if rows[n].blockId == id then [rows[n]] else []
  }

  lemma RowsOfMore(rows: seq<CorpusModel.RealUse>, row: CorpusModel.RealUse, id: string)
    ensures RowsOf(rows + [row], id) == RowsOf(rows, id) + if row.blockId == id then [row] else []
  {
    assert (rows + [row])[..|rows|] == rows;
  }

  /** Nothing about this block has changed, nor the ledger's rows about it. */
  predicate Untouched(c: Corpus, c1: Corpus, id: string) {
    && (id in c1.blocks <==> id in c.blocks)
    && (id in c.blocks ==> c1.blocks[id] == c.blocks[id])
    && RowsOf(c1.realUses, id) == RowsOf(c.realUses, id)
  }

  /** The block has one use more: counted, a pass on its ladder, and one row on the ledger. */
  predicate CreditedOnce(c: Corpus, c1: Corpus, row: CorpusModel.RealUse) {
    && row.blockId in c.blocks && row.blockId in c1.blocks
    && var b, b1 := c.blocks[row.blockId], c1.blocks[row.blockId];
    && b1.realUseCount == b.realUseCount + 1 && b1.totalUses == b.totalUses + 1
    && b1.lastUsedAt == Some(row.usedAt) && b1.updatedAt == row.usedAt
    && b1.ladder == c.schedule.Advance(b.ladder, true, row.usedAt)
    && b1 == b.(realUseCount := b1.realUseCount, totalUses := b1.totalUses, lastUsedAt := b1.lastUsedAt,
                updatedAt := b1.updatedAt, ladder := b1.ladder)
    && RowsOf(c1.realUses, row.blockId) == RowsOf(c.realUses, row.blockId) + [row]
  }

  /** What a hit at ms leaves of one block. */
  predicate HitLeaves(c: Corpus, c1: Corpus, user: string, session: string, turn: string, id: string, ms: int) {
    if FirstHit(c, user, session, turn, id)
    then CreditedOnce(c, c1, CorpusModel.RealUse(user, id, FromHit, turn, ms * 1_000_000))
    else Untouched(c, c1, id)
  }

  lemma OneHit(c: Corpus, user: string, session: string, turn: string, id: string, ms: int)
    ensures var c1 := RecordHit(c, user, session, turn, id, ms);
            && HitLeaves(c, c1, user, session, turn, id, ms)
            && (forall other | other != id :: Untouched(c, c1, other))
            && c1.uses == c.uses[UseKey(session, turn, id) := Use(user, session, turn, id, ms)]
            && c1.schedule == c.schedule
  {
    var c1 := RecordHit(c, user, session, turn, id, ms);
    var row := CorpusModel.RealUse(user, id, FromHit, turn, ms * 1_000_000);
    forall other ensures other != id ==> Untouched(c, c1, other) {
      RowsOfMore(c.realUses, row, other);
    }
    RowsOfMore(c.realUses, row, id);
  }

  /** Two steps on one block, of which one leaves it untouched. */
  lemma UntouchedThenHit(c: Corpus, c0: Corpus, c1: Corpus, user: string, session: string, turn: string, id: string,
                         ms: int)
    requires c0.schedule == c.schedule
    requires Untouched(c, c0, id) && HitLeaves(c0, c1, user, session, turn, id, ms)
    requires UseKey(session, turn, id) in c0.uses <==> UseKey(session, turn, id) in c.uses
    ensures HitLeaves(c, c1, user, session, turn, id, ms)
  {
  }

  lemma HitThenUntouched(c: Corpus, c0: Corpus, c1: Corpus, user: string, session: string, turn: string, id: string,
                         ms: int)
    requires HitLeaves(c, c0, user, session, turn, id, ms) && Untouched(c0, c1, id)
    ensures HitLeaves(c, c1, user, session, turn, id, ms)
  {
  }

  lemma {:induction false} OthersUntouched(c: Corpus, user: string, session: string, turn: string, ids: seq<string>,
                                           times: map<string, int>, id: string)
    requires (forall x | x in ids :: x in times) && id !in ids
    ensures var c1 := HitReport.RecordAll(c, user, session, turn, ids, times);
            && Untouched(c, c1, id) && c1.schedule == c.schedule
            && (UseKey(session, turn, id) in c1.uses <==> UseKey(session, turn, id) in c.uses)
  {
    if ids != [] {
      var n := |ids| - 1;
      assert ids == ids[..n] + [ids[n]];
      OthersUntouched(c, user, session, turn, ids[..n], times, id);
      var c0 := HitReport.RecordAll(c, user, session, turn, ids[..n], times);
      OneHit(c0, user, session, turn, ids[n], times[ids[n]]);
      if UseKey(session, turn, id) == UseKey(session, turn, ids[n]) {
        HitReport.UseKeyKeepsBlocksApart(session, turn, id, ids[n]);
      }
    }
  }

  lemma {:induction false} EachHitLeaves(c: Corpus, user: string, session: string, turn: string, ids: seq<string>,
                                         times: map<string, int>, id: string)
    requires (forall x | x in ids :: x in times) && Distinct(ids) && id in ids
    ensures HitLeaves(c, HitReport.RecordAll(c, user, session, turn, ids, times), user, session, turn, id, times[id])
  {
    var n := |ids| - 1;
    assert ids == ids[..n] + [ids[n]];
    var c0 := HitReport.RecordAll(c, user, session, turn, ids[..n], times);
    var c1 := HitReport.RecordAll(c, user, session, turn, ids, times);
    OneHit(c0, user, session, turn, ids[n], times[ids[n]]);
    if ids[n] == id {
      assert id !in ids[..n];
      OthersUntouched(c, user, session, turn, ids[..n], times, id);
      UntouchedThenHit(c, c0, c1, user, session, turn, id, times[id]);
    } else {
      EachHitLeaves(c, user, session, turn, ids[..n], times, id);
      HitThenUntouched(c, c0, c1, user, session, turn, id, times[id]);
    }
  }

  /**
   Who a report credits: every block it names for which the turn has no hit yet and that is the learner's and
   not deleted, once, at its latest detection; no other block changes, in the report or outside it.
   */
  lemma ReportCredits(c: Corpus, user: string, session: string, turn: string, hits: seq<HitReport.Hit>, id: string)
    ensures var c1 := HitReport.Report(c, user, session, turn, hits);
            if id in HitReport.Latest(hits)
            then HitLeaves(c, c1, user, session, turn, id, HitReport.Latest(hits)[id])
            else Untouched(c, c1, id)
  {
    var times := HitReport.Latest(hits);
    var ids := HitReport.SortedIds(times.Keys);
    StrictIdsDistinct(ids);
    if id in times { EachHitLeaves(c, user, session, turn, ids, times, id); }
        else { OthersUntouched(c, user, session, turn, ids, times, id); }
  }

  lemma StrictIdsDistinct(ids: seq<string>)
    requires StrictlySorted(StrLess, ids)
    ensures Distinct(ids)
  {
    StrLessOrder();
    forall i, j | 0 <= i < j < |ids| ensures ids[i] != ids[j] { assert StrLess(ids[i], ids[j]); }
  }

  /** A report names a block if and only if one of its hits does, and then at the latest of them. */
  lemma LatestMeans(hits: seq<HitReport.Hit>, id: string)
    ensures id in HitReport.Latest(hits) <==> id != "" && exists h | h in hits :: TrimSpace(h.blockId) == id
    ensures id in HitReport.Latest(hits) ==>
              && (forall h | h in hits && TrimSpace(h.blockId) == id :: h.detectedAtMs <= HitReport.Latest(hits)[id])
              && (exists h | h in hits :: TrimSpace(h.blockId) == id && h.detectedAtMs == HitReport.Latest(hits)[id])
  {
    if id in HitReport.Latest(hits) {
      var h := HitReport.LatestIsAttained(hits, id);
      assert h in hits && TrimSpace(h.blockId) == id && h.detectedAtMs == HitReport.Latest(hits)[id];
    }
    forall h | h in hits && TrimSpace(h.blockId) == id && id != ""
      ensures id in HitReport.Latest(hits) && h.detectedAtMs <= HitReport.Latest(hits)[id]
    {
      HitReport.LatestIsAnUpperBound(hits, h);
    }
  }

  /** What a check-in leaves of one block it names. */
  predicate UseLeaves(c: Corpus, c1: Corpus, user: string, id: string, source: UseSource, ref: string, at: int) {
    if FirstUse(c, user, id, source, ref) then CreditedOnce(c, c1, CorpusModel.RealUse(user, id, source, ref, at))
    else Untouched(c, c1, id)
  }

  lemma OneUse(c: Corpus, user: string, id: string, source: UseSource, ref: string, at: int)
    ensures var c1 := RecordRealUse(c, user, id, source, ref, at);
            && UseLeaves(c, c1, user, id, source, ref, at)
            && (forall other | other != id ::
                Untouched(c, c1, other)
                  && (FirstUse(c1, user, other, source, ref) <==> FirstUse(c, user, other, source, ref)))
            && !FirstUse(c1, user, id, source, ref)
            && c1.schedule == c.schedule
  {
    var c1, row := RecordRealUse(c, user, id, source, ref, at), CorpusModel.RealUse(user, id, source, ref, at);
    FirstUseIsCredited(c, user, id, source, ref, at);
    RowsOfMore(c.realUses, row, id);
    forall other | other != id
      ensures Untouched(c, c1, other)
                && (FirstUse(c1, user, other, source, ref) <==> FirstUse(c, user, other, source, ref))
    {
      RowsOfMore(c.realUses, row, other);
      if c1.realUses != c.realUses { OtherUsesAlike(c, c1, row, user, other, source, ref); }
    }
    if FirstUse(c, user, id, source, ref) { assert c1.realUses[|c.realUses|] == row; }
  }

  lemma OtherUsesAlike(c: Corpus, c1: Corpus, row: CorpusModel.RealUse, user: string, other: string,
                       source: UseSource, ref: string)
    requires c1.realUses == c.realUses + [row] && row.blockId != other
    requires Present(c1, user, other) <==> Present(c, user, other)
    ensures FirstUse(c1, user, other, source, ref) <==> FirstUse(c, user, other, source, ref)
  {
    assert forall i | 0 <= i < |c.realUses| :: c1.realUses[i] == c.realUses[i];
  }

  /**
   Who a check-in credits: every block it names that is the learner's and not deleted and has no row of that
   source and reference yet, once, however often it is named; no other block changes.
   */
  lemma {:induction false} CheckinCredits(c: Corpus, user: string, ids: seq<string>, source: UseSource, ref: string,
                                          at: int, id: string)
    ensures var c1 := CorpusStore.RecordUses(c, user, ids, source, ref, at);
            && (if id in ids then UseLeaves(c, c1, user, id, source, ref, at) else Untouched(c, c1, id))
            && (FirstUse(c1, user, id, source, ref) <==> id !in ids && FirstUse(c, user, id, source, ref))
            && c1.schedule == c.schedule
  {
    if ids != [] {
      var n := |ids| - 1;
      assert ids == ids[..n] + [ids[n]];
      CheckinCredits(c, user, ids[..n], source, ref, at, id);
      OneUse(CorpusStore.RecordUses(c, user, ids[..n], source, ref, at), user, ids[n], source, ref, at);
    }
  }

  /** The wording of an edit or an accepted item, as it is stored. */
  predicate StoredAs(raw: Wording, b: PhraseBlock) {
    && b.intent == TrimSpace(raw.intent) && b.expression == TrimSpace(raw.expression)
        && b.anchor == TrimSpace(raw.anchor)
    && b.scene == ToLower(TrimSpace(raw.scene)) && b.function_ == ToLower(TrimSpace(raw.function_))
  }

  /** A wording that the service takes. */
  predicate Acceptable(raw: Wording) {
    && TrimSpace(raw.intent) != "" && TrimSpace(raw.expression) != "" && TrimSpace(raw.anchor) != ""
    && ToLower(TrimSpace(raw.scene)) in {"standup", "review", "1on1", "interview", "casual"}
    && ToLower(TrimSpace(raw.function_)) in {"object", "clarify", "report", "propose", "agree", "disagree", "ask",
                                             "summarize", "defer", "commit"}
  }

  lemma AcceptableIsValid(raw: Wording)
    ensures ValidWording(Cleaned(raw)) <==> Acceptable(raw)
  {
    TrimmedTwice(raw.intent);
    TrimmedTwice(raw.expression);
    TrimmedTwice(raw.anchor);
  }

  lemma TrimmedTwice(s: string)
    ensures TrimSpace(TrimSpace(s)) == TrimSpace(s)
  {
    var n, m := TrimSpaceMeans(s, IsSpace);
    var t := TrimSpace(s);
    assert TrimLeft(t) == t;
    assert TrimRight(t) == t;
  }

  /**
   An edit of a present block with an acceptable wording stores the wording. If the sentence changed, the
   block's version goes up by one, the change is logged and its ladder starts over; if not, neither version,
   log nor ladder moves. Counters, pin, source and owner stay, and so does every other block.
   */
  lemma EditMeans(c: Corpus, user: string, id: string, raw: Wording, now: int)
    requires Present(c, user, id) && c.blocks[id].id == id && Acceptable(raw) && c.schedule.Valid()
    ensures var c1 := EditBlock(c, user, id, Cleaned(raw), now);
            && id in c1.blocks && (forall other | other in c.blocks && other != id ::
                                   other in c1.blocks && c1.blocks[other] == c.blocks[other])
            && var b, b1 := c.blocks[id], c1.blocks[id];
            && StoredAs(raw, b1) && b1.updatedAt == now
            && (if b.expression == TrimSpace(raw.expression)
                then b1.version == b.version && b1.ladder == b.ladder && c1.edits == c.edits
                else b1.version == b.version + 1 && b1.ladder == Ladder(New, 0, now + c.schedule.trainingInterval)
                     && c1.edits == c.edits
                       + [BlockEdit(user, id, b.version + 1, b.expression, TrimSpace(raw.expression), now)])
            && b1 == b.(intent := b1.intent, expression := b1.expression, anchor := b1.anchor, scene := b1.scene,
                        function_ := b1.function_,
                        version := b1.version, ladder := b1.ladder, updatedAt := now)
  {
    AcceptableIsValid(raw);
    assert c.schedule.Normalize() == c.schedule;
    RewriteMeans(c, user, id, Cleaned(raw), now);
  }

  lemma RewriteMeans(c: Corpus, user: string, id: string, w: Wording, now: int)
    requires Present(c, user, id) && c.blocks[id].id == id
    ensures var c1, b := Rewrite(c, user, id, w, now), c.blocks[id];
            var changed := w.expression != b.expression;
            && c1.blocks == c.blocks[id := b.(intent := w.intent, expression := w.expression, anchor := w.anchor,
                                              scene := w.scene,
                                              function_ := w.function_, updatedAt := now,
                                              version := if changed then b.version + 1 else b.version,
                                              ladder := if changed then c.schedule.Restart(now) else b.ladder)]
            && c1.edits == if changed
                then c.edits + [BlockEdit(user, id, b.version + 1, b.expression, w.expression, now)] else c.edits
  {
    var b1 := Reworded(c.blocks[id], w, now);
    var c1 := UpdateBlock(c, b1);
    assert c1.blocks == c.blocks[id := b1];
  }

  /** Pinning, favouring and deleting write just what they say; a deleted block is no longer anyone's to change. */
  lemma SettersMean(c: Corpus, user: string, id: string, favorite: bool, pinnedAt: Option<int>, at: int)
    requires Present(c, user, id)
    ensures SetFavorite(c, user, id, favorite, pinnedAt, at)
              == c.(blocks := c.blocks[id := c.blocks[id].(favorite := favorite, pinnedAt := pinnedAt,
                                                           updatedAt := at)])
    ensures !Present(SoftDelete(c, user, id, at), user, id)
    ensures SoftDelete(c, user, id, at) ==
              c.(blocks := c.blocks[id := c.blocks[id].(deletedAt := Some(at), updatedAt := at)])
  {
  }

  /** A merge hands over exactly the one user's blocks. */
  lemma MergeMeans(c: Corpus, from: string, to: string, id: string)
    requires id in c.blocks
    ensures id in ReassignUser(c, from, to).blocks
    ensures ReassignUser(c, from, to).blocks[id] ==
              if c.blocks[id].userId == from then c.blocks[id].(userId := to) else c.blocks[id]
  {
  }

  /** New blocks fall due at the next midnight. */
  lemma NewBlocksAreDue(now: int)
    ensures now < BatchAccept.NextDueForNew(now) <= now + 24 * 3600 * 1_000_000_000
    ensures BatchAccept.NextDueForNew(now) % (24 * 3600 * 1_000_000_000) == 0
  {
  }

  /** What an accepted item becomes: the learner's new block with the stored wording, unused, due at midnight. */
  lemma AcceptedItemMeans(user: string, session: string, now: int, id: string, raw: Wording)
    ensures var b := BatchAccept.AcceptedBlock(user, session, now, id, raw);
            && StoredAs(raw, b) && b.id == id && b.userId == user
            && b.ladder == Ladder(New, 0, BatchAccept.NextDueForNew(now)) && b.realUseCount == 0 && b.totalUses == 0
            && b.lastUsedAt.None? && !b.favorite && b.pinnedAt.None? && b.deletedAt.None?
            && b.createdAt == now && b.updatedAt == now
            && (TrimSpace(session) != "" ==> b.source == Some(session))
  {
  }

  /** The two rows are the same saved sentence of the same learner, from the same session. */
  predicate SameRow(x: PhraseBlock, y: PhraseBlock) {
    && x.userId == y.userId && x.expression == y.expression && x.anchor == y.anchor
    && x.scene == y.scene && x.function_ == y.function_
    && (x.source == y.source || (x.source == Some("") && y.source.None?) || (x.source.None? && y.source == Some("")))
  }

  /**
   Saving an accepted block: with no such row stored it is added as it is; a live one stays; a deleted one
   comes back with the new intent and keeps its id, ladder, counters and marks.
   */
  lemma SaveMeans(c: Corpus, b: PhraseBlock, found: Option<string>)
    requires Finds(c, b, found)
    ensures found.None? <==> forall id | id in c.blocks :: !SameRow(c.blocks[id], b)
    ensures match found
            case None => SaveAccepted(c, b, found) ==
                c.(blocks := c.blocks[b.id := b.(version := if b.version < 1 then 1 else b.version)])
            case Some(id) =>
              && id in c.blocks && SameRow(c.blocks[id], b)
              && SaveAccepted(c, b, found) ==
                   if c.blocks[id].deletedAt.None? then c
                   else c.(blocks := c.blocks[id := c.blocks[id].(deletedAt := None, intent := b.intent,
                     source := b.source, updatedAt := b.updatedAt)])
  {
    forall id | id in c.blocks ensures SameNaturalKey(c.blocks[id], b) <==> SameRow(c.blocks[id], b) {}
  }

  /** The overdue sweep of a round: a positive window brings the learner's live blocks that are later than it to now. */
  lemma SweepMeans(c: Corpus, user: string, now: int, window: int, id: string)
    requires id in c.blocks
    ensures var c1, b := Rounds.SweptCorpus(c, user, now, window), c.blocks[id];
            && c1.blocks.Keys == c.blocks.Keys
            && c1.blocks[id] ==
                 if window > 0 && b.userId == user && b.deletedAt.None? && b.ladder.due + window < now
                 then b.(ladder := b.ladder.(due := now), updatedAt := now) else b
  {
  }
}
