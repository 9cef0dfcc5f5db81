/**
 What one drill call does, in the terms of its caller (internal/drill/service.go): when an attempt is taken
 and what it leaves behind, when an appeal restores, and that an appeal is made once.
 */
module DrillEffects {
  import opened Wrappers
  import opened Text
  import opened Schedule
  import opened CorpusModel
  import opened DrillModel
  import opened DrillRuns

  /** When an attempt is taken, and how it is refused otherwise, in the order of the checks. */
  lemma JudgeTakesIff(s: Schedule, w: World, userId: string, blockId: string, asr: string, verdict: Verdict, now: int)
    ensures var user, id := TrimSpace(userId), TrimSpace(blockId);
            var (w1, r) := JudgeStep(s, w, userId, blockId, asr, verdict, now);
            && (r.Ok? <==> user != "" && id != "" && TrimSpace(asr) != "" && id in w.blocks
                             && w.blocks[id].deletedAt.None? && w.blocks[id].userId == user)
            && (r.Err? ==> w1 == w)
            && (user == "" ==> r == Err(Unauthenticated))
            && (user != "" && (id == "" || TrimSpace(asr) == "") ==> r == Err(InvalidArgument))
            && (user != "" && id != "" && TrimSpace(asr) != "" ==>
                  && (id !in w.blocks || w.blocks[id].deletedAt.Some? ==> r == Err(NotFound))
                  && (id in w.blocks && w.blocks[id].deletedAt.None? && w.blocks[id].userId != user ==>
                        r == Err(PermissionDenied)))
  {
  }

  /** The block is there, is the user's and is not deleted. */
  predicate Present(w: World, user: string, id: string) {
    id in w.blocks && w.blocks[id].userId == user && w.blocks[id].deletedAt.None?
  }

  /** The ladder after one judged attempt under a complete schedule. */
  predicate Moved(s: Schedule, before: Ladder, after: Ladder, pass: bool, now: int) {
    if !pass then after == Ladder(Training, 0, now + s.failInterval)
    else if before.state == Automated then after == before.(due := now + s.automatedReviewInterval)
    else
      && after.streak == before.streak + 1
      && (after.state == Automated <==> after.streak >= s.promoteStreak)
      && (after.state == Training <==> after.streak < s.promoteStreak)
      && after.due == now + if after.streak >= s.promoteStreak then s.automatedInterval else s.trainingInterval
  }

  /**
   What a taken attempt leaves behind: one more ledger row with its verdict and the ladder from before it, a
   moved ladder on its block unless it went unjudged, nothing else, and an answer that says just that.
   */
  lemma AttemptLeaves(s: Schedule, w: World, user: string, id: string, verdict: Verdict, now: int)
    requires Present(w, user, id) && s.Valid()
    ensures var before := w.blocks[id].ladder;
            var (w1, r) := Attempt(s, w, user, id, verdict, now);
            && r.Ok? && |w1.records| == |w.records| + 1 && w1.records[..|w.records|] == w.records
            && id in w1.blocks
            && (forall other | other in w.blocks && other != id ::
                other in w1.blocks && w1.blocks[other] == w.blocks[other])
            && var rec, after := w1.records[|w.records|], w1.blocks[id].ladder;
            && rec == Record(r.value.recordId, user, id, verdict.Judged?, verdict == Judged(true), Some(before), None,
                             now)
            && (verdict.Unjudged? ==> w1.blocks == w.blocks)
            && (verdict.Judged? ==>
                  && Moved(s, before, after, verdict.pass, now)
                  && w1.blocks[id] == w.blocks[id].(ladder := after, updatedAt := now))
            && r.value.ladder == after && r.value.judged == verdict.Judged? && r.value.retryable == verdict.Unjudged?
            && r.value.pass == (verdict == Judged(true))
            && (r.value.promoted <==> before.state != Automated && after.state == Automated)
  {
    assert s.Normalize() == s;
  }

  /** The answer's record id is the learner's newest on the block. */
  lemma AttemptIsTheNewest(s: Schedule, w: World, user: string, id: string, verdict: Verdict, now: int)
    requires Present(w, user, id) && forall i | 0 <= i < |w.records| :: w.records[i].id <= w.nextId
    ensures var (w1, r) := Attempt(s, w, user, id, verdict, now);
            r.Ok? && r.value.recordId == LatestId(w1.records, user, id) > w.nextId
  {
    var (w1, r) := Attempt(s, w, user, id, verdict, now);
    assert w1.records[|w.records|].id == w.nextId + 1;
    assert forall i | 0 <= i < |w.records| :: w1.records[i] == w.records[i];
  }

  /** Nothing of the learner's on the block is newer than row k. */
  predicate Newest(records: seq<Record>, k: nat)
    requires k < |records|
  {
    forall i | 0 <= i < |records| && records[i].userId == records[k].userId
        && records[i].blockId == records[k].blockId ::
      records[i].id <= records[k].id
  }

  lemma NewestIsLatest(records: seq<Record>, k: nat)
    requires k < |records| && records[k].id > 0
    ensures Newest(records, k) <==> LatestId(records, records[k].userId, records[k].blockId) == records[k].id
  {
    var latest := LatestId(records, records[k].userId, records[k].blockId);
    assert records[k].id <= latest;
    if Newest(records, k) {
      assert latest == records[k].id;
    }
  }

  /** The grounds on which an appeal restores. */
  predicate Restorable(w: World, k: nat)
    requires k < |w.records|
  {
    var rec := w.records[k];
    rec.appealedAt.None? && rec.judged && !rec.pass && rec.prev.Some? && Newest(w.records, k)
  }

  /**
   An appeal of row k: it restores exactly an unappealed, failed attempt with a snapshot and nothing newer of
   the learner's on its block. Then the block has the snapshot's ladder; otherwise no block changes. Whatever
   comes of it, an accepted appeal leaves its row stamped and every other row alone.
   */
  lemma DisputeLeaves(w: World, user: string, k: nat, now: int)
    requires k < |w.records| && w.records[k].id > 0 && w.records[k].userId == user
    ensures var rec := w.records[k];
            var (w1, r) := Dispute(w, user, k, now);
            && (r.Ok? <==> (Restorable(w, k) ==> Present(w, user, rec.blockId)))
            && (r.Err? ==> w1 == w && r == Err(NotFound))
            && (r.Ok? ==>
                  && |w1.records| == |w.records| && w1.records[k].appealedAt.Some?
                  && (rec.appealedAt.Some? ==> w1 == w)
                  && (rec.appealedAt.None? ==> w1.records == w.records[k := rec.(appealedAt := Some(now))])
                  && (r.value.restored <==> Restorable(w, k))
                  && (r.value.already <==> rec.appealedAt.Some?)
                  && (!r.value.restored ==> w1.blocks == w.blocks)
                  && (r.value.restored ==>
                        w1.blocks == w.blocks[rec.blockId := w.blocks[rec.blockId].(ladder := rec.prev.value,
                          updatedAt := now)])
                  && r.value.recordId == rec.id && r.value.blockId == rec.blockId
                  && (Present(w, user, rec.blockId) ==>
                        rec.blockId in w1.blocks && r.value.ladder == Some(w1.blocks[rec.blockId].ladder)))
  {
    NewestIsLatest(w.records, k);
  }

  /** Why an appeal restored nothing. */
  lemma DisputeSaysWhy(w: World, user: string, k: nat, now: int)
    requires k < |w.records| && w.records[k].id > 0 && w.records[k].userId == user
    ensures var rec := w.records[k];
            var r := Dispute(w, user, k, now).1;
            r.Ok? ==>
              && (r.value.note == AlreadyAppealed <==> rec.appealedAt.Some?)
              && (r.value.note == NotJudged <==> rec.appealedAt.None? && !rec.judged)
              && (r.value.note == Passed <==> rec.appealedAt.None? && rec.judged && rec.pass)
              && (r.value.note == NoSnapshot <==> rec.appealedAt.None? && rec.judged && !rec.pass && rec.prev.None?)
              && (r.value.note == NoNote <==> Restorable(w, k))
  {
    NewestIsLatest(w.records, k);
  }

  /** When an appeal is refused, in the order of the checks; otherwise it disputes an owned row with the id. */
  lemma AppealRefusedIff(w: World, userId: string, recordId: int, now: int)
    ensures var user := TrimSpace(userId);
            var (w1, r) := AppealStep(w, userId, recordId, now);
            && (user == "" ==> r == Err(Unauthenticated) && w1 == w)
            && (user != "" && recordId <= 0 ==> r == Err(InvalidArgument) && w1 == w)
            && (user != "" && recordId > 0 ==>
                  if exists k | 0 <= k < |w.records| :: OwnRow(w.records[k], user, recordId)
                  then exists k | 0 <= k < |w.records| ::
                    OwnRow(w.records[k], user, recordId) && (w1, r) == Dispute(w, user, k, now)
                  else r == Err(NotFound) && w1 == w)
  {
    var user := TrimSpace(userId);
    if user != "" && recordId > 0 {
      var found := Lookup(w.records, user, recordId);
      if found.Some? { assert OwnRow(w.records[found.value], user, recordId); }
      assert forall i | 0 <= i < |w.records| && OwnRow(w.records[i], user, recordId) ::
          Owns(w.records[i], user, recordId);
    }
  }

  predicate OwnRow(rec: Record, user: string, recordId: int) { rec.id == recordId && rec.userId == user }

  /** Later states of the ledger: rows are added and stamped, never taken away, renamed or unstamped. */
  ghost predicate Extends(records: seq<Record>, later: seq<Record>) {
    && |records| <= |later|
    && (forall i | 0 <= i < |records| :: RowExtends(records[i], later[i]))
  }

  predicate RowExtends(rec: Record, later: Record) {
    later.id == rec.id && later.userId == rec.userId && (rec.appealedAt.Some? ==> later.appealedAt.Some?)
  }

  lemma {:induction false} LookupExtends(records: seq<Record>, later: seq<Record>, user: string, id: nat)
    requires Extends(records, later) && Lookup(records, user, id).Some?
    ensures Lookup(later, user, id) == Lookup(records, user, id)
  {
    var k, n := Lookup(records, user, id).value, |later| - 1;
    if |later| > |records| {
      assert later[..n][..|records|] == later[..|records|];
      LookupExtends(records, later[..n], user, id);
    } else {
      assert forall i | 0 <= i < n :: RowExtends(records[i], later[i]);
      if Lookup(records[..n], user, id).Some? {
        LookupExtends(records[..n], later[..n], user, id);
      } else {
        NotFoundBefore(records[..n], later[..n], user, id);
      }
    }
  }

  lemma NotFoundBefore(records: seq<Record>, later: seq<Record>, user: string, id: nat)
    requires Extends(records, later) && |records| == |later| && Lookup(records, user, id).None?
    ensures Lookup(later, user, id).None?
  {
    forall i | 0 <= i < |later| ensures !Owns(later[i], user, id) {
      assert RowExtends(records[i], later[i]) && !Owns(records[i], user, id);
    }
  }

  /**
   An appeal is made once: after it was accepted, repeating it at any later time, on any later state of the
   ledger and whatever has become of the blocks, changes nothing and says that it was made already.
   */
  lemma AppealIsMadeOnce(w: World, userId: string, recordId: int, at: int, w2: World, later: int)
    requires AppealStep(w, userId, recordId, at).1.Ok?
             && Extends(AppealStep(w, userId, recordId, at).0.records, w2.records)
    ensures var (w3, r) := AppealStep(w2, userId, recordId, later);
            w3 == w2 && r.Ok? && r.value.already && !r.value.restored
  {
    var user, w1 := TrimSpace(userId), AppealStep(w, userId, recordId, at).0;
    var k := Lookup(w.records, user, recordId).value;
    assert w1 == Dispute(w, user, k, at).0;
    assert w1.records[k].appealedAt.Some?;
    assert Extends(w.records, w1.records);
    LookupExtends(w.records, w1.records, user, recordId);
    LookupExtends(w1.records, w2.records, user, recordId);
    assert RowExtends(w1.records[k], w2.records[k]);
  }

  lemma StepExtends(s: Schedule, h: History, op: Op)
    ensures Extends(h.w.records, Step(s, h, op).w.records)
  {
    match op
    case Judge(user, block, asr, verdict, at) =>
    case Appeal(user, recordId, at) => AppealExtends(h.w, user, recordId, at);
    case Write(_, _, _) =>
    case SetDeleted(_, _) =>
  }

  lemma AppealExtends(w: World, user: string, recordId: int, at: int)
    ensures Extends(w.records, AppealStep(w, user, recordId, at).0.records)
  {
  }

  lemma {:induction false} ExecExtends(s: Schedule, h: History, ops: seq<Op>)
    ensures Extends(h.w.records, Exec(s, h, ops).w.records)
  {
    if ops != [] {
      var h1 := Exec(s, h, ops[..|ops| - 1]);
      ExecExtends(s, h, ops[..|ops| - 1]);
      StepExtends(s, h1, ops[|ops| - 1]);
      forall i | 0 <= i < |h.w.records| ensures RowExtends(h.w.records[i], Step(s, h1, ops[|ops| - 1]).w.records[i]) {
        assert RowExtends(h.w.records[i], h1.w.records[i]);
        assert RowExtends(h1.w.records[i], Step(s, h1, ops[|ops| - 1]).w.records[i]);
      }
    }
  }

  /**
   Over runs: once an appeal was accepted, the same appeal changes no block and no row, whatever attempts,
   appeals and other writes have come in between.
   */
  lemma AppealIsMadeOnceInRuns(s: Schedule, h: History, user: string, recordId: int, at: int, ops: seq<Op>, later: int)
    requires AppealStep(h.w, user, recordId, at).1.Ok?
    ensures var h2 := Exec(s, Step(s, h, Appeal(user, recordId, at)), ops);
            Step(s, h2, Appeal(user, recordId, later)) == h2
  {
    var h1 := Step(s, h, Appeal(user, recordId, at));
    ExecExtends(s, h1, ops);
    AppealIsMadeOnce(h.w, user, recordId, at, Exec(s, h1, ops).w, later);
  }
}
