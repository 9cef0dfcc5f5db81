/**
 What one refine call, sweep or settlement does, in the terms of its caller (internal/materials/refiner.go,
 memory_store.go).
 */
module MaterialEffects {
  import opened Wrappers
  import opened Text
  import opened Ordering
  import opened MaterialModel
  import opened MaterialRuns

  /** How many of the expressions are not just white space. */
  function Worth(expressions: seq<string>): nat {
    if expressions == [] then 0 else (if TrimSpace(expressions[0]) != "" then 1 else 0) + Worth(expressions[1..])
  }

  lemma {:induction false} UsableAreWorth(expressions: seq<string>)
    ensures |Usable(expressions)| == Worth(expressions)
  {
    if expressions != [] { UsableAreWorth(expressions[1..]); }
  }

  /** A claimed material after its refine: ready with its blocks, or failed for the reason. */
  predicate Outcome(m: Material, reply: Reply, writer: Writer) {
    match reply
    case NoClient => m.status == Failed && m.errorCode == LlmTimeout
    case CallFailed => m.status == Failed && m.errorCode == LlmTimeout
    case Unparsed => m.status == Failed && m.errorCode == ParseError
    case Blocks(expressions) =>
      if expressions == [] then m.status == Ready && m.blockCount == 0 && m.errorCode == NoChunks
      else if writer == Working then m.status == Ready && m.blockCount == Worth(expressions) && m.errorCode == NoError
      else m.status == Failed && m.errorCode == DbError
  }

  /**
   Refining a live queued material uses one attempt, frees its lock and leaves it ready or failed by what the
   model and the writer did; everything else, and every other material, is left alone.
   */
  lemma RefineMeans(t: Table, materialId: string, reply: Reply, writer: Writer, at: int, doneAt: int)
    ensures var id := TrimSpace(materialId);
            var (t1, r) := RefineStep(t, materialId, reply, writer, at, doneAt);
            && (r.Err? <==> id != "" && id !in t) && (r.Err? ==> r.error == NotFound)
            && (if id != "" && id in t && t[id].deletedAt.None? && t[id].status == Queued
                then
                  && id in t1 && t1 == t[id := t1[id]] && Outcome(t1[id], reply, writer)
                  && t1[id].attempts == t[id].attempts + 1 && t1[id].lockedAt.None? && t1[id].updatedAt == doneAt
                  && t1[id].userId == t[id].userId && t1[id].deletedAt.None?
                else t1 == t)
  {
    match reply
    case Blocks(expressions) => UsableAreWorth(expressions);
    case _ =>
  }

  /** A claim is for queued materials only: one attempt more, locked from its stamp. */
  lemma ClaimMeans(t: Table, id: string, stamp: int)
    ensures var (t1, r) := MarkProcessing(t, id, stamp);
            && (r.Ok? <==> id in t && t[id].status == Queued) && (id !in t ==> r == Err(NotFound))
            && (r.Err? ==> t1 == t)
            && (r.Ok? ==> t1 == t[id := t[id].(status := Processing, attempts := t[id].attempts + 1,
                                               lockedAt := Some(stamp), updatedAt := stamp)])
  {
  }

  /** A settlement is for processing materials only. */
  lemma SettlementMeans(t: Table, id: string, s: Settlement, at: int)
    ensures var (t1, r) := Settle(t, id, s, at);
            && (r.Ok? <==> id in t && t[id].status == Processing) && (id !in t ==> r == Err(NotFound))
            && (r.Err? ==> t1 == t)
            && (r.Ok? ==>
                  && t1 == t[id := t1[id]] && t1[id].lockedAt.None? && t1[id].attempts == t[id].attempts
                  && (s.Refined? ==>
                        && t1[id].status == Ready && t1[id].blockCount == s.blocks && t1[id].errorCode == s.note)
                  && (s.Gave? ==> t1[id].status == Failed && t1[id].errorCode == s.code))
  {
    if id in t && t[id].status == Processing { assert t[id := Settled(t[id], s, at)][id] == Settled(t[id], s, at); }
  }

  /** A live material has been locked for two minutes and more. */
  predicate Stale(m: Material, at: int) {
    m.status == Processing && m.deletedAt.None? && m.lockedAt.Some? && m.lockedAt.value + 120_000_000_000 <= at
  }

  /**
   A sweep frees exactly the live materials whose lease is over: back to the queue after a first attempt, and
   failed with the lease's error after the second.
   */
  lemma SweepMeans(t: Table, at: int, id: string)
    requires id in t
    ensures ReclaimAll(t, at).Keys == t.Keys
    ensures var m, m1 := t[id], ReclaimAll(t, at)[id];
            && (!Stale(m, at) ==> m1 == m)
            && (Stale(m, at) && m.attempts < 2 ==> m1 == m.(status := Queued, lockedAt := None, updatedAt := at))
            && (Stale(m, at) && m.attempts >= 2 ==>
                  m1 == m.(status := Failed, errorCode := LeaseExpired, lockedAt := None, updatedAt := at))
            && (Requeues(m, at) <==> Stale(m, at) && m.attempts < 2)
                && (Expires(m, at) <==> Stale(m, at) && m.attempts >= 2)
  {
  }

  /** Deleting hides a user's live materials, restoring brings back the deleted ones; no one else's change. */
  lemma HidingMeans(t: Table, user: string, at: int, id: string)
    requires id in t
    ensures DeleteAll(t, user, at).Keys == RestoreAll(t, user).Keys == t.Keys
    ensures DeleteAll(t, user, at)[id] ==
              if t[id].userId == user && t[id].deletedAt.None? then t[id].(deletedAt := Some(at), updatedAt := at)
                else t[id]
    ensures RestoreAll(t, user)[id] == if t[id].userId == user then t[id].(deletedAt := None) else t[id]
  {
  }

  /** A sweep is due at first, and then every half minute. */
  lemma SweepIsDueIff(last: Option<int>, now: int)
    ensures SweepDue(last, now) <==> (last.Some? ==> now >= last.value + 30_000_000_000)
  {
  }

  /** A created material is its user's, queued and untried; taken ids are refused. */
  lemma CreationMeans(t: Table, id: string, user: string, at: int)
    ensures var (t1, r) := InsertMaterial(t, NewMaterial(id, user, at));
            && (r.Ok? <==> id !in t) && (r.Err? ==> t1 == t)
            && (r.Ok? ==>
                  && id in t1 && t1 == t[id := t1[id]]
                  && t1[id].userId == user && t1[id].status == Queued && t1[id].attempts == 0
                  && t1[id].lockedAt.None? && t1[id].deletedAt.None?)
  {
  }
}
