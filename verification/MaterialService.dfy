/** The materials store and refiner as objects (internal/materials/memory_store.go, refiner.go). */
module MaterialService {
  import opened Wrappers
  import opened Text
  import opened Ordering
  import opened MaterialModel
  import opened MaterialRuns

  class MemoryStore {
    var materials: Table

    constructor ()
      ensures materials == map[]
    {
      materials := map[];
    }

    method InsertMaterial(m: Material) returns (r: Result<()>)
      modifies this
      ensures (materials, r) == MaterialModel.InsertMaterial(old(materials), m)
    {
      if m.id in materials { return Err(Duplicate); }
      materials := materials[m.id := m];
      return Ok(());
    }

    method MarkProcessing(id: string, at: int) returns (r: Result<()>)
      modifies this
      ensures (materials, r) == MaterialModel.MarkProcessing(old(materials), id, at)
    {
      if id !in materials { return Err(NotFound); }
      var m := materials[id];
      if m.status != Queued { return Err(Conflict); }
      m := m.(status := Processing, attempts := m.attempts + 1, lockedAt := Some(at), updatedAt := at);
      materials := materials[id := m];
      return Ok(());
    }

    method MarkRefined(id: string, blockCount: nat, errorCode: RefineError, at: int) returns (r: Result<()>)
      modifies this
      ensures (materials, r) == Settle(old(materials), id, Refined(blockCount, errorCode), at)
    {
      if id !in materials { return Err(NotFound); }
      var m := materials[id];
      if m.status != Processing { return Err(Conflict); }
      m := m.(status := Ready, blockCount := blockCount, errorCode := errorCode, lockedAt := None, updatedAt := at);
      materials := materials[id := m];
      return Ok(());
    }

    method MarkRefineFailed(id: string, errorCode: RefineError, at: int) returns (r: Result<()>)
      modifies this
      ensures (materials, r) == Settle(old(materials), id, Gave(errorCode), at)
    {
      if id !in materials { return Err(NotFound); }
      var m := materials[id];
      if m.status != Processing { return Err(Conflict); }
      m := m.(status := Failed, errorCode := errorCode, lockedAt := None, updatedAt := at);
      materials := materials[id := m];
      return Ok(());
    }

    /**
     One sweep over the map, in whatever order it is read: every row comes out as the row-by-row sweep has
     it, the requeued ids are exactly those with an attempt left, in order, and the rest are counted.
     */
    method ReclaimExpired(at: int) returns (requeued: seq<string>, expired: nat)
      modifies this
      ensures materials == ReclaimAll(old(materials), at)
      ensures StrictlySorted(StrLess, requeued)
      ensures forall id :: id in requeued <==> id in old(materials) && Requeues(old(materials)[id], at)
      ensures expired == |set id | id in old(materials) && Expires(old(materials)[id], at)|
    {
      var cutoff := at - DEFAULT_REFINE_LEASE;
      requeued, expired := [], 0;
      ghost var before := materials;
      var todo := materials.Keys;
      while todo != {}
        invariant Sweeping(before, materials, at, todo, requeued, expired)
        decreases |todo|
      {
        var id :| id in todo;
        VisitOne(before, materials, at, todo, id, requeued, expired);
        todo := todo - {id};
        var m := materials[id];
        if m.status != Processing || m.lockedAt.None? || m.deletedAt.Some? { continue; }
        if m.lockedAt.value > cutoff { continue; }
        if m.attempts >= MAX_REFINE_ATTEMPTS {
          m := m.(status := Failed, errorCode := LeaseExpired);
          expired := expired + 1;
        } else {
          m := m.(status := Queued);
          requeued := requeued + [id];
        }
        m := m.(lockedAt := None, updatedAt := at);
        materials := materials[id := m];
      }
      SweptAll(before, materials, at, requeued, expired);
      requeued := Sort(StrLess, requeued);
    }

    method SoftDeleteAllForUser(user: string, at: int) returns (n: nat)
      modifies this
      ensures materials == DeleteAll(old(materials), user, at)
      ensures n == |Those(old(materials), old(materials).Keys, LiveRowOf(user))|
    {
      n := 0;
      ghost var before := materials;
      var todo := materials.Keys;
      while todo != {}
        invariant Stamping(before, materials, todo, DeletedBy(user, at), LiveRowOf(user), n)
        decreases |todo|
      {
        var id :| id in todo;
        VisitDeleted(before, materials, todo, id, user, at, n);
        todo := todo - {id};
        var m := materials[id];
        if m.userId != user || m.deletedAt.Some? { continue; }
        materials := materials[id := m.(deletedAt := Some(at), updatedAt := at)];
        n := n + 1;
      }
      StampedAll(before, materials, DeletedBy(user, at), LiveRowOf(user), n);
    }

    method RestoreDeletedForUser(user: string) returns (n: nat)
      modifies this
      ensures materials == RestoreAll(old(materials), user)
      ensures n == |Those(old(materials), old(materials).Keys, DeletedRowOf(user))|
    {
      n := 0;
      ghost var before := materials;
      var todo := materials.Keys;
      while todo != {}
        invariant Stamping(before, materials, todo, RestoredTo(user), DeletedRowOf(user), n)
        decreases |todo|
      {
        var id :| id in todo;
        VisitRestored(before, materials, todo, id, user, n);
        todo := todo - {id};
        var m := materials[id];
        if m.userId != user || m.deletedAt.None? { continue; }
        materials := materials[id := m.(deletedAt := None)];
        n := n + 1;
      }
      StampedAll(before, materials, RestoredTo(user), DeletedRowOf(user), n);
    }
  }

  function DeletedBy(user: string, at: int): Material -> Material { (m: Material) => Deleted(m, user, at) }

  function RestoredTo(user: string): Material -> Material { (m: Material) => Restored(m, user) }

  /** A pass under way: the rows still to do are untouched, the others stamped, and those that changed counted. */
  ghost predicate Stamping(before: Table, now: Table, todo: set<string>, f: Material -> Material, p: Material -> bool,
                           n: nat) {
    && todo <= before.Keys && now.Keys == before.Keys
    && (forall id | id in before :: now[id] == if id in todo then before[id] else f(before[id]))
    && n == |Those(before, before.Keys - todo, p)|
  }

  lemma VisitRow(before: Table, now: Table, todo: set<string>, id: string, f: Material -> Material,
                 p: Material -> bool, n: nat)
    requires Stamping(before, now, todo, f, p, n) && id in todo && (!p(before[id]) ==> f(before[id]) == before[id])
    ensures now[id] == before[id]
    ensures p(now[id]) ==> Stamping(before, now[id := f(now[id])], todo - {id}, f, p, n + 1)
    ensures !p(now[id]) ==> Stamping(before, now, todo - {id}, f, p, n)
  {
    OneMoreOfThose(before, todo, id, p);
  }

  lemma VisitDeleted(before: Table, now: Table, todo: set<string>, id: string, user: string, at: int, n: nat)
    requires Stamping(before, now, todo, DeletedBy(user, at), LiveRowOf(user), n) && id in todo
    ensures id in now
    ensures if now[id].userId == user && now[id].deletedAt.None?
            then Stamping(before, now[id := now[id].(deletedAt := Some(at), updatedAt := at)], todo - {id},
                          DeletedBy(user, at), LiveRowOf(user), n + 1)
            else Stamping(before, now, todo - {id}, DeletedBy(user, at), LiveRowOf(user), n)
  {
    VisitRow(before, now, todo, id, DeletedBy(user, at), LiveRowOf(user), n);
  }

  lemma VisitRestored(before: Table, now: Table, todo: set<string>, id: string, user: string, n: nat)
    requires Stamping(before, now, todo, RestoredTo(user), DeletedRowOf(user), n) && id in todo
    ensures id in now
    ensures if now[id].userId == user && now[id].deletedAt.Some?
            then Stamping(before, now[id := now[id].(deletedAt := None)], todo - {id},
                          RestoredTo(user), DeletedRowOf(user), n + 1)
            else Stamping(before, now, todo - {id}, RestoredTo(user), DeletedRowOf(user), n)
  {
    VisitRow(before, now, todo, id, RestoredTo(user), DeletedRowOf(user), n);
  }

  function LiveRowOf(user: string): Material -> bool { (m: Material) => m.userId == user && m.deletedAt.None? }

  function DeletedRowOf(user: string): Material -> bool { (m: Material) => m.userId == user && m.deletedAt.Some? }

  /** The ids among those visited whose rows satisfy p. */
  ghost function Those(t: Table, visited: set<string>, p: Material -> bool): set<string> {
    set id | id in visited && id in t && p(t[id])
  }

  lemma OneMoreOfThose(t: Table, todo: set<string>, id: string, p: Material -> bool)
    requires id in todo && id in t
    ensures |Those(t, t.Keys - (todo - {id}), p)| == |Those(t, t.Keys - todo, p)| + if p(t[id]) then 1 else 0
  {
    var some, more := Those(t, t.Keys - todo, p), Those(t, t.Keys - (todo - {id}), p);
    if p(t[id]) { assert more == some + {id}; } else { assert more == some; }
  }

  lemma StampedAll(before: Table, now: Table, f: Material -> Material, p: Material -> bool, n: nat)
    requires Stamping(before, now, {}, f, p, n)
    ensures now.Keys == before.Keys && forall id | id in before :: now[id] == f(before[id])
    ensures n == |Those(before, before.Keys, p)|
  {
    assert before.Keys - {} == before.Keys;
  }

  /** The ids among those visited that a sweep fails. */
  ghost function ExpiredOf(t: Table, at: int, visited: set<string>): set<string> {
    set id | id in visited && id in t && Expires(t[id], at)
  }

  /** The requeued ids so far: each visited row with an attempt left, once. */
  ghost predicate Collected(t: Table, at: int, visited: set<string>, requeued: seq<string>) {
    && Distinct(requeued)
    && (forall id :: id in requeued <==> id in visited && id in t && Requeues(t[id], at))
  }

  /** A sweep under way: the rows still to do are untouched, the others are reclaimed and accounted for. */
  ghost predicate Sweeping(before: Table, now: Table, at: int, todo: set<string>, requeued: seq<string>, expired: nat) {
    && todo <= before.Keys && now.Keys == before.Keys
    && (forall id | id in before :: now[id] == if id in todo then before[id] else Reclaimed(before[id], at))
    && Collected(before, at, before.Keys - todo, requeued)
    && expired == |ExpiredOf(before, at, before.Keys - todo)|
  }

  lemma VisitOne(before: Table, now: Table, at: int, todo: set<string>, id: string, requeued: seq<string>, expired: nat)
    requires Sweeping(before, now, at, todo, requeued, expired) && id in todo
    ensures now[id] == before[id]
    ensures Requeues(now[id], at) ==>
              Sweeping(before, now[id := Reclaimed(now[id], at)], at, todo - {id}, requeued + [id], expired)
    ensures Expires(now[id], at) ==>
              Sweeping(before, now[id := Reclaimed(now[id], at)], at, todo - {id}, requeued, expired + 1)
    ensures !Abandoned(now[id], at) ==> Sweeping(before, now, at, todo - {id}, requeued, expired)
  {
    var visited := before.Keys - todo;
    assert before.Keys - (todo - {id}) == visited + {id};
    CollectOne(before, at, visited, id, requeued);
    CountOne(before, at, visited, id);
  }

  lemma CollectOne(t: Table, at: int, visited: set<string>, id: string, requeued: seq<string>)
    requires id in t && id !in visited && Collected(t, at, visited, requeued)
    ensures Requeues(t[id], at) ==> Collected(t, at, visited + {id}, requeued + [id])
    ensures !Requeues(t[id], at) ==> Collected(t, at, visited + {id}, requeued)
  {
    assert id !in requeued;
  }

  lemma CountOne(t: Table, at: int, visited: set<string>, id: string)
    requires id in t && id !in visited
    ensures |ExpiredOf(t, at, visited + {id})| == |ExpiredOf(t, at, visited)| + if Expires(t[id], at) then 1 else 0
  {
    if Expires(t[id], at) {
      assert ExpiredOf(t, at, visited + {id}) == ExpiredOf(t, at, visited) + {id};
    } else {
      assert ExpiredOf(t, at, visited + {id}) == ExpiredOf(t, at, visited);
    }
  }

  lemma SweptAll(before: Table, now: Table, at: int, requeued: seq<string>, expired: nat)
    requires Sweeping(before, now, at, {}, requeued, expired)
    ensures now == ReclaimAll(before, at)
    ensures StrictlySorted(StrLess, Sort(StrLess, requeued))
    ensures forall id :: id in Sort(StrLess, requeued) <==> id in before && Requeues(before[id], at)
    ensures expired == |set id | id in before && Expires(before[id], at)|
  {
    assert before.Keys - {} == before.Keys;
    assert ExpiredOf(before, at, before.Keys) == set id | id in before && Expires(before[id], at);
    SortedIds(requeued);
  }

  lemma SortedIds(ids: seq<string>)
    requires Distinct(ids)
    ensures StrictlySorted(StrLess, Sort(StrLess, ids))
    ensures forall id :: id in Sort(StrLess, ids) <==> id in ids
  {
    StrLessOrder();
    forall x: string, y: string, z: string | StrLess(x, z) ensures StrLess(x, y) || StrLess(y, z) {}
    SortSorts(StrLess, ids);
    SortIsStrict(StrLess, ids);
  }

  class Service {
    const store: MemoryStore
    var lastSweep: Option<int>

    constructor (store: MemoryStore)
      ensures this.store == store && lastSweep == None
    {
      this.store := store;
      lastSweep := None;
    }

    /** The model call and the block writer are inputs; so are the two clock readings. */
    method Refine(materialId: string, reply: Reply, writer: Writer, at: int, doneAt: int) returns (r: Result<()>)
      modifies store
      ensures (store.materials, r) == RefineStep(old(store.materials), materialId, reply, writer, at, doneAt)
    {
      var id := TrimSpace(materialId);
      if id == "" { return Ok(()); }
      if id !in store.materials { return Err(NotFound); }
      var m := store.materials[id];
      if m.deletedAt.Some? { return Ok(()); }
      if m.status != Queued { return Ok(()); }
      var marked := store.MarkProcessing(id, at);
      match reply {
        case NoClient => r := store.MarkRefineFailed(id, LlmTimeout, doneAt);
        case CallFailed => r := store.MarkRefineFailed(id, LlmTimeout, doneAt);
        case Unparsed => r := store.MarkRefineFailed(id, ParseError, doneAt);
        case Blocks(expressions) =>
          if |expressions| == 0 {
            r := store.MarkRefined(id, 0, NoChunks, doneAt);
          } else if writer.NoWriter? {
            r := store.MarkRefineFailed(id, DbError, doneAt);
          } else {
            var rows := ToPhraseBlocks(expressions);
            if writer.Broken? {
              r := store.MarkRefineFailed(id, DbError, doneAt);
            } else {
              r := store.MarkRefined(id, |rows|, NoError, doneAt);
            }
          }
      }
    }

    /** SweepIfDue reclaims when its interval has passed, and then remembers the call's time. */
    method SweepIfDue(now: int, at: int) returns (requeued: seq<string>)
      modifies this`lastSweep, store
      ensures SweepDue(old(lastSweep), now) ==>
                lastSweep == Some(now) && store.materials == ReclaimAll(old(store.materials), at)
      ensures !SweepDue(old(lastSweep), now) ==>
                lastSweep == old(lastSweep) && store.materials == old(store.materials) && requeued == []
    {
      if lastSweep.Some? && now - lastSweep.value < RECLAIM_INTERVAL { return []; }
      lastSweep := Some(now);
      var ids, expired := store.ReclaimExpired(at);
      return ids;
    }
  }

  /** The expressions that become phrase blocks: those that are not blank, trimmed. */
  method ToPhraseBlocks(expressions: seq<string>) returns (rows: seq<string>)
    ensures |rows| == |Usable(expressions)|
    ensures forall i | 0 <= i < |rows| :: rows[i] == TrimSpace(Usable(expressions)[i]) != ""
  {
    rows := [];
    for i := 0 to |expressions|
      invariant Usable(expressions[..i]) + Usable(expressions[i..]) == Usable(expressions)
      invariant |rows| == |Usable(expressions[..i])|
      invariant forall k | 0 <= k < |rows| :: rows[k] == TrimSpace(Usable(expressions[..i])[k]) != ""
    {
      var expr := TrimSpace(expressions[i]);
      UsableGrows(expressions, i);
      if expr == "" { continue; }
      rows := rows + [expr];
    }
    assert expressions[..|expressions|] == expressions;
  }

  lemma {:induction false} UsableAppends(left: seq<string>, right: seq<string>)
    ensures Usable(left + right) == Usable(left) + Usable(right)
  {
    if left == [] {
      assert left + right == right;
    } else {
      var all := left + right;
      assert all[0] == left[0] && all[1..] == left[1..] + right;
      assert Usable(all) == (if Worded(left[0]) then [left[0]] else []) + Usable(all[1..]);
      UsableAppends(left[1..], right);
    }
  }

  lemma UsableGrows(expressions: seq<string>, i: nat)
    requires i < |expressions|
    ensures Usable(expressions[..i + 1]) == Usable(expressions[..i]) + if Blank(expressions[i]) then []
              else [expressions[i]]
    ensures Usable(expressions[..i + 1]) + Usable(expressions[i + 1..]) == Usable(expressions)
  {
    assert expressions[..i + 1] == expressions[..i] + [expressions[i]];
    UsableAppends(expressions[..i], [expressions[i]]);
    assert [expressions[i]][1..] == [] && Usable([]) == [];
    assert Usable([expressions[i]]) == if Worded(expressions[i]) then [expressions[i]] else [];
    assert expressions == expressions[..i + 1] + expressions[i + 1..];
    UsableAppends(expressions[..i + 1], expressions[i + 1..]);
  }
}
