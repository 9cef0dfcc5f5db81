/**
 Runs of the refine protocol. Nothing here depends on the clock: a claim and a sweep may carry any reading
 of it, and a worker may settle however late, when its row has long been reclaimed; a crashed worker takes
 no more steps. What punctual workers may rely on is the subject of MaterialClocks.
 */
module MaterialRuns {
  import opened Wrappers
  import opened Text
  import opened MaterialModel

  /** One claim: its stamp, when the store made it, and when its worker settled it. Each claim makes one model call. */
  datatype Claim = Claim(id: string, stamp: int, madeAt: int, settledAt: Option<int>)

  datatype System = System(t: Table, now: int, claims: seq<Claim>)

  datatype Op =
    | Tick(to: int)
    | Create(id: string, user: string)
    | Take(id: string, stamp: int)
    | Finish(k: nat, reply: Reply, writer: Writer)
    | Sweep(at: int)
    | Delete(user: string)
    | Restore(user: string)

  const START := System(map[], 0, [])

  predicate CanTake(y: System, id: string, stamp: int) { MarkProcessing(y.t, id, stamp).1.Ok? }

  predicate CanFinish(y: System, k: nat) { k < |y.claims| && y.claims[k].settledAt.None? }

  function TakeStep(y: System, id: string, stamp: int): System {
    y.(t := MarkProcessing(y.t, id, stamp).0, claims := y.claims + [Claim(id, stamp, y.now, None)])
  }

  /** A settlement that the store refuses changes nothing. */
  function FinishStep(y: System, k: nat, s: Settlement): System
    requires k < |y.claims|
  {
    var c := y.claims[k];
    var (t, r) := Settle(y.t, c.id, s, y.now);
    if r.Err? then y else y.(t := t, claims := y.claims[k := c.(settledAt := Some(y.now))])
  }

  function Step(y: System, op: Op): System {
    match op
    case Tick(to) => if to >= y.now then y.(now := to) else y
    case Create(id, user) => y.(t := InsertMaterial(y.t, NewMaterial(id, user, y.now)).0)
    case Take(id, stamp) => if CanTake(y, id, stamp) then TakeStep(y, id, stamp) else y
    case Finish(k, reply, writer) => if CanFinish(y, k) then FinishStep(y, k, Verdict(reply, writer)) else y
    case Sweep(at) => y.(t := ReclaimAll(y.t, at))
    case Delete(user) => y.(t := DeleteAll(y.t, user, y.now))
    case Restore(user) => y.(t := RestoreAll(y.t, user))
  }

  function Exec(y: System, ops: seq<Op>): System {
    if ops == [] then y else Step(Exec(y, ops[..|ops| - 1]), ops[|ops| - 1])
  }

  function Claims(claims: seq<Claim>, id: string): nat {
    if claims == [] then 0 else Claims(claims[..|claims| - 1], id) + if claims[|claims| - 1].id == id then 1 else 0
  }

  predicate MaterialOk(m: Material) {
    && (m.lockedAt.Some? <==> m.status == Processing)
    && (m.status == Queued ==> m.attempts < MAX_REFINE_ATTEMPTS)
    && (m.status != Queued ==> 0 < m.attempts <= MAX_REFINE_ATTEMPTS)
    && (m.status == Failed ==> m.errorCode != NoError)
  }

  predicate RowOk(y: System, id: string)
    requires id in y.t
  {
    y.t[id].id == id && MaterialOk(y.t[id]) && y.t[id].attempts == Claims(y.claims, id)
  }

  predicate Final(m: Material) { m.status == Ready || m.status == Failed }

  /** A claim is on a known row, and a settled one has finished it. */
  predicate ClaimOk(y: System, c: Claim) { c.id in y.t && (c.settledAt.Some? ==> Final(y.t[c.id])) }

  ghost predicate Inv(y: System) {
    && (forall id | id in y.t :: RowOk(y, id))
    && (forall k | 0 <= k < |y.claims| :: ClaimOk(y, y.claims[k]))
  }

  lemma {:induction false} Unclaimed(claims: seq<Claim>, id: string)
    ensures Claims(claims, id) == 0 <==> forall k | 0 <= k < |claims| :: claims[k].id != id
  {
    if claims != [] { Unclaimed(claims[..|claims| - 1], id); }
  }

  lemma {:induction false} ClaimsUpdated(claims: seq<Claim>, k: nat, c: Claim, id: string)
    requires k < |claims| && c.id == claims[k].id
    ensures Claims(claims[k := c], id) == Claims(claims, id)
  {
    var n := |claims| - 1;
    if k < n {
      ClaimsUpdated(claims[..n], k, c, id);
      assert claims[k := c][..n] == claims[..n][k := c];
    } else {
      assert claims[k := c][..n] == claims[..n];
    }
  }

  /** What one row may do in one step while the claims on it stay as they are. */
  predicate RowKept(m: Material, m': Material) {
    m'.id == m.id && m'.attempts == m.attempts && MaterialOk(m') && (Final(m) ==> m'.status == m.status)
  }

  lemma RowwiseKeeps(y: System, t: Table)
    requires Inv(y) && t.Keys == y.t.Keys && forall id | id in t :: RowKept(y.t[id], t[id])
    ensures Inv(y.(t := t))
  {
    var y1 := y.(t := t);
    forall id | id in t ensures RowOk(y1, id) { assert RowOk(y, id) && RowKept(y.t[id], t[id]); }
    forall k | 0 <= k < |y.claims| ensures ClaimOk(y1, y.claims[k]) {
      assert ClaimOk(y, y.claims[k]) && RowKept(y.t[y.claims[k].id], t[y.claims[k].id]);
    }
  }

  lemma SweepKeeps(y: System, at: int)
    requires Inv(y)
    ensures Inv(y.(t := ReclaimAll(y.t, at)))
  {
    forall id | id in y.t ensures RowKept(y.t[id], Reclaimed(y.t[id], at)) { assert RowOk(y, id); }
    RowwiseKeeps(y, ReclaimAll(y.t, at));
  }

  lemma DeleteKeeps(y: System, user: string)
    requires Inv(y)
    ensures Inv(y.(t := DeleteAll(y.t, user, y.now))) && Inv(y.(t := RestoreAll(y.t, user)))
  {
    forall id | id in y.t
      ensures RowKept(y.t[id], Deleted(y.t[id], user, y.now)) && RowKept(y.t[id], Restored(y.t[id], user))
    {
      assert RowOk(y, id);
    }
    RowwiseKeeps(y, DeleteAll(y.t, user, y.now));
    RowwiseKeeps(y, RestoreAll(y.t, user));
  }

  lemma CreateKeeps(y: System, m: Material)
    requires Inv(y) && m.id !in y.t && m == NewMaterial(m.id, m.userId, y.now)
    ensures Inv(y.(t := y.t[m.id := m]))
  {
    var y1 := y.(t := y.t[m.id := m]);
    forall k | 0 <= k < |y.claims|
      ensures ClaimOk(y1, y.claims[k]) && y.claims[k].id != m.id
    {
      assert ClaimOk(y, y.claims[k]);
    }
    Unclaimed(y.claims, m.id);
    forall id | id in y1.t ensures RowOk(y1, id) { assert id != m.id ==> RowOk(y, id); }
  }

  lemma TakeKeeps(y: System, id: string, stamp: int)
    requires Inv(y) && CanTake(y, id, stamp)
    ensures Inv(TakeStep(y, id, stamp))
  {
    var y1 := TakeStep(y, id, stamp);
    assert RowOk(y, id);
    assert y1.claims[..|y1.claims| - 1] == y.claims;
    forall other | other in y1.t ensures RowOk(y1, other) { assert RowOk(y, other); }
    forall k | 0 <= k < |y1.claims| ensures ClaimOk(y1, y1.claims[k]) {
      assert k < |y.claims| ==> ClaimOk(y, y.claims[k]);
    }
  }

  predicate Coded(s: Settlement) { s.Gave? ==> s.code != NoError }

  /**
   However late it comes, a settlement that the store takes finishes its row, and one that it refuses
   does nothing.
   */
  lemma FinishKeeps(y: System, k: nat, s: Settlement)
    requires Inv(y) && CanFinish(y, k) && Coded(s)
    ensures Inv(FinishStep(y, k, s))
  {
    var c, y1 := y.claims[k], FinishStep(y, k, s);
    assert ClaimOk(y, c);
    assert RowOk(y, c.id);
    if y.t[c.id].status == Processing {
      forall other | other in y1.t ensures RowOk(y1, other) {
        assert RowOk(y, other);
        ClaimsUpdated(y.claims, k, y1.claims[k], other);
      }
      forall j | 0 <= j < |y1.claims| ensures ClaimOk(y1, y1.claims[j]) { assert ClaimOk(y, y.claims[j]); }
    }
  }

  lemma StepKeeps(y: System, op: Op)
    requires Inv(y)
    ensures Inv(Step(y, op))
  {
    match op
    case Tick(to) => TickKeeps(y, to);
    case Create(id, user) => if id !in y.t { CreateKeeps(y, NewMaterial(id, user, y.now)); }
    case Take(id, stamp) => if CanTake(y, id, stamp) { TakeKeeps(y, id, stamp); }
    case Finish(k, reply, writer) => if CanFinish(y, k) { FinishKeeps(y, k, Verdict(reply, writer)); }
    case Sweep(at) => SweepKeeps(y, at);
    case Delete(user) => DeleteKeeps(y, user);
    case Restore(user) => DeleteKeeps(y, user);
  }

  lemma TickKeeps(y: System, to: int)
    requires Inv(y)
    ensures Inv(y.(now := to))
  {
    var y1 := y.(now := to);
    forall id | id in y.t ensures RowOk(y1, id) { assert RowOk(y, id); }
    forall k | 0 <= k < |y.claims| ensures ClaimOk(y1, y.claims[k]) { assert ClaimOk(y, y.claims[k]); }
  }

  lemma {:induction false} ExecKeeps(ops: seq<Op>)
    ensures Inv(Exec(START, ops))
  {
    if ops != [] {
      ExecKeeps(ops[..|ops| - 1]);
      StepKeeps(Exec(START, ops[..|ops| - 1]), ops[|ops| - 1]);
    }
  }

  /** Every material is claimed, and the model called for it, at most twice; its attempts count its claims. */
  lemma ClaimsAreBounded(ops: seq<Op>, id: string)
    ensures var y := Exec(START, ops);
            && Claims(y.claims, id) <= MAX_REFINE_ATTEMPTS
            && (id in y.t ==> MaterialOk(y.t[id]) && y.t[id].attempts == Claims(y.claims, id))
            && (id !in y.t ==> Claims(y.claims, id) == 0)
  {
    ExecKeeps(ops);
    var y := Exec(START, ops);
    Unclaimed(y.claims, id);
    if id in y.t {
      assert RowOk(y, id);
    } else {
      assert forall k | 0 <= k < |y.claims| :: ClaimOk(y, y.claims[k]);
    }
  }

  /** What is left of a row's life: two moves for every attempt left, and one while an attempt is under way. */
  function Measure(m: Material): int {
    2 * (MAX_REFINE_ATTEMPTS - m.attempts) + if m.status == Processing then 1 else 0
  }

  predicate Moved(y: System, y1: System, id: string) { id in y.t && id in y1.t && y.t[id].status != y1.t[id].status }

  /** How often a material's status changes in a run: claims, reclaims and settlements. */
  function Moves(ops: seq<Op>, id: string): nat {
    if ops == [] then 0
    else
      var n := |ops| - 1;
      var y := Exec(START, ops[..n]);
      Moves(ops[..n], id) + if Moved(y, Step(y, ops[n]), id) then 1 else 0
  }

  /** One step on one row: a move uses up exactly one, a final row keeps its result, a row never goes away. */
  lemma StepSpends(y: System, op: Op, id: string)
    requires Inv(y) && id in y.t
    ensures id in Step(y, op).t
    ensures var m, m' := y.t[id], Step(y, op).t[id];
            && Measure(m') == Measure(m) - (if m'.status != m.status then 1 else 0)
            && (Final(m) ==> m' == m.(deletedAt := m'.deletedAt, updatedAt := m'.updatedAt))
            && (m'.status == Queued && m.status != Queued ==> op.Sweep?)
  {
    assert RowOk(y, id);
    assert op.Finish? && CanFinish(y, op.k) ==> ClaimOk(y, y.claims[op.k]);
  }

  lemma StepCreates(y: System, op: Op, id: string)
    requires id !in y.t && id in Step(y, op).t
    ensures Step(y, op).t[id].status == Queued && Step(y, op).t[id].attempts == 0
  {
  }

  /**
   Moves are conserved against the measure: in every run, the status changes a material has made and the
   moves it has left add up to twice the attempts. So it changes status at most four times, and every claim,
   reclaim and settlement strictly lowers the measure.
   */
  lemma {:induction false} MovesAreSpent(ops: seq<Op>, id: string)
    ensures id in Exec(START, ops).t ==> Moves(ops, id) + Measure(Exec(START, ops).t[id]) == 2 * MAX_REFINE_ATTEMPTS
    ensures id !in Exec(START, ops).t ==> Moves(ops, id) == 0
    ensures Moves(ops, id) <= 2 * MAX_REFINE_ATTEMPTS
  {
    if ops != [] {
      var n := |ops| - 1;
      var y, op := Exec(START, ops[..n]), ops[n];
      MovesAreSpent(ops[..n], id);
      ExecKeeps(ops[..n]);
      if id in y.t {
        StepSpends(y, op, id);
      } else if id in Step(y, op).t {
        StepCreates(y, op, id);
      }
    }
    ClaimsAreBounded(ops, id);
  }

  /** Ready and failed are absorbing, with their block count, error code and attempts. */
  lemma {:induction false} FinishedMaterialsAreFinal(ops: seq<Op>, more: seq<Op>, id: string)
    requires id in Exec(START, ops).t && Final(Exec(START, ops).t[id])
    ensures id in Exec(START, ops + more).t
    ensures var m, m' := Exec(START, ops).t[id], Exec(START, ops + more).t[id];
            m' == m.(deletedAt := m'.deletedAt, updatedAt := m'.updatedAt)
  {
    if more == [] {
      assert ops + more == ops;
    } else {
      var n := |more| - 1;
      FinishedMaterialsAreFinal(ops, more[..n], id);
      ExecKeeps(ops + more[..n]);
      assert (ops + more)[..|ops + more| - 1] == ops + more[..n];
      StepSpends(Exec(START, ops + more[..n]), more[n], id);
    }
  }

  /** Refine, run without interruption, is a claim followed by its settlement. */
  lemma RefineIsARun(y: System, materialId: string, reply: Reply, writer: Writer, doneAt: int)
    requires y.now <= doneAt
    requires var id := TrimSpace(materialId); id != "" && id in y.t && y.t[id].deletedAt.None?
    ensures var id := TrimSpace(materialId);
            RefineStep(y.t, materialId, reply, writer, y.now, doneAt).0 ==
            if y.t[id].status != Queued then y.t
            else Step(Step(Step(y, Take(id, y.now)), Tick(doneAt)), Finish(|y.claims|, reply, writer)).t
  {
  }

  lemma ExecMore(ops: seq<Op>, op: Op)
    ensures Exec(START, ops + [op]) == Step(Exec(START, ops), op)
  {
    assert (ops + [op])[..|ops + [op]| - 1] == ops;
  }

  /** A run goes on until a queued row is refined. */
  lemma QueuedCanFinish(ops: seq<Op>, id: string) returns (more: seq<Op>)
    requires id in Exec(START, ops).t && Exec(START, ops).t[id].status == Queued
    ensures id in Exec(START, ops + more).t && Exec(START, ops + more).t[id].status == Ready
  {
    var y := Exec(START, ops);
    var take, finish := Take(id, y.now), Finish(|y.claims|, Blocks([]), Working);
    ExecMore(ops, take);
    ExecMore(ops + [take], finish);
    more := [take, finish];
    assert ops + more == ops + [take] + [finish];
    var y1 := Step(y, take);
    assert y1 == TakeStep(y, id, y.now) && y1.claims[|y.claims|] == Claim(id, y.now, y.now, None);
    assert CanFinish(y1, |y.claims|);
  }

  /** A processing row, abandoned or not, live or deleted, goes back to the queue or fails when its lease is over. */
  lemma ProcessingCanLeave(ops: seq<Op>, id: string) returns (more: seq<Op>)
    requires id in Exec(START, ops).t && Exec(START, ops).t[id].status == Processing
    ensures id in Exec(START, ops + more).t
    ensures var m, m' := Exec(START, ops).t[id], Exec(START, ops + more).t[id];
            m'.status == if m.attempts < MAX_REFINE_ATTEMPTS then Queued else Failed
  {
    var y := Exec(START, ops);
    ExecKeeps(ops);
    assert RowOk(y, id);
    var m := y.t[id];
    var late := y.now + (if m.lockedAt.value > y.now then m.lockedAt.value - y.now else 0) + DEFAULT_REFINE_LEASE;
    var restore, tick, sweep := Restore(m.userId), Tick(late), Sweep(late);
    ExecMore(ops, restore);
    ExecMore(ops + [restore], tick);
    ExecMore(ops + [restore] + [tick], sweep);
    more := [restore, tick, sweep];
    assert ops + more == ops + [restore] + [tick] + [sweep];
  }

  /** No reachable state is a dead end: from any state of any run, any material can still become ready or failed. */
  lemma NoDeadEnds(ops: seq<Op>, id: string) returns (more: seq<Op>)
    requires id in Exec(START, ops).t
    ensures id in Exec(START, ops + more).t && Final(Exec(START, ops + more).t[id])
  {
    var m := Exec(START, ops).t[id];
    if Final(m) {
      more := [];
      assert ops + more == ops;
    } else if m.status == Queued {
      more := QueuedCanFinish(ops, id);
    } else {
      more := ProcessingCanLeave(ops, id);
      if Exec(START, ops + more).t[id].status == Queued {
        var rest := QueuedCanFinish(ops + more, id);
        assert ops + more + rest == ops + (more + rest);
        more := more + rest;
      }
    }
  }

  /** SweepIfDue: the sweep times of a series of calls, from the last sweep made. */
  predicate SweepDue(last: Option<int>, now: int) { last.None? || now - last.value >= RECLAIM_INTERVAL }

  function Sweeps(calls: seq<int>): seq<int> {
    if calls == [] then []
    else
      var n := |calls| - 1;
      var made := Sweeps(calls[..n]);
      if SweepDue(LastOf(made), calls[n]) then made + [calls[n]] else made
  }

  function LastOf(made: seq<int>): Option<int> { if made == [] then None else Some(made[|made| - 1]) }

  ghost predicate Spaced(made: seq<int>) { forall i, j | 0 <= i < j < |made| :: made[j] - made[i] >= RECLAIM_INTERVAL }

  lemma OneMoreSweep(made: seq<int>, call: int)
    requires Spaced(made) && SweepDue(LastOf(made), call)
    ensures Spaced(made + [call])
  {
    var last := |made| - 1;
    assert forall i | 0 <= i < last :: made[last] - made[i] >= RECLAIM_INTERVAL;
  }

  /** Sweeps are an interval apart, and after every call the last sweep is less than an interval old. */
  lemma {:induction false} SweepsKeepTheInterval(calls: seq<int>)
    ensures Spaced(Sweeps(calls))
    ensures calls != [] ==>
              Sweeps(calls) != [] && calls[|calls| - 1] - Sweeps(calls)[|Sweeps(calls)| - 1] < RECLAIM_INTERVAL
    ensures forall s | s in Sweeps(calls) :: s in calls
  {
    if calls != [] {
      var n := |calls| - 1;
      SweepsKeepTheInterval(calls[..n]);
      var made := Sweeps(calls[..n]);
      if SweepDue(LastOf(made), calls[n]) { OneMoreSweep(made, calls[n]); }
      assert calls == calls[..n] + [calls[n]];
    }
  }
}
