/**
 Punctual refine workers (internal/materials/refiner.go, model.go). Workers read the clock, then claim;
 sweepers read the clock, then reclaim; so a claim or a sweep may carry a reading that is already old. A
 punctual worker settles only while its context lives, 40 seconds from the reading it stamped.
 */
module MaterialClocks {
  import opened Wrappers
  import opened MaterialModel
  import opened MaterialRuns

  /** No reading is from the future, and a settlement comes before its deadline. */
  predicate Punctual(y: System, op: Op) {
    match op
    case Take(id, stamp) => CanTake(y, id, stamp) ==> stamp <= y.now
    case Finish(k, _, _) => CanFinish(y, k) ==> y.now <= y.claims[k].stamp + REFINE_JOB_TIMEOUT
    case Sweep(at) => at <= y.now
    case _ => true
  }

  /** Every step of the run was punctual. */
  predicate OnTime(ops: seq<Op>) {
    ops == [] || (OnTime(ops[..|ops| - 1]) && Punctual(Exec(START, ops[..|ops| - 1]), ops[|ops| - 1]))
  }

  /** An open claim whose lease has not run out holds its row's lock. */
  predicate ClaimHolds(y: System, c: Claim) {
    && c.id in y.t && c.stamp <= c.madeAt <= y.now
    && (c.settledAt.Some? ==> c.madeAt <= c.settledAt.value <= y.now && Final(y.t[c.id]))
    && (c.settledAt.None? && y.now < c.stamp + DEFAULT_REFINE_LEASE ==>
          y.t[c.id].status == Processing && y.t[c.id].lockedAt == Some(c.stamp))
  }

  /** A settled claim is its row's last; a later claim means that the earlier one's lease had run out. */
  predicate Apart(earlier: Claim, later: Claim) {
    earlier.id == later.id ==> earlier.settledAt.None? && earlier.stamp + DEFAULT_REFINE_LEASE <= later.madeAt
  }

  ghost predicate LeasesInv(y: System) {
    && (forall k | 0 <= k < |y.claims| :: ClaimHolds(y, y.claims[k]))
    && (forall i, j | 0 <= i < j < |y.claims| :: Apart(y.claims[i], y.claims[j]))
  }

  /** A row's lock outlasts its lease, and a finished row stays finished. */
  predicate LockKept(m: Material, m': Material, now: int) {
    && (Final(m) ==> Final(m'))
    && (m.status == Processing && m.lockedAt.Some? && now < m.lockedAt.value + DEFAULT_REFINE_LEASE ==>
          m'.status == m.status && m'.lockedAt == m.lockedAt)
  }

  /** Rows come and change while their locks are kept, and time passes. */
  lemma LocksKept(y: System, y1: System)
    requires LeasesInv(y) && y1.claims == y.claims && y1.now >= y.now
    requires forall id | id in y.t :: id in y1.t && LockKept(y.t[id], y1.t[id], y1.now)
    ensures LeasesInv(y1)
  {
    forall k | 0 <= k < |y.claims| ensures ClaimHolds(y1, y.claims[k]) {
      assert ClaimHolds(y, y.claims[k]) && LockKept(y.t[y.claims[k].id], y1.t[y.claims[k].id], y1.now);
    }
  }

  lemma TakeHeld(y: System, id: string, stamp: int)
    requires LeasesInv(y) && CanTake(y, id, stamp) && stamp <= y.now
    ensures LeasesInv(TakeStep(y, id, stamp))
  {
    var y1 := TakeStep(y, id, stamp);
    forall k | 0 <= k < |y.claims| ensures ClaimHolds(y1, y.claims[k]) && Apart(y.claims[k], y1.claims[|y.claims|]) {
      assert ClaimHolds(y, y.claims[k]);
    }
    forall i, j | 0 <= i < j < |y1.claims| ensures Apart(y1.claims[i], y1.claims[j]) {
      assert j < |y.claims| ==> Apart(y.claims[i], y.claims[j]);
    }
  }

  /** A worker that settles inside its deadline holds its row's lock, and its claim is the row's last. */
  lemma SettlerHoldsTheLock(y: System, k: nat)
    requires LeasesInv(y) && CanFinish(y, k) && y.now <= y.claims[k].stamp + REFINE_JOB_TIMEOUT
    ensures var c := y.claims[k];
            && c.id in y.t && y.t[c.id].status == Processing && y.t[c.id].lockedAt == Some(c.stamp)
            && forall j | k < j < |y.claims| :: y.claims[j].id != c.id
  {
    assert ClaimHolds(y, y.claims[k]);
    forall j | k < j < |y.claims| ensures y.claims[j].id != y.claims[k].id {
      assert ClaimHolds(y, y.claims[j]) && Apart(y.claims[k], y.claims[j]);
    }
  }

  lemma FinishHeld(y: System, k: nat, s: Settlement)
    requires LeasesInv(y) && CanFinish(y, k) && y.now <= y.claims[k].stamp + REFINE_JOB_TIMEOUT
    ensures LeasesInv(FinishStep(y, k, s))
  {
    var c, y1 := y.claims[k], FinishStep(y, k, s);
    SettlerHoldsTheLock(y, k);
    forall j | 0 <= j < |y1.claims| ensures ClaimHolds(y1, y1.claims[j]) {
      assert ClaimHolds(y, y.claims[j]) && ClaimHolds(y, c);
      assert j < k ==> Apart(y.claims[j], c);
    }
    forall i, j | 0 <= i < j < |y1.claims| ensures Apart(y1.claims[i], y1.claims[j]) {
      assert Apart(y.claims[i], y.claims[j]);
    }
  }

  lemma SweepHeld(y: System, at: int)
    requires LeasesInv(y) && at <= y.now
    ensures LeasesInv(y.(t := ReclaimAll(y.t, at)))
  {
    LocksKept(y, y.(t := ReclaimAll(y.t, at)));
  }

  lemma OthersHeld(y: System, op: Op)
    requires LeasesInv(y) && (op.Tick? || op.Create? || op.Delete? || op.Restore?)
    ensures LeasesInv(Step(y, op))
  {
    LocksKept(y, Step(y, op));
  }

  lemma PunctualStepKeeps(y: System, op: Op)
    requires LeasesInv(y) && Punctual(y, op)
    ensures LeasesInv(Step(y, op))
  {
    match op
    case Take(id, stamp) => if CanTake(y, id, stamp) { TakeHeld(y, id, stamp); }
    case Finish(k, reply, writer) => if CanFinish(y, k) { FinishHeld(y, k, Verdict(reply, writer)); }
    case Sweep(at) => SweepHeld(y, at);
    case _ => OthersHeld(y, op);
  }

  lemma {:induction false} OnTimeKeeps(ops: seq<Op>)
    requires OnTime(ops)
    ensures LeasesInv(Exec(START, ops))
  {
    if ops != [] {
      OnTimeKeeps(ops[..|ops| - 1]);
      PunctualStepKeeps(Exec(START, ops[..|ops| - 1]), ops[|ops| - 1]);
    }
  }

  /** When a claim's worker is surely out of the way: it settled, or its context has ended. */
  function WindowEnd(c: Claim): int { if c.settledAt.Some? then c.settledAt.value else c.stamp + REFINE_JOB_TIMEOUT }

  /**
   In every run of punctual workers the execution windows of the claims of one material are disjoint, with
   more than a minute between them.
   */
  lemma ClaimWindowsAreDisjoint(ops: seq<Op>, i: nat, j: nat)
    requires OnTime(ops)
    requires var claims := Exec(START, ops).claims; i < j < |claims| && claims[i].id == claims[j].id
    ensures var claims := Exec(START, ops).claims;
            && claims[i].settledAt.None?
            && WindowEnd(claims[i]) + (DEFAULT_REFINE_LEASE - REFINE_JOB_TIMEOUT) <= claims[j].madeAt
  {
    OnTimeKeeps(ops);
    var claims := Exec(START, ops).claims;
    assert Apart(claims[i], claims[j]);
  }

  /** In runs of punctual workers a settlement lands on its own claim, and is never refused. */
  lemma SettlementsLandOnTheirOwnClaim(ops: seq<Op>, y: System, k: nat, s: Settlement)
    requires OnTime(ops) && y == Exec(START, ops)
    requires CanFinish(y, k) && y.now <= y.claims[k].stamp + REFINE_JOB_TIMEOUT
    ensures var c := y.claims[k];
            && Settle(y.t, c.id, s, y.now).1.Ok?
            && y.t[c.id].lockedAt == Some(c.stamp)
            && forall j | k < j < |y.claims| :: y.claims[j].id != c.id
  {
    OnTimeKeeps(ops);
    SettlerHoldsTheLock(y, k);
  }
}
