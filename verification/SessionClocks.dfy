/**
 Punctual workers: how the leases of session jobs keep them apart (internal/session/review.go, types.go). A
 worker's claim is stamped with a clock reading taken before it, its run and its two settle calls end with
 their contexts. In runs where every worker keeps to that, claims of one job never overlap.
 */
module SessionClocks {
  import opened Wrappers
  import opened SessionModel
  import opened SessionRuns

  /** How long after its claim a worker may still settle: its run's timeout and two settle calls. */
  function Window(jobType: JobType): int { Timeout(jobType) + 2 * SETTLE_TIMEOUT }

  /** The latest time at which a claim's worker may still settle. */
  function Deadline(c: Claim): int { c.madeAt + Window(c.jobType) }

  /** When a claim's execution window closes. */
  function WindowEnd(c: Claim): int { if c.settledAt.Some? then c.settledAt.value else Deadline(c) }

  /** How old a worker's clock reading must not become before its claim: 50 seconds for reviews, 20 for scoring. */
  function Slack(jobType: JobType): int { DEFAULT_JOB_LEASE - Window(jobType) }

  lemma SlackMeans()
    ensures Slack(Finished) == 50_000_000_000 && Slack(Eval) == 20_000_000_000
  {
  }

  /** A claim is made on a recent reading, and run and settled before its deadlines. */
  ghost predicate Punctual(y: System, op: Op) {
    match op
    case ClaimNext(_, id, reading) =>
      IsNextJob(y.st, reading, id) ==> 0 <= y.now - reading < Slack(y.st.jobs[id].jobType)
    case RunClaim(k, _, _) => CanRun(y, k) ==> y.now <= y.claims[k].madeAt + Timeout(y.claims[k].jobType)
    case Settle(k, _, _) => CanSettle(y, k) ==> y.now <= Deadline(y.claims[k])
    case _ => true
  }

  /** Every step of the run was punctual. */
  ghost predicate OnTime(ops: seq<Op>) {
    ops == [] || (OnTime(ops[..|ops| - 1]) && Punctual(Exec(START, ops[..|ops| - 1]), ops[|ops| - 1]))
  }

  predicate Holds(job: Job, c: Claim) {
    job.status == Processing && job.lockedAt == Some(c.at) && job.lockedBy == Some(c.worker)
  }

  /** An unsettled claim whose lease has not run out holds its job's lock. */
  predicate ClaimHolds(jobs: map<string, Job>, now: int, c: Claim) {
    && c.jobId in jobs
    && c.at <= c.madeAt <= now && c.madeAt - c.at < Slack(c.jobType)
    && (c.settledAt.Some? ==> c.madeAt <= c.settledAt.value <= now)
    && (c.settledAt.None? && now < c.at + DEFAULT_JOB_LEASE ==> Holds(jobs[c.jobId], c))
  }

  /** The earlier claim was settled, or its lease had run out, when the later one was made. */
  predicate Apart(earlier: Claim, later: Claim) {
    earlier.jobId == later.jobId ==>
      if earlier.settledAt.Some? then earlier.settledAt.value <= later.madeAt
      else earlier.at + DEFAULT_JOB_LEASE <= later.madeAt
  }

  ghost predicate Leases(jobs: map<string, Job>, now: int, claims: seq<Claim>) {
    && (forall k | 0 <= k < |claims| :: ClaimHolds(jobs, now, claims[k]))
    && (forall i, j | 0 <= i < j < |claims| :: Apart(claims[i], claims[j]))
  }

  ghost predicate LeasesInv(y: System) { Leases(y.st.jobs, y.now, y.claims) }

  /** Time passes and other jobs come: every claim holds what it held. */
  lemma JobsKept(jobs: map<string, Job>, jobs': map<string, Job>, now: int, later: int, claims: seq<Claim>)
    requires Leases(jobs, now, claims) && later >= now
    requires forall id | id in jobs :: id in jobs' && jobs'[id] == jobs[id]
    ensures Leases(jobs', later, claims)
  {
    forall k | 0 <= k < |claims|
      ensures ClaimHolds(jobs', later, claims[k])
    {
      assert ClaimHolds(jobs, now, claims[k]);
    }
  }

  /** A claimable job's earlier claims are settled or past their leases. */
  lemma Claimed(jobs: map<string, Job>, now: int, claims: seq<Claim>, c: Claim, job: Job)
    requires Leases(jobs, now, claims) && c.jobId in jobs && Claimable(jobs[c.jobId], c.at)
    requires c.at <= c.madeAt == now && now - c.at < Slack(c.jobType) && c.settledAt.None? && Holds(job, c)
    ensures Leases(jobs[c.jobId := job], now, claims + [c])
  {
    var claims', jobs' := claims + [c], jobs[c.jobId := job];
    forall k | 0 <= k < |claims| ensures ClaimHolds(jobs', now, claims[k]) && Apart(claims[k], c) {
      assert ClaimHolds(jobs, now, claims[k]);
    }
    forall i, j | 0 <= i < j < |claims'| ensures Apart(claims'[i], claims'[j]) {
      assert j < |claims| ==> Apart(claims[i], claims[j]);
    }
  }

  lemma ClaimHeld(y: System, worker: string, id: string, reading: int)
    requires LeasesInv(y) && id in y.st.jobs && Claimable(y.st.jobs[id], reading)
    requires 0 <= y.now - reading < Slack(y.st.jobs[id].jobType)
    ensures LeasesInv(ClaimStep(y, worker, id, reading))
  {
    var job := y.st.jobs[id];
    Claimed(y.st.jobs, y.now, y.claims, Claim(worker, id, job.jobType, job.sessionId, reading, y.now, None, None),
            ClaimedJob(job, worker, reading));
  }

  lemma OutcomeHeld(jobs: map<string, Job>, now: int, claims: seq<Claim>, k: nat, c: Claim)
    requires Leases(jobs, now, claims) && k < |claims| && c == claims[k].(outcome := c.outcome)
    ensures Leases(jobs, now, claims[k := c])
  {
    var claims' := claims[k := c];
    forall j | 0 <= j < |claims'| ensures ClaimHolds(jobs, now, claims'[j]) { assert ClaimHolds(jobs, now, claims[j]); }
    forall i, j | 0 <= i < j < |claims'| ensures Apart(claims'[i], claims'[j]) { assert Apart(claims[i], claims[j]); }
  }

  lemma RunHeld(y: System, k: nat, fault: bool, review: string)
    requires LeasesInv(y) && CanRun(y, k)
    ensures LeasesInv(RunStep(y, k, fault, review))
  {
    RunLeavesJobs(y, k, fault, review);
    OutcomeHeld(y.st.jobs, y.now, y.claims, k, RunStep(y, k, fault, review).claims[k]);
  }

  lemma RunLeavesJobs(y: System, k: nat, fault: bool, review: string)
    requires k < |y.claims|
    ensures RunStep(y, k, fault, review).st.jobs == y.st.jobs && RunStep(y, k, fault, review).now == y.now
  {
  }

  /** A worker that settles inside its deadline still holds its job's lock. */
  lemma SettlerHoldsTheLock(y: System, k: nat)
    requires LeasesInv(y) && CanSettle(y, k) && y.now <= Deadline(y.claims[k])
    ensures y.claims[k].jobId in y.st.jobs && Holds(y.st.jobs[y.claims[k].jobId], y.claims[k])
  {
    assert ClaimHolds(y.st.jobs, y.now, y.claims[k]);
  }

  /** Settling the claim that holds a job's lock releases no other claim's. */
  lemma Released(jobs: map<string, Job>, now: int, claims: seq<Claim>, k: nat, job: Job)
    requires Leases(jobs, now, claims) && k < |claims| && claims[k].settledAt.None? && now <= Deadline(claims[k])
    ensures Leases(jobs[claims[k].jobId := job], now, claims[k := claims[k].(settledAt := Some(now))])
  {
    var c := claims[k];
    var claims', jobs' := claims[k := c.(settledAt := Some(now))], jobs[c.jobId := job];
    assert ClaimHolds(jobs, now, c);
    forall j | 0 <= j < |claims'| ensures ClaimHolds(jobs', now, claims'[j]) {
      assert ClaimHolds(jobs, now, claims[j]);
      assert j < k ==> Apart(claims[j], c);
      assert k < j ==> Apart(c, claims[j]);
    }
    forall i, j | 0 <= i < j < |claims'| ensures Apart(claims'[i], claims'[j]) {
      assert Apart(claims[i], claims[j]) && ClaimHolds(jobs, now, claims[j]);
    }
  }

  lemma SettleHeld(y: System, k: nat, completionFails: bool, msg: string)
    requires LeasesInv(y) && CanSettle(y, k) && y.now <= Deadline(y.claims[k])
    ensures LeasesInv(SettleStep(y, k, completionFails, msg))
  {
    SettlerHoldsTheLock(y, k);
    Released(y.st.jobs, y.now, y.claims, k, SettleStep(y, k, completionFails, msg).st.jobs[y.claims[k].jobId]);
  }

  lemma AsideHeld(y: System, op: Op)
    requires Inv(y) && LeasesInv(y) && Aside(op)
    ensures LeasesInv(Step(y, op))
  {
    AsideIsQuiet(y, op);
    JobsKept(y.st.jobs, Step(y, op).st.jobs, y.now, Step(y, op).now, y.claims);
  }

  lemma PunctualStepKeeps(y: System, op: Op)
    requires Inv(y) && LeasesInv(y) && Punctual(y, op)
    ensures LeasesInv(Step(y, op))
  {
    match op
    case ClaimNext(worker, id, reading) =>
      if IsNextJob(y.st, reading, id) { ClaimHeld(y, worker, id, reading); }
    case RunClaim(k, fault, review) =>
      if CanRun(y, k) { RunHeld(y, k, fault, review); }
    case Settle(k, completionFails, msg) =>
      if CanSettle(y, k) { SettleHeld(y, k, completionFails, msg); }
    case _ => AsideHeld(y, op);
  }

  lemma {:induction false} OnTimeKeeps(ops: seq<Op>)
    requires OnTime(ops)
    ensures LeasesInv(Exec(START, ops))
  {
    if ops != [] {
      OnTimeKeeps(ops[..|ops| - 1]);
      ExecKeeps(ops[..|ops| - 1]);
      PunctualStepKeeps(Exec(START, ops[..|ops| - 1]), ops[|ops| - 1]);
    }
  }

  /**
   In every run of punctual workers the execution windows of all claims of one job are pairwise disjoint,
   although claims may carry old clock readings: an earlier claim has been settled, or its last deadline has
   passed, before a later claim is made. Without a settlement between them the later claim is made a lease
   after the earlier one's reading.
   */
  lemma ClaimWindowsAreDisjoint(ops: seq<Op>, claims: seq<Claim>, i: nat, j: nat)
    requires OnTime(ops)
    requires claims == Exec(START, ops).claims && i < j < |claims| && claims[i].jobId == claims[j].jobId
    ensures claims[i].madeAt <= WindowEnd(claims[i]) <= claims[j].madeAt
    ensures claims[i].settledAt.None? ==>
              Deadline(claims[i]) < claims[j].madeAt && claims[j].madeAt - claims[i].at >= DEFAULT_JOB_LEASE
  {
    OnTimeKeeps(ops);
    var y := Exec(START, ops);
    assert ClaimHolds(y.st.jobs, y.now, claims[i]) && Apart(claims[i], claims[j]);
  }

  /**
   How old a reading may be: a claim can be taken from its worker while that may still settle it if and
   only if the reading was `Slack` old or older when the claim was made.
   */
  lemma LeaseOutlastsTheWindowIff(st: Store, id: string, worker: string, reading: int, madeAt: int)
    requires id in st.jobs && reading <= madeAt
    ensures var job := ClaimJob(st, id, worker, reading).jobs[id];
            (exists t | madeAt <= t <= madeAt + Window(job.jobType) :: Claimable(job, t)) <==>
              madeAt - reading >= Slack(job.jobType)
  {
    var job := ClaimJob(st, id, worker, reading).jobs[id];
    assert Claimable(job, madeAt + Window(job.jobType)) <==> madeAt - reading >= Slack(job.jobType);
  }

  /** In runs of punctual workers a settlement never lands on another worker's claim, and is never refused. */
  lemma SettlementsLandOnTheirOwnClaim(ops: seq<Op>, y: System, k: nat, completionFails: bool, msg: string)
    requires OnTime(ops) && y == Exec(START, ops) && CanSettle(y, k) && y.now <= Deadline(y.claims[k])
    ensures var c := y.claims[k];
            && c.jobId in y.st.jobs
            && y.st.jobs[c.jobId].status == Processing
            && y.st.jobs[c.jobId].lockedAt == Some(c.at) && y.st.jobs[c.jobId].lockedBy == Some(c.worker)
            && SettleJob(y.st, c.jobId, c.at, c.outcome.value && !completionFails, msg).1.Ok?
  {
    OnTimeKeeps(ops);
    SettlerHoldsTheLock(y, k);
  }
}
