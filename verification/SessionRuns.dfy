/**
 Runs of the session protocol: learners and gateways create, activate, end and poll sessions, guests are
 merged into accounts, workers claim, run and settle jobs, and anyone may crash. A run remembers every
 claim made and every session a voice-cost row was written for.

 Each store call is one atomic step. Nothing here depends on the clock: a worker may claim on any reading
 of it, however old, and may run and settle its claim however late, when its lease has long run out and the
 job is another worker's; a crashed worker simply takes no more steps. What punctual workers may rely on
 is the subject of SessionClocks.
 */
module SessionRuns {
  import opened Wrappers
  import opened Text
  import opened SessionModel

  /**
   One claim of a job by a worker: the clock reading it is stamped with, when the store made it, what its
   run came to, and when it was settled.
   */
  datatype Claim = Claim(
    worker: string,
    jobId: string,
    jobType: JobType,
    sessionId: string,
    at: int,
    madeAt: int,
    outcome: Option<bool>,
    settledAt: Option<int>)

  datatype System = System(st: Store, now: int, claims: seq<Claim>, billed: seq<string>)

  datatype Op =
    | Tick(to: int)
    | Create(id: string, user: string)
    | Activate(id: string)
    | End(req: EndRequest, ids: NewIds, evalOn: bool, crash: Crash)
    | Reassign(guest: string, account: string)
    | ClaimNext(worker: string, jobId: string, reading: int)
    | RunClaim(k: nat, fault: bool, review: string)
    | Settle(k: nat, completionFails: bool, msg: string)
    | Score(session: string, utterance: string, eval: UtteranceEval)

  /** End is about to commit: an open session and a well-formed transcript. */
  predicate Commits(st: Store, req: EndRequest) {
    var id := TrimSpace(req.sessionId);
    id != "" && id in st.sessions && (st.sessions[id].status == Created || st.sessions[id].status == Active)
        && ValidItems(req.items)
  }

  predicate CanRun(y: System, k: nat) {
    k < |y.claims| && y.claims[k].outcome.None? && y.claims[k].settledAt.None?
  }

  predicate CanSettle(y: System, k: nat) {
    k < |y.claims| && y.claims[k].outcome.Some? && y.claims[k].settledAt.None?
  }

  function ClaimStep(y: System, worker: string, id: string, reading: int): System
    requires id in y.st.jobs
  {
    var job := y.st.jobs[id];
    y.(st := ClaimJob(y.st, id, worker, reading),
       claims := y.claims + [Claim(worker, id, job.jobType, job.sessionId, reading, y.now, None, None)])
  }

  /** What a claim's run does to the store, and what it comes to. */
  function WorkOf(st: Store, c: Claim, fault: bool, review: string): (Store, bool) {
    if c.jobType == Finished then ProcessSessionFinished(st, c.sessionId, fault, review) else (st, !fault)
  }

  function RunStep(y: System, k: nat, fault: bool, review: string): System
    requires k < |y.claims|
  {
    var (st, ok) := WorkOf(y.st, y.claims[k], fault, review);
    y.(st := st, claims := y.claims[k := y.claims[k].(outcome := Some(ok))])
  }

  /** A settlement that the store refuses changes nothing, and may be tried again. */
  function SettleStep(y: System, k: nat, completionFails: bool, msg: string): System
    requires k < |y.claims| && y.claims[k].outcome.Some?
  {
    var c := y.claims[k];
    var (st, r) := SettleJob(y.st, c.jobId, c.at, c.outcome.value && !completionFails, msg);
    if r.Err? then y else y.(st := st, claims := y.claims[k := c.(settledAt := Some(y.now))])
  }

  ghost function Step(y: System, op: Op): System {
    match op
    case Tick(to) => if to >= y.now then y.(now := to) else y
    case Create(id, user) => y.(st := CreateSession(y.st, Session(id, user, Created, 0, "")).0)
    case Activate(id) => y.(st := MarkSessionActive(y.st, id).0)
    case End(req, ids, evalOn, crash) =>
      if |req.items| > |ids.utterances| then y
      else y.(st := EndStep(y.st, req, ids, y.now, evalOn, crash).0,
              billed := if Commits(y.st, req) && req.usage.Some? then y.billed + [TrimSpace(req.sessionId)]
                else y.billed)
    case Reassign(guest, account) => y.(st := ReassignUser(y.st, guest, account))
    case ClaimNext(worker, id, reading) =>
      if IsNextJob(y.st, reading, id) then ClaimStep(y, worker, id, reading) else y
    case RunClaim(k, fault, review) => if CanRun(y, k) then RunStep(y, k, fault, review) else y
    case Settle(k, completionFails, msg) => if CanSettle(y, k) then SettleStep(y, k, completionFails, msg) else y
    case Score(session, id, eval) =>
      if session in y.st.utterances
          then y.(st := y.st.(utterances := y.st.utterances[session := Scored(y.st.utterances[session], id, eval)]))
              else y
  }

  ghost function Exec(y: System, ops: seq<Op>): System {
    if ops == [] then y else Step(Exec(y, ops[..|ops| - 1]), ops[|ops| - 1])
  }

  const START := System(Store(map[], map[], map[], map[]), 0, [], [])

  function Claims(claims: seq<Claim>, job: string): nat {
    if claims == [] then 0 else Claims(claims[..|claims| - 1], job) + if claims[|claims| - 1].jobId == job then 1 else 0
  }

  /** Pending: unlocked with attempts left. Processing: locked. Done and failed: unlocked; failed: none left. */
  predicate JobOk(job: Job) {
    && (job.lockedAt.Some? <==> job.status == Processing)
    && (job.lockedBy.Some? <==> job.status == Processing)
    && (job.status == Pending ==> job.attempts < MAX_JOB_ATTEMPTS)
    && (job.status == Failed ==> job.attempts >= MAX_JOB_ATTEMPTS)
    && (job.status == Processing || job.status == Done ==> job.attempts > 0)
  }

  /** A job's session has ended; a done review job's session is reviewed. */
  predicate JobPlaced(st: Store, job: Job) {
    && job.sessionId in st.sessions
    && (st.sessions[job.sessionId].status == Ended || st.sessions[job.sessionId].status == Reviewed)
    && (job.jobType == Finished && job.status == Done ==> st.sessions[job.sessionId].status == Reviewed)
  }

  predicate Rivals(x: Job, y: Job) {
    x.sessionId == y.sessionId && x.jobType == y.jobType && x.status != Failed && y.status != Failed
  }

  ghost predicate JobsOk(st: Store) { forall id | id in st.jobs :: st.jobs[id].id == id && JobOk(st.jobs[id]) }

  ghost predicate JobsPlaced(st: Store) { forall id | id in st.jobs :: JobPlaced(st, st.jobs[id]) }

  predicate Spoke(st: Store, session: string) { HasUserSpeech(st.Transcript(session)) }

  /** Jobs exist only for sessions with user speech. */
  ghost predicate JobsSpoken(st: Store) { forall id | id in st.jobs :: Spoke(st, st.jobs[id].sessionId) }

  /** At most one job per session and type has not failed. */
  ghost predicate OneActiveJob(st: Store) {
    forall x, y | x in st.jobs && y in st.jobs && x != y :: !Rivals(st.jobs[x], st.jobs[y])
  }

  ghost predicate SessionsInv(st: Store) {
    && (forall id | id in st.sessions :: st.sessions[id].id == id)
    && (forall id | id in st.sessions :: st.sessions[id].status != Reviewed ==> st.sessions[id].review == "")
  }

  /** Only sessions with user speech are ever reviewed. */
  ghost predicate ReviewedSpoke(st: Store) {
    forall id | id in st.sessions && st.sessions[id].status == Reviewed :: Spoke(st, id)
  }

  /** A claim belongs to its job, and a good review run has left the session reviewed. */
  predicate ClaimOk(st: Store, c: Claim) {
    && c.jobId in st.jobs && c.sessionId in st.sessions
    && st.jobs[c.jobId].jobType == c.jobType && st.jobs[c.jobId].sessionId == c.sessionId
    && (c.outcome == Some(true) && c.jobType == Finished ==> st.sessions[c.sessionId].status == Reviewed)
  }

  ghost predicate ClaimsInv(st: Store, claims: seq<Claim>) {
    && (forall k | 0 <= k < |claims| :: ClaimOk(st, claims[k]))
    && (forall id | id in st.jobs :: st.jobs[id].attempts == Claims(claims, id))
  }

  ghost predicate StoreInv(st: Store) {
    JobsOk(st) && JobsPlaced(st) && JobsSpoken(st) && OneActiveJob(st) && SessionsInv(st) && ReviewedSpoke(st)
  }

  /** Status only moves forward: created, active, ended or abandoned, and from ended to reviewed. */
  predicate Forward(from: Status, to: Status) {
    match from
    case Created => true
    case Active => to != Created
    case Ended => to == Ended || to == Reviewed
    case Abandoned => to == Abandoned
    case Reviewed => to == Reviewed
  }

  predicate Closed(s: Status) { s != Created && s != Active }

  /** What one session keeps: once closed its duration and spoken transcript; once reviewed its document. */
  predicate SessionGrows(st: Store, st': Store, id: string)
    requires id in st.sessions
  {
    && id in st'.sessions
    && var s, s' := st.sessions[id], st'.sessions[id];
    && Forward(s.status, s'.status)
    && (Closed(s.status) ==> s'.durationSec == s.durationSec && Spoken(st'.Transcript(id)) == Spoken(st.Transcript(id)))
    && (s.status == Reviewed ==> s'.review == s.review)
  }

  /** What one job keeps: its identity, and everything once it is done or failed. */
  predicate JobGrows(st: Store, st': Store, id: string)
    requires id in st.jobs
  {
    && id in st'.jobs
    && var j, j' := st.jobs[id], st'.jobs[id];
    && j'.id == j.id && j'.sessionId == j.sessionId && j'.jobType == j.jobType && j'.createdAt == j.createdAt
    && j.attempts <= j'.attempts
    && (j.status == Done || j.status == Failed ==> j' == j)
  }

  ghost predicate Grows(st: Store, st': Store) {
    && (forall id | id in st.sessions :: SessionGrows(st, st', id))
    && (forall id | id in st.jobs :: JobGrows(st, st', id))
  }

  lemma GrowsTransitive(x: Store, y: Store, z: Store)
    requires Grows(x, y) && Grows(y, z)
    ensures Grows(x, z)
  {
    forall id | id in x.sessions
      ensures SessionGrows(x, z, id)
    {
      assert SessionGrows(x, y, id) && SessionGrows(y, z, id);
    }
    forall id | id in x.jobs ensures JobGrows(x, z, id) { assert JobGrows(x, y, id) && JobGrows(y, z, id); }
  }

  /** No job changed; new ones have not been attempted. */
  ghost predicate JobsOnlyAdded(st: Store, st': Store) {
    && (forall id | id in st.jobs :: id in st'.jobs && st'.jobs[id] == st.jobs[id])
    && (forall id | id in st'.jobs && id !in st.jobs :: st'.jobs[id].attempts == 0)
  }

  /** A step of the store that workers do not notice. */
  ghost predicate Quiet(st: Store, st': Store) { StoreInv(st') && Grows(st, st') && JobsOnlyAdded(st, st') }

  lemma QuietReflexive(st: Store)
    requires StoreInv(st)
    ensures Quiet(st, st)
  {
    GrowsReflexive(st);
  }

  lemma QuietTransitive(x: Store, y: Store, z: Store)
    requires Quiet(x, y) && Quiet(y, z)
    ensures Quiet(x, z)
  {
    GrowsTransitive(x, y, z);
  }

  lemma SpeechIsSpoken(rows: seq<Utterance>, others: seq<Utterance>)
    requires Spoken(rows) == Spoken(others)
    ensures HasUserSpeech(rows) <==> HasUserSpeech(others)
  {
    assert |Spoken(rows)| == |Spoken(others)|;
    assert forall i | 0 <= i < |rows| :: rows[i].(eval := None) == others[i].(eval := None);
  }

  /** Rewriting one session without jobs, or only its scores, is quiet. */
  lemma SessionRewritten(st: Store, st': Store, id: string)
    requires StoreInv(st) && st'.jobs == st.jobs && SessionsInv(st')
    requires st.sessions.Keys <= st'.sessions.Keys
    requires forall other | other in st.sessions && other != id ::
             st'.sessions[other] == st.sessions[other] && st'.Transcript(other) == st.Transcript(other)
    requires id in st.sessions ==> SessionGrows(st, st', id)
    requires id in st'.sessions && st'.sessions[id].status == Reviewed ==>
             id in st.sessions && Closed(st.sessions[id].status) && Spoke(st, id)
    requires forall other | other in st'.sessions && other !in st.sessions :: other == id
    ensures Quiet(st, st')
  {
    RewrittenSpoke(st, st', id);
    RewrittenJobs(st, st', id);
    forall other | other in st.sessions ensures SessionGrows(st, st', other) {}
  }

  lemma RewrittenSpoke(st: Store, st': Store, id: string)
    requires ReviewedSpoke(st)
    requires forall other | other in st.sessions && other != id ::
             other in st'.sessions && st'.sessions[other] == st.sessions[other]
               && st'.Transcript(other) == st.Transcript(other)
    requires id in st.sessions ==> SessionGrows(st, st', id)
    requires id in st'.sessions && st'.sessions[id].status == Reviewed ==>
             id in st.sessions && Closed(st.sessions[id].status) && Spoke(st, id)
    requires forall other | other in st'.sessions && other !in st.sessions :: other == id
    ensures ReviewedSpoke(st')
  {
    forall other | other in st'.sessions && st'.sessions[other].status == Reviewed ensures Spoke(st', other) {
      if other == id { SpeechIsSpoken(st.Transcript(id), st'.Transcript(id)); } else { assert Spoke(st, other); }
    }
  }

  lemma RewrittenJobs(st: Store, st': Store, id: string)
    requires JobsPlaced(st) && JobsSpoken(st) && st'.jobs == st.jobs
    requires forall other | other in st.sessions && other != id ::
             other in st'.sessions && st'.sessions[other] == st.sessions[other]
               && st'.Transcript(other) == st.Transcript(other)
    requires id in st.sessions ==> SessionGrows(st, st', id)
    ensures JobsPlaced(st') && JobsSpoken(st')
  {
    forall job | job in st.jobs ensures JobPlaced(st', st.jobs[job]) && Spoke(st', st.jobs[job].sessionId) {
      assert JobPlaced(st, st.jobs[job]) && Spoke(st, st.jobs[job].sessionId);
      if st.jobs[job].sessionId == id { SpeechIsSpoken(st.Transcript(id), st'.Transcript(id)); }
    }
  }

  lemma CreateIsQuiet(st: Store, id: string, user: string)
    requires StoreInv(st)
    ensures Quiet(st, CreateSession(st, Session(id, user, Created, 0, "")).0)
  {
    SessionRewritten(st, CreateSession(st, Session(id, user, Created, 0, "")).0, id);
  }

  /** The stores agree on everything but the owners of sessions. */
  ghost predicate OwnersAside(st: Store, st': Store) {
    && st'.jobs == st.jobs && st'.utterances == st.utterances && st'.sessions.Keys == st.sessions.Keys
    && (forall id | id in st.sessions :: st'.sessions[id] == st.sessions[id].(userId := st'.sessions[id].userId))
  }

  lemma OwnersAsideGrows(st: Store, st': Store)
    requires OwnersAside(st, st')
    ensures Grows(st, st') && JobsOnlyAdded(st, st')
  {
    forall id | id in st.sessions ensures SessionGrows(st, st', id) {}
  }

  lemma OwnersAsideSpoke(st: Store, st': Store)
    requires OwnersAside(st, st') && ReviewedSpoke(st) && JobsPlaced(st) && JobsSpoken(st)
    ensures ReviewedSpoke(st') && JobsPlaced(st') && JobsSpoken(st')
  {
    forall id | id in st'.sessions && st'.sessions[id].status == Reviewed
      ensures Spoke(st', id)
    {
      assert Spoke(st, id);
    }
    forall job | job in st.jobs ensures JobPlaced(st', st.jobs[job]) && Spoke(st', st.jobs[job].sessionId) {
      assert JobPlaced(st, st.jobs[job]) && Spoke(st, st.jobs[job].sessionId);
    }
  }

  lemma OwnersAsideInv(st: Store, st': Store)
    requires OwnersAside(st, st') && JobsOk(st) && OneActiveJob(st) && SessionsInv(st)
    ensures JobsOk(st') && OneActiveJob(st') && SessionsInv(st')
  {
  }

  lemma ReassignIsQuiet(st: Store, from: string, to: string)
    requires StoreInv(st)
    ensures Quiet(st, ReassignUser(st, from, to))
  {
    var st1 := ReassignUser(st, from, to);
    OwnersAsideGrows(st, st1);
    OwnersAsideSpoke(st, st1);
    OwnersAsideInv(st, st1);
  }

  lemma ActivateIsQuiet(st: Store, id: string)
    requires StoreInv(st)
    ensures Quiet(st, MarkSessionActive(st, id).0)
  {
    SessionRewritten(st, MarkSessionActive(st, id).0, id);
  }

  lemma CommitIsQuiet(st: Store, id: string, terminal: Status, durationSec: int, utterances: seq<Utterance>,
                      cost: Option<CostLog>)
    requires StoreInv(st) && id in st.sessions && !Closed(st.sessions[id].status) && IsTerminal(terminal)
    ensures Quiet(st, Commit(st, id, terminal, durationSec, utterances, cost))
  {
    SessionRewritten(st, Commit(st, id, terminal, durationSec, utterances, cost), id);
  }

  lemma {:induction false} ScoringKeepsSpeech(rows: seq<Utterance>, id: string, eval: UtteranceEval)
    ensures Spoken(Scored(rows, id, eval)) == Spoken(rows)
  {
    if rows != [] {
      assert rows == [rows[0]] + rows[1..];
      if rows[0].id != id {
        ScoringKeepsSpeech(rows[1..], id, eval);
        var rest := Scored(rows[1..], id, eval);
        assert Spoken([rows[0]] + rest) == [rows[0].(eval := None)] + Spoken(rest);
        assert Spoken(rows) == [rows[0].(eval := None)] + Spoken(rows[1..]);
      }
    }
  }

  lemma ScoreIsQuiet(st: Store, session: string, id: string, eval: UtteranceEval)
    requires StoreInv(st) && session in st.utterances
    ensures Quiet(st, st.(utterances := st.utterances[session := Scored(st.utterances[session], id, eval)]))
  {
    ScoringKeepsSpeech(st.utterances[session], id, eval);
    SessionRewritten(st, st.(utterances := st.utterances[session := Scored(st.utterances[session], id, eval)]),
                     session);
  }

  lemma GrowsReflexive(st: Store)
    ensures Grows(st, st)
  {
  }

  function PutJob(st: Store, job: Job): Store { st.(jobs := st.jobs[job.id := job]) }

  lemma PutJobPlaced(st: Store, job: Job)
    requires JobsPlaced(st) && JobPlaced(st, job)
    ensures JobsPlaced(PutJob(st, job))
  {
    var st1 := PutJob(st, job);
    forall other | other in st1.jobs ensures JobPlaced(st1, st1.jobs[other]) {
      assert other != job.id ==> JobPlaced(st, st.jobs[other]);
    }
  }

  lemma PutJobSpoken(st: Store, job: Job)
    requires JobsSpoken(st) && Spoke(st, job.sessionId)
    ensures JobsSpoken(PutJob(st, job))
  {
    var st1 := PutJob(st, job);
    forall other | other in st1.jobs ensures Spoke(st1, st1.jobs[other].sessionId) {
      assert other != job.id ==> Spoke(st, st.jobs[other].sessionId);
    }
  }

  lemma PutJobOneActive(st: Store, job: Job)
    requires OneActiveJob(st) && forall x | x in st.jobs && x != job.id :: !Rivals(st.jobs[x], job)
    ensures OneActiveJob(PutJob(st, job))
  {
    var jobs := PutJob(st, job).jobs;
    forall x, y | x in jobs && y in jobs && x != y ensures !Rivals(jobs[x], jobs[y]) {
      assert x != job.id && y != job.id ==> !Rivals(st.jobs[x], st.jobs[y]);
      assert x != job.id ==> !Rivals(st.jobs[x], job);
      assert y != job.id ==> !Rivals(st.jobs[y], job);
    }
  }

  lemma PutJobGrows(st: Store, job: Job)
    requires job.id in st.jobs ==>
      && st.jobs[job.id].status != Done && st.jobs[job.id].status != Failed && st.jobs[job.id].attempts <= job.attempts
      && st.jobs[job.id].id == job.id && st.jobs[job.id].sessionId == job.sessionId
      && st.jobs[job.id].jobType == job.jobType && st.jobs[job.id].createdAt == job.createdAt
    ensures Grows(st, PutJob(st, job))
  {
    GrowsReflexive(st);
    forall s | s in st.sessions ensures SessionGrows(st, PutJob(st, job), s) { assert SessionGrows(st, st, s); }
  }

  lemma JobEnqueued(st: Store, job: Job)
    requires StoreInv(st) && job.id !in st.jobs && JobOk(job) && JobPlaced(st, job) && Spoke(st, job.sessionId)
             && job.attempts == 0
    requires forall x | x in st.jobs :: !Rivals(st.jobs[x], job)
    ensures Quiet(st, PutJob(st, job))
  {
    PutJobPlaced(st, job);
    PutJobSpoken(st, job);
    PutJobOneActive(st, job);
    PutJobGrows(st, job);
    PutJobAside(st, job);
  }

  /** Storing a sound job leaves the other jobs sound and the sessions alone. */
  lemma PutJobAside(st: Store, job: Job)
    requires JobsOk(st) && JobOk(job) && SessionsInv(st) && ReviewedSpoke(st)
    ensures JobsOk(PutJob(st, job)) && SessionsInv(PutJob(st, job)) && ReviewedSpoke(PutJob(st, job))
  {
    var st1 := PutJob(st, job);
    forall id | id in st1.sessions && st1.sessions[id].status == Reviewed
      ensures Spoke(st1, id)
    {
      assert Spoke(st, id);
    }
  }

  /** Ensuring a job keeps the one-active-job rule and leaves a job that has not failed. */
  lemma EnsureIsQuiet(st: Store, session: string, jobType: JobType, id: string, now: int)
    requires StoreInv(st) && session in st.sessions && st.sessions[session].status == Ended && Spoke(st, session)
    ensures var (st1, r) := EnsureJob(st, session, jobType, id, now);
            && Quiet(st, st1)
            && st1.sessions == st.sessions && st1.utterances == st.utterances
            && (r.Ok? ==> HasSessionJob(st1, session, jobType, ACTIVE_OR_DONE))
  {
    GrowsReflexive(st);
    if !HasSessionJob(st, session, jobType, ACTIVE_OR_DONE) && id !in st.jobs {
      var job := NewJob(id, session, jobType, now);
      forall x | x in st.jobs ensures !Rivals(st.jobs[x], job) {
        assert st.jobs[x].status in ACTIVE_OR_DONE || st.jobs[x].status == Failed;
      }
      JobEnqueued(st, job);
      assert st.jobs[id := job][id] == job && job.status in ACTIVE_OR_DONE;
    }
  }

  lemma AddingKeepsJobs(st: Store, st': Store, session: string, jobType: JobType, statuses: set<JobStatus>)
    requires JobsOnlyAdded(st, st')
    ensures HasSessionJob(st, session, jobType, statuses) ==> HasSessionJob(st', session, jobType, statuses)
  {
    if HasSessionJob(st, session, jobType, statuses) {
      var job :| job in st.jobs && st.jobs[job].sessionId == session && st.jobs[job].jobType == jobType
          && st.jobs[job].status in statuses;
      assert job in st'.jobs && st'.jobs[job] == st.jobs[job];
    }
  }

  /** The eval job is ensured on top of the review job. */
  lemma EvalTooIsQuiet(st: Store, session: string, finished: string, eval: string, now: int)
    requires StoreInv(st) && session in st.sessions && st.sessions[session].status == Ended && Spoke(st, session)
    ensures var (st1, r) := EnsureJob(st, session, Finished, finished, now);
            var st2 := EnsureJob(st1, session, Eval, eval, now).0;
            && Quiet(st, st1) && Quiet(st, st2)
            && (r.Ok? ==>
                  && HasSessionJob(st1, session, Finished, ACTIVE_OR_DONE)
                  && HasSessionJob(st2, session, Finished, ACTIVE_OR_DONE))
  {
    EnsureIsQuiet(st, session, Finished, finished, now);
    var st1 := EnsureJob(st, session, Finished, finished, now).0;
    assert Spoke(st1, session) == Spoke(st, session);
    EnsureIsQuiet(st1, session, Eval, eval, now);
    var st2 := EnsureJob(st1, session, Eval, eval, now).0;
    QuietTransitive(st, st1, st2);
    AddingKeepsJobs(st1, st2, session, Finished, ACTIVE_OR_DONE);
  }

  lemma EnqueueReviewOutcomes(st: Store, session: string, ids: NewIds, now: int, evalOn: bool, crash: Crash,
                              answer: EndAnswer)
    ensures var (st1, r1) := EnsureJob(st, session, Finished, ids.finished, now);
            var st2 := EnsureJob(st1, session, Eval, ids.eval, now).0;
            var (after, r) := EnqueueReview(st, session, ids, now, evalOn, crash, answer);
            && (after == st || after == st1 || after == st2)
            && (r.Some? && r.value.Ok? ==> r.value.value == answer && r1.Ok? && (after == st1 || after == st2))
  {
  }

  lemma EnqueueReviewIsQuiet(st: Store, session: string, ids: NewIds, now: int, evalOn: bool, crash: Crash,
                             answer: EndAnswer,
                             after: Store, r: Option<Result<EndAnswer>>)
    requires StoreInv(st) && session in st.sessions && st.sessions[session].status == Ended && Spoke(st, session)
    requires (after, r) == EnqueueReview(st, session, ids, now, evalOn, crash, answer)
    ensures Quiet(st, after)
    ensures r.Some? && r.value.Ok? ==>
              r.value.value == answer && HasSessionJob(after, session, Finished, ACTIVE_OR_DONE)
  {
    QuietReflexive(st);
    EvalTooIsQuiet(st, session, ids.finished, ids.eval, now);
    EnqueueReviewOutcomes(st, session, ids, now, evalOn, crash, answer);
  }

  /** What an End that returned normally and did not skip the review leaves behind. */
  predicate ReviewAssured(st: Store, session: string, r: Option<Result<EndAnswer>>) {
    r.Some? && r.value.Ok? && !r.value.value.skipped && r.value.value.status == Ended ==>
        HasSessionJob(st, session, Finished, ACTIVE_OR_DONE)
  }

  lemma FirstEndIsQuiet(st: Store, id: string, req: EndRequest, ids: NewIds, now: int, evalOn: bool, crash: Crash)
    requires StoreInv(st) && id in st.sessions && !Closed(st.sessions[id].status) && |req.items| <= |ids.utterances|
    ensures var (st1, r) := FirstEnd(st, id, req, ids, now, evalOn, crash);
            Quiet(st, st1) && ReviewAssured(st1, id, r)
  {
    GrowsReflexive(st);
    if ValidItems(req.items) {
      var saved, terminal := ToUtterances(req.items, ids.utterances), TerminalStatus(req.reason);
      var cost := BuildVoiceCostLog(st.sessions[id].userId, req.usage, ids.cost, now);
      CommitIsQuiet(st, id, terminal, req.durationSec, saved, cost);
      var st1 := Commit(st, id, terminal, req.durationSec, saved, cost);
      if terminal == Ended && HasUserSpeech(saved) {
        var answer := EndAnswer(terminal, st1.sessions[id].durationSec, |saved|, false, false);
        var (st2, r) := EnqueueReview(st1, id, ids, now, evalOn, crash, answer);
        EnqueueReviewIsQuiet(st1, id, ids, now, evalOn, crash, answer, st2, r);
        QuietTransitive(st, st1, st2);
      }
    }
  }

  lemma EndIsQuiet(st: Store, id: string, req: EndRequest, ids: NewIds, now: int, evalOn: bool, crash: Crash)
    requires StoreInv(st) && id in st.sessions && |req.items| <= |ids.utterances|
    ensures var (st1, r) := EndKnown(st, id, req, ids, now, evalOn, crash);
            Quiet(st, st1) && ReviewAssured(st1, id, r)
  {
    GrowsReflexive(st);
    var s := st.sessions[id];
    if !Closed(s.status) {
      FirstEndIsQuiet(st, id, req, ids, now, evalOn, crash);
    } else if s.status == Ended && HasUserSpeech(st.Transcript(id)) {
      var again := EndAnswer(s.status, s.durationSec, |st.Transcript(id)|, true, false);
      var (st1, r) := EnqueueReview(st, id, ids, now, evalOn, crash, again);
      EnqueueReviewIsQuiet(st, id, ids, now, evalOn, crash, again, st1, r);
    }
  }

  ghost predicate Inv(y: System) { StoreInv(y.st) && ClaimsInv(y.st, y.claims) }

  lemma {:induction false} NoClaims(claims: seq<Claim>, job: string)
    requires forall k | 0 <= k < |claims| :: claims[k].jobId != job
    ensures Claims(claims, job) == 0
  {
    if claims != [] { NoClaims(claims[..|claims| - 1], job); }
  }

  lemma {:induction false} ClaimsUpdated(claims: seq<Claim>, k: nat, c: Claim, job: string)
    requires k < |claims| && c.jobId == claims[k].jobId
    ensures Claims(claims[k := c], job) == Claims(claims, job)
  {
    var n := |claims| - 1;
    if k < n {
      assert claims[k := c][..n] == claims[..n][k := c];
      ClaimsUpdated(claims[..n], k, c, job);
    } else {
      assert claims[k := c][..n] == claims[..n];
    }
  }

  /** Steps that workers do not notice keep every claim in order. */
  lemma QuietClaims(st: Store, st': Store, claims: seq<Claim>)
    requires ClaimsInv(st, claims) && Grows(st, st') && JobsOnlyAdded(st, st')
    ensures ClaimsInv(st', claims)
  {
    forall k | 0 <= k < |claims| ensures ClaimOk(st', claims[k]) {
      assert ClaimOk(st, claims[k]) && SessionGrows(st, st', claims[k].sessionId);
    }
    forall id | id in st'.jobs ensures st'.jobs[id].attempts == Claims(claims, id) {
      if id !in st.jobs {
        assert forall k | 0 <= k < |claims| :: ClaimOk(st, claims[k]);
        NoClaims(claims, id);
      }
    }
  }

  /** One job's status, lock and attempts change; its place in the protocol does not. */
  lemma JobRewritten(st: Store, id: string, job: Job)
    requires StoreInv(st) && id in st.jobs && JobOk(job) && JobPlaced(st, job)
    requires job.id == id && job.sessionId == st.jobs[id].sessionId && job.jobType == st.jobs[id].jobType
             && job.createdAt == st.jobs[id].createdAt
    requires st.jobs[id].status == Pending || st.jobs[id].status == Processing
    requires st.jobs[id].attempts <= job.attempts
    ensures StoreInv(PutJob(st, job)) && Grows(st, PutJob(st, job))
  {
    PutJobPlaced(st, job);
    PutJobSpoken(st, job);
    forall x | x in st.jobs && x != id ensures !Rivals(st.jobs[x], job) { assert !Rivals(st.jobs[x], st.jobs[id]); }
    PutJobOneActive(st, job);
    PutJobGrows(st, job);
  }

  function ClaimedJob(job: Job, worker: string, at: int): Job {
    job.(status := Processing, attempts := job.attempts + 1, lockedAt := Some(at), lockedBy := Some(worker))
  }

  /** One job's status, lock and attempts change as its claims do. */
  lemma JobsClaims(st: Store, claims: seq<Claim>, claims': seq<Claim>, job: Job)
    requires ClaimsInv(st, claims) && job.id in st.jobs
    requires job.sessionId == st.jobs[job.id].sessionId && job.jobType == st.jobs[job.id].jobType
    requires forall k | 0 <= k < |claims'| :: ClaimOk(st, claims'[k])
    requires job.attempts == Claims(claims', job.id)
    requires forall id | id in st.jobs && id != job.id :: Claims(claims', id) == Claims(claims, id)
    ensures ClaimsInv(PutJob(st, job), claims')
  {
    var st1 := PutJob(st, job);
    forall k | 0 <= k < |claims'| ensures ClaimOk(st1, claims'[k]) { assert ClaimOk(st, claims'[k]); }
    forall id | id in st1.jobs ensures st1.jobs[id].attempts == Claims(claims', id) {
      assert id != job.id ==> st.jobs[id].attempts == Claims(claims, id);
    }
  }

  lemma ClaimKeeps(y: System, worker: string, id: string, reading: int)
    requires Inv(y) && id in y.st.jobs && Claimable(y.st.jobs[id], reading)
    ensures var y1 := ClaimStep(y, worker, id, reading); Inv(y1) && Grows(y.st, y1.st)
  {
    var before := y.st.jobs[id];
    var job := ClaimedJob(before, worker, reading);
    assert JobPlaced(y.st, before) && before.id == id && JobOk(before);
    assert before.attempts == Claims(y.claims, id);
    JobRewritten(y.st, id, job);
    var c := Claim(worker, id, before.jobType, before.sessionId, reading, y.now, None, None);
    ClaimAppended(y.st, y.claims, c);
    JobsClaims(y.st, y.claims, y.claims + [c], job);
  }

  /** One more claim counts for its job and for no other. */
  lemma ClaimAppended(st: Store, claims: seq<Claim>, c: Claim)
    requires ClaimsInv(st, claims) && ClaimOk(st, c)
    ensures forall k | 0 <= k < |claims| + 1 :: ClaimOk(st, (claims + [c])[k])
    ensures forall id :: Claims(claims + [c], id) == Claims(claims, id) + if id == c.jobId then 1 else 0
  {
    assert (claims + [c])[..|claims|] == claims;
  }

  lemma ReviewKeeps(st: Store, id: string, review: string)
    requires StoreInv(st) && id in st.sessions && st.sessions[id].status == Ended && Spoke(st, id)
    ensures Quiet(st, MarkSessionReviewed(st, id, review).0)
  {
    var st1 := MarkSessionReviewed(st, id, review).0;
    SessionRewritten(st, st1, id);
  }

  /** One claim is rewritten: its outcome or its settlement is noted. */
  lemma ClaimRewritten(st: Store, claims: seq<Claim>, k: nat, c: Claim)
    requires ClaimsInv(st, claims) && k < |claims| && c.jobId == claims[k].jobId && ClaimOk(st, c)
    ensures ClaimsInv(st, claims[k := c])
  {
    var claims' := claims[k := c];
    forall j | 0 <= j < |claims'| ensures ClaimOk(st, claims'[j]) { assert ClaimOk(st, claims[j]); }
    forall id | id in st.jobs ensures st.jobs[id].attempts == Claims(claims', id) {
      ClaimsUpdated(claims, k, c, id);
      assert st.jobs[id].attempts == Claims(claims, id);
    }
  }

  lemma ProcessIsQuiet(st: Store, id: string, fault: bool, review: string)
    requires StoreInv(st) && Spoke(st, id)
    ensures var (st1, ok) := ProcessSessionFinished(st, id, fault, review);
            Quiet(st, st1) && (ok ==> id in st1.sessions && st1.sessions[id].status == Reviewed)
  {
    GrowsReflexive(st);
    if !fault && id in st.sessions && st.sessions[id].status == Ended { ReviewKeeps(st, id, review); }
  }

  lemma WorkIsQuiet(st: Store, c: Claim, fault: bool, review: string)
    requires StoreInv(st) && ClaimOk(st, c)
    ensures var (st1, ok) := WorkOf(st, c, fault, review);
            && Quiet(st, st1)
            && (ok && c.jobType == Finished ==>
                  c.sessionId in st1.sessions && st1.sessions[c.sessionId].status == Reviewed)
  {
    QuietReflexive(st);
    assert Spoke(st, st.jobs[c.jobId].sessionId);
    ProcessIsQuiet(st, c.sessionId, fault, review);
  }

  lemma RunKeeps(y: System, k: nat, fault: bool, review: string)
    requires Inv(y) && CanRun(y, k)
    ensures var y1 := RunStep(y, k, fault, review); Inv(y1) && Grows(y.st, y1.st)
  {
    assert ClaimOk(y.st, y.claims[k]);
    WorkIsQuiet(y.st, y.claims[k], fault, review);
    RunNoted(y.st, WorkOf(y.st, y.claims[k], fault, review).0, y.claims, k, RunStep(y, k, fault, review).claims[k]);
  }

  lemma RunNoted(st: Store, st': Store, claims: seq<Claim>, k: nat, c: Claim)
    requires ClaimsInv(st, claims) && Grows(st, st') && JobsOnlyAdded(st, st')
    requires k < |claims| && c == claims[k].(outcome := c.outcome)
    requires c.outcome == Some(true) && c.jobType == Finished ==>
             c.sessionId in st'.sessions && st'.sessions[c.sessionId].status == Reviewed
    ensures ClaimsInv(st', claims[k := c])
  {
    QuietClaims(st, st', claims);
    assert ClaimOk(st', claims[k]);
    ClaimRewritten(st', claims, k, c);
  }

  /** However late it comes, a settlement that the store takes leaves a sound job, and one that it refuses nothing. */
  lemma SettleKeeps(y: System, k: nat, completionFails: bool, msg: string)
    requires Inv(y) && CanSettle(y, k)
    ensures var y1 := SettleStep(y, k, completionFails, msg); Inv(y1) && Grows(y.st, y1.st)
  {
    var c, y1 := y.claims[k], SettleStep(y, k, completionFails, msg);
    assert ClaimOk(y.st, c);
    var before := y.st.jobs[c.jobId];
    GrowsReflexive(y.st);
    if before.status == Processing {
      var job := y1.st.jobs[c.jobId];
      assert JobPlaced(y.st, before) && before.id == c.jobId && JobOk(before);
      JobRewritten(y.st, c.jobId, job);
      assert y1.st == PutJob(y.st, job);
      assert before.attempts == Claims(y.claims, c.jobId);
      JobsClaims(y.st, y.claims, y.claims, job);
      ClaimRewritten(y1.st, y.claims, k, y1.claims[k]);
    }
  }

  lemma EndStepIsQuiet(st: Store, req: EndRequest, ids: NewIds, now: int, evalOn: bool, crash: Crash)
    requires StoreInv(st) && |req.items| <= |ids.utterances|
    ensures var (st1, r) := EndStep(st, req, ids, now, evalOn, crash);
            Quiet(st, st1) && ReviewAssured(st1, TrimSpace(req.sessionId), r)
  {
    GrowsReflexive(st);
    var id := TrimSpace(req.sessionId);
    if id != "" && id in st.sessions { EndIsQuiet(st, id, req, ids, now, evalOn, crash); }
  }

  /** The steps that workers do not notice, and the clock. */
  predicate Aside(op: Op) { !op.ClaimNext? && !op.RunClaim? && !op.Settle? }

  lemma LearnerIsQuiet(y: System, op: Op)
    requires StoreInv(y.st) && (op.Create? || op.Activate? || op.Reassign? || op.Score? || op.Tick?)
    ensures Quiet(y.st, Step(y, op).st) && Step(y, op).claims == y.claims
  {
    QuietReflexive(y.st);
    match op
    case Tick(_) =>
    case Create(id, user) => CreateIsQuiet(y.st, id, user);
    case Activate(id) => ActivateIsQuiet(y.st, id);
    case Reassign(guest, account) => ReassignIsQuiet(y.st, guest, account);
    case Score(session, id, eval) =>
      if session in y.st.utterances { ScoreIsQuiet(y.st, session, id, eval); }
  }

  lemma EndIsAside(y: System, op: Op)
    requires StoreInv(y.st) && op.End?
    ensures Quiet(y.st, Step(y, op).st) && Step(y, op).claims == y.claims
  {
    QuietReflexive(y.st);
    if |op.req.items| <= |op.ids.utterances| {
      EndStepIsQuiet(y.st, op.req, op.ids, y.now, op.evalOn, op.crash);
    }
  }

  lemma AsideIsQuiet(y: System, op: Op)
    requires StoreInv(y.st) && Aside(op)
    ensures Quiet(y.st, Step(y, op).st) && Step(y, op).claims == y.claims
  {
    if op.End? { EndIsAside(y, op); } else { LearnerIsQuiet(y, op); }
  }

  lemma ClaimNextKeeps(y: System, worker: string, id: string, reading: int)
    requires Inv(y)
    ensures var y1 := if IsNextJob(y.st, reading, id) then ClaimStep(y, worker, id, reading) else y;
            Inv(y1) && Grows(y.st, y1.st)
  {
    GrowsReflexive(y.st);
    if IsNextJob(y.st, reading, id) { ClaimKeeps(y, worker, id, reading); }
  }

  lemma RunClaimKeeps(y: System, k: nat, fault: bool, review: string)
    requires Inv(y)
    ensures var y1 := if CanRun(y, k) then RunStep(y, k, fault, review) else y; Inv(y1) && Grows(y.st, y1.st)
  {
    if CanRun(y, k) { RunKeeps(y, k, fault, review); } else { GrowsReflexive(y.st); }
  }

  lemma SettleClaimKeeps(y: System, k: nat, completionFails: bool, msg: string)
    requires Inv(y)
    ensures var y1 := if CanSettle(y, k) then SettleStep(y, k, completionFails, msg) else y;
            Inv(y1) && Grows(y.st, y1.st)
  {
    if CanSettle(y, k) { SettleKeeps(y, k, completionFails, msg); } else { GrowsReflexive(y.st); }
  }

  lemma AsideKeeps(y: System, op: Op)
    requires Inv(y) && Aside(op)
    ensures Inv(Step(y, op)) && Grows(y.st, Step(y, op).st)
  {
    AsideIsQuiet(y, op);
    QuietClaims(y.st, Step(y, op).st, y.claims);
  }

  lemma StepKeeps(y: System, op: Op)
    requires Inv(y)
    ensures Inv(Step(y, op)) && Grows(y.st, Step(y, op).st)
  {
    match op
    case ClaimNext(worker, id, reading) => ClaimNextKeeps(y, worker, id, reading);
    case RunClaim(k, fault, review) => RunClaimKeeps(y, k, fault, review);
    case Settle(k, completionFails, msg) => SettleClaimKeeps(y, k, completionFails, msg);
    case _ => AsideKeeps(y, op);
  }

  lemma {:induction false} ExecKeeps(ops: seq<Op>)
    ensures Inv(Exec(START, ops))
  {
    if ops != [] {
      ExecKeeps(ops[..|ops| - 1]);
      StepKeeps(Exec(START, ops[..|ops| - 1]), ops[|ops| - 1]);
    }
  }

  lemma LastStepGrows(ops: seq<Op>, op: Op)
    ensures Grows(Exec(START, ops).st, Exec(START, ops + [op]).st)
  {
    ExecKeeps(ops);
    StepKeeps(Exec(START, ops), op);
    assert (ops + [op])[..|ops|] == ops;
  }

  /** Any continuation of a run only grows the store it had reached. */
  lemma {:induction false} RunsOnlyGrow(ops: seq<Op>, more: seq<Op>)
    ensures Grows(Exec(START, ops).st, Exec(START, ops + more).st)
  {
    if more == [] {
      assert ops + more == ops;
      GrowsReflexive(Exec(START, ops).st);
    } else {
      var n := |more| - 1;
      RunsOnlyGrow(ops, more[..n]);
      LastStepGrows(ops + more[..n], more[n]);
      assert ops + more == ops + more[..n] + [more[n]];
      GrowsTransitive(Exec(START, ops).st, Exec(START, ops + more[..n]).st, Exec(START, ops + more).st);
    }
  }
}
