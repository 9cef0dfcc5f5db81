/**
 What one session call does, in the terms of its caller (internal/session/service.go, memory_store.go): how
 a first End closes a session, which job is claimed next, what becomes of a failed attempt, what a poll says,
 and that every job can be brought to its end.
 */
module SessionEffects {
  import opened Wrappers
  import opened Text
  import opened Schedule
  import opened SessionModel
  import opened SessionRuns

  /** The transcript that an End may carry. */
  predicate WellFormed(items: seq<EndItem>) {
    && |items| <= 500
    && (forall i | 0 <= i < |items| ::
          && 1 <= items[i].seqNo <= 500
          && (TrimSpace(items[i].speaker) == "user" || TrimSpace(items[i].speaker) == "ai")
          && TrimSpace(items[i].text) != "" && Utf8Len(TrimSpace(items[i].text)) <= 32768)
    && (forall i, j | 0 <= i < j < |items| :: items[i].seqNo != items[j].seqNo)
  }

  lemma WellFormedIsValid(items: seq<EndItem>)
    ensures WellFormed(items) <==> ValidItems(items)
  {
  }

  /** The learner said something in the request. */
  predicate LearnerSpoke(items: seq<EndItem>) {
    exists i | 0 <= i < |items| :: TrimSpace(items[i].speaker) == "user" && TrimSpace(items[i].text) != ""
  }

  /** A review job that has not failed stands for the session. */
  ghost predicate ReviewStands(st: Store, session: string) {
    exists id | id in st.jobs ::
      && st.jobs[id].sessionId == session && st.jobs[id].jobType == Finished
      && (st.jobs[id].status == Pending || st.jobs[id].status == Processing || st.jobs[id].status == Done)
  }

  /** The session is there and has neither ended nor been abandoned. */
  predicate Open(st: Store, id: string) {
    id in st.sessions && (st.sessions[id].status == Created || st.sessions[id].status == Active)
  }

  /** A malformed transcript is refused without effect. */
  lemma MalformedEndIsRefused(st: Store, id: string, req: EndRequest, ids: NewIds, now: int, evalOn: bool, crash: Crash)
    requires Open(st, id) && TrimSpace(req.sessionId) == id != "" && |req.items| <= |ids.utterances|
    requires !WellFormed(req.items)
    ensures EndStep(st, req, ids, now, evalOn, crash) == (st, Some(Err(InvalidArgument)))
  {
    WellFormedIsValid(req.items);
    OpenEndIs(st, id, req, ids, now, evalOn, crash);
  }

  lemma OpenEndIs(st: Store, id: string, req: EndRequest, ids: NewIds, now: int, evalOn: bool, crash: Crash)
    requires Open(st, id) && TrimSpace(req.sessionId) == id != "" && |req.items| <= |ids.utterances|
    ensures EndStep(st, req, ids, now, evalOn, crash) == FirstEnd(st, id, req, ids, now, evalOn, crash)
  {
  }

  /** How a first End leaves its session: abandoned only if the reason says so. */
  function ClosedSession(s: Session, req: EndRequest): Session {
    s.(status := if TrimSpace(req.reason) == "abandoned" then Abandoned else Ended,
       durationSec := if req.durationSec > 0 then req.durationSec else 0)
  }

  /** The stored row of one transcript item. */
  predicate RowOf(row: Utterance, item: EndItem, id: string) {
    && row.id == id && row.seqNo == item.seqNo && row.text == TrimSpace(item.text)
    && (row.speaker == User <==> TrimSpace(item.speaker) == "user")
    && row.interrupted == item.interrupted && row.eval.None?
  }

  /**
   A first End of an open session, in full: with a well-formed transcript, fresh job ids and no crash it
   succeeds. It closes the session as abandoned if and only if the trimmed reason is "abandoned", stores the
   transcript as it was sent and answers with what it stored. It skips the review if and only if the session
   was abandoned or the learner said nothing; otherwise a review job stands.
   */
  lemma FirstEndCloses(st: Store, id: string, req: EndRequest, ids: NewIds, now: int, evalOn: bool)
    requires Open(st, id) && TrimSpace(req.sessionId) == id != "" && |req.items| <= |ids.utterances|
    requires WellFormed(req.items) && ids.finished !in st.jobs
    ensures var (st1, r) := EndStep(st, req, ids, now, evalOn, NoCrash);
            && st1.sessions == st.sessions[id := ClosedSession(st.sessions[id], req)]
            && |st1.Transcript(id)| == |req.items|
            && (forall i | 0 <= i < |req.items| :: RowOf(st1.Transcript(id)[i], req.items[i], ids.utterances[i]))
            && (forall other | other != id :: st1.Transcript(other) == st.Transcript(other))
            && r.Some? && r.value.Ok?
            && var a, s := r.value.value, st1.sessions[id];
            && a.status == s.status && a.durationSec == s.durationSec && a.count == |req.items| && !a.already
            && (a.skipped <==> TrimSpace(req.reason) == "abandoned" || !LearnerSpoke(req.items))
            && (a.skipped ==> st1.jobs == st.jobs)
            && (!a.skipped ==> ReviewStands(st1, id))
  {
    WellFormedIsValid(req.items);
    OpenEndIs(st, id, req, ids, now, evalOn, NoCrash);
    var rows := ToUtterances(req.items, ids.utterances);
    var cost := BuildVoiceCostLog(st.sessions[id].userId, req.usage, ids.cost, now);
    var st0 := Commit(st, id, TerminalStatus(req.reason), req.durationSec, rows, cost);
    SpeechIsSent(req.items, ids.utterances);
    var answer := EndAnswer(TerminalStatus(req.reason), st0.sessions[id].durationSec, |rows|, false, false);
    EnqueueReviewStands(st0, id, ids, now, evalOn, answer);
  }

  lemma SpeechIsSent(items: seq<EndItem>, ids: seq<string>)
    requires |items| <= |ids| && WellFormed(items)
    ensures HasUserSpeech(ToUtterances(items, ids)) <==> LearnerSpoke(items)
  {
    var rows := ToUtterances(items, ids);
    forall i | 0 <= i < |items|
      ensures rows[i].speaker == User && !Blank(rows[i].text) <==>
                TrimSpace(items[i].speaker) == "user" && TrimSpace(items[i].text) != ""
    {
      TrimmedIsTrimmed(items[i].text);
    }
    if LearnerSpoke(items) {
      var i :| 0 <= i < |items| && TrimSpace(items[i].speaker) == "user" && TrimSpace(items[i].text) != "";
      assert rows[i].speaker == User && !Blank(rows[i].text);
    }
  }

  lemma TrimmedIsTrimmed(s: string)
    ensures TrimSpace(TrimSpace(s)) == TrimSpace(s)
  {
    var n, m := TrimSpaceMeans(s, IsSpace);
    var t := TrimSpace(s);
    assert TrimLeft(t) == t;
    assert TrimRight(t) == t;
  }

  lemma EnqueueReviewStands(st: Store, id: string, ids: NewIds, now: int, evalOn: bool, answer: EndAnswer)
    requires ids.finished !in st.jobs
    ensures var (st1, r) := EnqueueReview(st, id, ids, now, evalOn, NoCrash, answer);
            && r == Some(Ok(answer)) && ReviewStands(st1, id)
            && st1.sessions == st.sessions && st1.utterances == st.utterances
  {
    var st1 := EnsureJob(st, id, Finished, ids.finished, now).0;
    EnsuredStands(st, id, ids.finished, now);
    var st2 := EnqueueReview(st, id, ids, now, evalOn, NoCrash, answer).0;
    assert forall job | job in st1.jobs :: job in st2.jobs && st2.jobs[job] == st1.jobs[job];
    var job :| job in st1.jobs && st1.jobs[job].sessionId == id && st1.jobs[job].jobType == Finished
               && (st1.jobs[job].status == Pending || st1.jobs[job].status == Processing
                   || st1.jobs[job].status == Done);
    assert job in st2.jobs;
  }

  lemma EnsuredStands(st: Store, id: string, job: string, now: int)
    requires job !in st.jobs
    ensures EnsureJob(st, id, Finished, job, now).1.Ok?
    ensures ReviewStands(EnsureJob(st, id, Finished, job, now).0, id)
  {
    var st1 := EnsureJob(st, id, Finished, job, now).0;
    if HasSessionJob(st, id, Finished, ACTIVE_OR_DONE) {
      var other :| other in st.jobs && st.jobs[other].sessionId == id && st.jobs[other].jobType == Finished
                   && st.jobs[other].status in ACTIVE_OR_DONE;
      assert other in st1.jobs;
    } else {
      assert st1.jobs[job].sessionId == id;
    }
  }

  /** The jobs a first End leaves: a fresh review job, and with scoring switched on a fresh scoring job. */
  lemma FirstEndEnqueues(st: Store, id: string, req: EndRequest, ids: NewIds, now: int, evalOn: bool)
    requires StoreInv(st) && Open(st, id) && TrimSpace(req.sessionId) == id != "" && |req.items| <= |ids.utterances|
    requires WellFormed(req.items) && TrimSpace(req.reason) != "abandoned" && LearnerSpoke(req.items)
    requires ids.finished !in st.jobs && ids.eval !in st.jobs && ids.eval != ids.finished
    ensures var st1 := EndStep(st, req, ids, now, evalOn, NoCrash).0;
            && ids.finished in st1.jobs
            && st1.jobs[ids.finished] == Job(ids.finished, id, Finished, Pending, 0, now, None, None, None, now)
            && (ids.eval in st1.jobs <==> evalOn)
            && (evalOn ==> st1.jobs[ids.eval] == Job(ids.eval, id, Eval, Pending, 0, now, None, None, None, now))
            && (forall job | job in st.jobs :: job in st1.jobs && st1.jobs[job] == st.jobs[job])
            && CanBeClaimed(st1.jobs[ids.finished], now)
  {
    var st0, answer := FirstEndIsEnqueue(st, id, req, ids, now, evalOn);
    OpenHasNoJobs(st, id);
    EnqueuedFresh(st0, id, ids, now, evalOn, answer);
  }

  lemma FirstEndIsEnqueue(st: Store, id: string, req: EndRequest, ids: NewIds, now: int, evalOn: bool)
    returns (st0: Store, answer: EndAnswer)
    requires Open(st, id) && TrimSpace(req.sessionId) == id != "" && |req.items| <= |ids.utterances|
    requires WellFormed(req.items) && TrimSpace(req.reason) != "abandoned" && LearnerSpoke(req.items)
    ensures st0.jobs == st.jobs
    ensures EndStep(st, req, ids, now, evalOn, NoCrash) == EnqueueReview(st0, id, ids, now, evalOn, NoCrash, answer)
  {
    WellFormedIsValid(req.items);
    OpenEndIs(st, id, req, ids, now, evalOn, NoCrash);
    SpeechIsSent(req.items, ids.utterances);
    var rows := ToUtterances(req.items, ids.utterances);
    var cost := BuildVoiceCostLog(st.sessions[id].userId, req.usage, ids.cost, now);
    st0 := Commit(st, id, Ended, req.durationSec, rows, cost);
    answer := EndAnswer(Ended, st0.sessions[id].durationSec, |rows|, false, false);
  }

  lemma EnqueuedFresh(st: Store, id: string, ids: NewIds, now: int, evalOn: bool, answer: EndAnswer)
    requires forall job | job in st.jobs :: st.jobs[job].sessionId != id
    requires ids.finished !in st.jobs && ids.eval !in st.jobs && ids.eval != ids.finished
    ensures var st1 := EnqueueReview(st, id, ids, now, evalOn, NoCrash, answer).0;
            var review := Job(ids.finished, id, Finished, Pending, 0, now, None, None, None, now);
            var scoring := Job(ids.eval, id, Eval, Pending, 0, now, None, None, None, now);
            st1.jobs == if evalOn then st.jobs[ids.finished := review][ids.eval := scoring]
                else st.jobs[ids.finished := review]
  {
    var st1 := EnsureJob(st, id, Finished, ids.finished, now).0;
    assert !HasSessionJob(st, id, Finished, ACTIVE_OR_DONE);
    assert !HasSessionJob(st1, id, Eval, ACTIVE_OR_DONE);
  }

  lemma OpenHasNoJobs(st: Store, id: string)
    requires JobsPlaced(st) && Open(st, id)
    ensures forall job | job in st.jobs :: st.jobs[job].sessionId != id
  {
    assert forall job | job in st.jobs :: JobPlaced(st, st.jobs[job]);
  }

  /** A job that a worker may take: available, or locked for two minutes and more. */
  predicate CanBeClaimed(job: Job, at: int) {
    || (job.status == Pending && job.availableAt <= at)
    || (job.status == Processing && job.lockedAt.Some? && job.lockedAt.value + 120_000_000_000 <= at)
  }

  lemma ClaimableMeans(job: Job, at: int)
    ensures Claimable(job, at) <==> CanBeClaimed(job, at)
  {
  }

  predicate CreatedBefore(x: Job, y: Job) {
    x.createdAt < y.createdAt || (x.createdAt == y.createdAt && StrLess(x.id, y.id))
  }

  /** The job claimed next is the one that can be claimed and was created first, by id among equals. */
  lemma NextJobMeans(st: Store, at: int, id: string)
    ensures IsNextJob(st, at, id) <==>
              && id in st.jobs && CanBeClaimed(st.jobs[id], at)
              && (forall other | other in st.jobs && other != id && CanBeClaimed(st.jobs[other], at) ::
                    CreatedBefore(st.jobs[id], st.jobs[other]))
  {
    forall job: Job ensures Claimable(job, at) <==> CanBeClaimed(job, at) {}
  }

  lemma {:induction false} Oldest(jobs: map<string, Job>, ids: set<string>) returns (id: string)
    requires ids != {} && ids <= jobs.Keys && forall x | x in ids :: jobs[x].id == x
    ensures id in ids && forall other | other in ids && other != id :: CreatedBefore(jobs[id], jobs[other])
    decreases |ids|
  {
    id :| id in ids;
    if ids != {id} {
      var rest := Oldest(jobs, ids - {id});
      var first := id;
      StrLessOrder();
      forall other | other in ids && other != rest && other != first ensures CreatedBefore(jobs[rest], jobs[other]) {
        assert other in ids - {first};
      }
      id := if CreatedBefore(jobs[first], jobs[rest]) then first else rest;
    }
  }

  /** A job is claimed whenever one can be. */
  lemma SomeJobIsNextIff(st: Store, at: int)
    requires JobsOk(st)
    ensures (exists id :: IsNextJob(st, at, id)) <==> exists id | id in st.jobs :: CanBeClaimed(st.jobs[id], at)
  {
    if exists id | id in st.jobs :: CanBeClaimed(st.jobs[id], at) {
      var ids := set id | id in st.jobs && CanBeClaimed(st.jobs[id], at);
      var some :| some in st.jobs && CanBeClaimed(st.jobs[some], at);
      assert some in ids;
      var id := Oldest(st.jobs, ids);
      NextJobMeans(st, at, id);
    }
    if exists id :: IsNextJob(st, at, id) {
      var id :| IsNextJob(st, at, id);
      NextJobMeans(st, at, id);
    }
  }

  /** What becomes of a failed attempt: one more chance after two seconds, or none. */
  lemma FailureMeans(st: Store, id: string, at: int, msg: string, t: int)
    requires id in st.jobs && st.jobs[id].status == Processing
    ensures var (st1, r) := SettleJob(st, id, at, false, msg);
            && r.Ok? && st1.jobs.Keys == st.jobs.Keys
            && (forall other | other in st.jobs && other != id :: st1.jobs[other] == st.jobs[other])
            && var job := st1.jobs[id];
            && job.lockedAt.None? && job.lockedBy.None? && job.lastError == Some(msg)
            && job.attempts == st.jobs[id].attempts
            && (job.status == Pending <==> job.attempts < 2) && (job.status == Failed <==> job.attempts >= 2)
            && (CanBeClaimed(job, t) <==> job.attempts < 2 && t >= at + 2_000_000_000)
  {
  }

  /** Only a created session becomes active; an active one stays, and nothing else of it changes. */
  lemma ActivationMeans(st: Store, id: string)
    ensures var (st1, r) := MarkSessionActive(st, id);
            && (r.Ok? <==> Open(st, id))
            && (r.Err? ==> st1 == st)
            && (r.Ok? ==>
                  && r.value == st.sessions[id].(status := Active)
                  && st1 == st.(sessions := st.sessions[id := r.value]))
  {
    if id in st.sessions && st.sessions[id].status == Active {
      assert st.sessions[id := st.sessions[id]] == st.sessions;
    }
  }

  /** Whose poll is answered, and how. */
  lemma PollMeans(st: Store, userId: string, sessionId: string)
    requires TrimSpace(userId) != "" && TrimSpace(sessionId) != ""
    ensures var user, id := TrimSpace(userId), TrimSpace(sessionId);
            var r := GetReview(st, userId, sessionId);
            && (r.Err? <==> id !in st.sessions || st.sessions[id].userId != user || st.sessions[id].status == Abandoned)
            && (r.Err? ==> r.error == NotFound)
            && (r.Ok? ==>
                  var s := st.sessions[id];
                  && (forall review :: r.value == PollReady(review) <==> s.status == Reviewed && s.review == review)
                  && (r.value == PollEmpty <==> s.status == Ended && s.review == ""
                                                  && !exists i | 0 <= i < |st.Transcript(id)| ::
                                                       st.Transcript(id)[i].speaker == User
                                                       && TrimSpace(st.Transcript(id)[i].text) != "")
                  && (r.value == PollFailed ==>
                        exists job | job in st.jobs :: st.jobs[job].sessionId == id && st.jobs[job].jobType == Finished
                          && st.jobs[job].status == Failed)
                  && (r.value == PollPending ==>
                        forall job | job in st.jobs && st.jobs[job].sessionId == id
                          && st.jobs[job].jobType == Finished ::
                          st.jobs[job].status != Failed))
  {
  }

  /** A created session is its owner's, pending, and taken ids are refused. */
  lemma CreationMeans(st: Store, id: string, user: string)
    ensures var (st1, r) := CreateSession(st, Session(id, user, Created, 0, ""));
            && (r.Ok? <==> id !in st.sessions)
            && (r.Ok? ==> Open(st1, id) && st1.sessions == st.sessions[id := Session(id, user, Created, 0, "")])
            && (r.Err? ==> st1 == st)
  {
  }

  lemma ExecMore(ops: seq<Op>, op: Op)
    ensures Exec(START, ops + [op]) == Step(Exec(START, ops), op)
  {
    assert (ops + [op])[..|ops|] == ops;
  }

  /** The jobs that stand before this one at a reading. */
  ghost function Ahead(st: Store, at: int, id: string): set<string> {
    set other | other in st.jobs && other != id && CanBeClaimed(st.jobs[other], at)
  }

  /** A job that can be claimed but is not next has another one before it. */
  lemma OneBefore(st: Store, id: string, at: int) returns (first: string)
    requires JobsOk(st) && id in st.jobs && CanBeClaimed(st.jobs[id], at) && !IsNextJob(st, at, id)
    ensures first in st.jobs && first != id && CanBeClaimed(st.jobs[first], at) && IsNextJob(st, at, first)
  {
    SomeJobIsNextIff(st, at);
    first :| IsNextJob(st, at, first);
    NextJobMeans(st, at, first);
  }

  /** One claim of a job that stands before this one. */
  lemma ClaimFirst(ops: seq<Op>, y: System, id: string, at: int) returns (op: Op, y1: System)
    requires y == Exec(START, ops) && id in y.st.jobs && CanBeClaimed(y.st.jobs[id], at) && !IsNextJob(y.st, at, id)
    ensures y1 == Exec(START, ops + [op]) && id in y1.st.jobs && y1.st.jobs[id] == y.st.jobs[id]
    ensures y1.st.sessions == y.st.sessions
    ensures |Ahead(y1.st, at, id)| < |Ahead(y.st, at, id)|
  {
    ExecKeeps(ops);
    var first := OneBefore(y.st, id, at);
    op := ClaimNext("worker", first, at);
    y1 := Step(y, op);
    ExecMore(ops, op);
    FewerAhead(y, id, first, at);
  }

  lemma TickTo(ops: seq<Op>, y: System, at: int) returns (y1: System)
    requires y == Exec(START, ops)
    ensures y1 == Exec(START, ops + [Tick(at)]) && y1.st == y.st
  {
    ExecMore(ops, Tick(at));
    y1 := Step(y, Tick(at));
  }

  /** Workers that take one job after another at the same reading come to any job that can be claimed. */
  lemma {:induction false} ComesNext(ops: seq<Op>, y: System, id: string, at: int) returns (more: seq<Op>)
    requires y == Exec(START, ops) && id in y.st.jobs && CanBeClaimed(y.st.jobs[id], at)
    ensures var y1 := Exec(START, ops + more);
            IsNextJob(y1.st, at, id) && y1.st.jobs[id] == y.st.jobs[id] && y1.st.sessions == y.st.sessions
    decreases |Ahead(y.st, at, id)|
  {
    if IsNextJob(y.st, at, id) {
      more := [];
      assert ops + more == ops;
    } else {
      var op, y1 := ClaimFirst(ops, y, id, at);
      var rest := ComesNext(ops + [op], y1, id, at);
      more := [op] + rest;
      assert ops + more == ops + [op] + rest;
    }
  }

  lemma FewerAhead(y: System, id: string, first: string, at: int)
    requires id in y.st.jobs && first in y.st.jobs && first != id && IsNextJob(y.st, at, first)
    requires CanBeClaimed(y.st.jobs[first], at)
    ensures var y1 := Step(y, ClaimNext("worker", first, at));
            && id in y1.st.jobs && y1.st.jobs[id] == y.st.jobs[id] && y1.st.sessions == y.st.sessions
            && |Ahead(y1.st, at, id)| < |Ahead(y.st, at, id)|
  {
    var y1 := ClaimStep(y, "worker", first, at);
    assert Ahead(y1.st, at, id) == Ahead(y.st, at, id) - {first};
  }

  /** The job is done; a review job's session is reviewed, with this document unless it had one. */
  predicate DoneWith(st: Store, st': Store, job: Job, review: string) {
    && job.id in st'.jobs && st'.jobs[job.id].status == Done
    && (job.jobType == Finished ==>
          && job.sessionId in st.sessions && job.sessionId in st'.sessions
          && st'.sessions[job.sessionId].status == Reviewed
          && st'.sessions[job.sessionId].review ==
               if st.sessions[job.sessionId].status == Reviewed then st.sessions[job.sessionId].review else review)
  }

  /** The job is claimed, run without a fault and settled. */
  function ServeOps(y: System, id: string, at: int, review: string): seq<Op> {
    [ClaimNext("worker", id, at), RunClaim(|y.claims|, false, review), Settle(|y.claims|, false, "")]
  }

  /** One claim, run or settlement that the run may take. */
  lemma Claimed(ops: seq<Op>, y: System, id: string, at: int)
    requires y == Exec(START, ops) && IsNextJob(y.st, at, id)
    ensures Exec(START, ops + [ClaimNext("worker", id, at)]) == ClaimStep(y, "worker", id, at)
  {
    ExecMore(ops, ClaimNext("worker", id, at));
  }

  lemma Ran(ops: seq<Op>, y: System, k: nat, review: string)
    requires y == Exec(START, ops) && CanRun(y, k)
    ensures Exec(START, ops + [RunClaim(k, false, review)]) == RunStep(y, k, false, review)
  {
    ExecMore(ops, RunClaim(k, false, review));
  }

  lemma Settled(ops: seq<Op>, y: System, k: nat)
    requires y == Exec(START, ops) && CanSettle(y, k)
    ensures Exec(START, ops + [Settle(k, false, "")]) == SettleStep(y, k, false, "")
  {
    ExecMore(ops, Settle(k, false, ""));
  }

  lemma ServedIsDone(ops: seq<Op>, y: System, id: string, at: int, review: string) returns (y1: System)
    requires y == Exec(START, ops) && IsNextJob(y.st, at, id)
    ensures y1 == Exec(START, ops + ServeOps(y, id, at, review))
    ensures DoneWith(y.st, y1.st, y.st.jobs[id], review)
  {
    PlacedIn(ops, y, id);
    var ya := ClaimStep(y, "worker", id, at);
    var yb := RunStep(ya, |y.claims|, false, review);
    y1 := SettleStep(yb, |y.claims|, false, "");
    Serving(y, id, at, review, ya, yb, y1);
    ServedRun(ops, y, id, at, review, ya, yb, y1);
  }

  lemma PlacedIn(ops: seq<Op>, y: System, id: string)
    requires y == Exec(START, ops) && id in y.st.jobs
    ensures JobPlaced(y.st, y.st.jobs[id]) && y.st.jobs[id].id == id
  {
    ExecKeeps(ops);
  }

  lemma ServedRun(ops: seq<Op>, y: System, id: string, at: int, review: string, ya: System, yb: System, yc: System)
    requires y == Exec(START, ops) && IsNextJob(y.st, at, id)
    requires ya == ClaimStep(y, "worker", id, at) && CanRun(ya, |y.claims|)
    requires yb == RunStep(ya, |y.claims|, false, review) && CanSettle(yb, |y.claims|)
    requires yc == SettleStep(yb, |y.claims|, false, "")
    ensures yc == Exec(START, ops + ServeOps(y, id, at, review))
  {
    var k, serve := |y.claims|, ServeOps(y, id, at, review);
    Claimed(ops, y, id, at);
    Ran(ops + [serve[0]], ya, k, review);
    Settled(ops + [serve[0]] + [serve[1]], yb, k);
    assert ops + serve == ops + [serve[0]] + [serve[1]] + [serve[2]];
  }

  lemma Serving(y: System, id: string, at: int, review: string, ya: System, yb: System, yc: System)
    requires id in y.st.jobs && JobPlaced(y.st, y.st.jobs[id]) && y.st.jobs[id].id == id
    requires ya == ClaimStep(y, "worker", id, at) && yb == RunStep(ya, |y.claims|, false, review)
    requires yb.claims[|y.claims|].outcome.Some? && yc == SettleStep(yb, |y.claims|, false, "")
    ensures CanRun(ya, |y.claims|) && CanSettle(yb, |y.claims|)
    ensures DoneWith(y.st, yc.st, y.st.jobs[id], review)
  {
    RunSucceeds(ya, |y.claims|, review);
    assert yb.st.jobs[id].status == Processing;
  }

  lemma RunSucceeds(y: System, k: nat, review: string)
    requires k < |y.claims| && y.claims[k].sessionId in y.st.sessions
    requires var s := y.st.sessions[y.claims[k].sessionId].status; s == Ended || s == Reviewed
    ensures var c, y1 := y.claims[k], RunStep(y, k, false, review);
            && y1.st.jobs == y.st.jobs && y1.claims == y.claims[k := c.(outcome := Some(true))]
            && (c.jobType == Finished ==>
                  && c.sessionId in y1.st.sessions && y1.st.sessions[c.sessionId].status == Reviewed
                  && y1.st.sessions[c.sessionId].review ==
                       if y.st.sessions[c.sessionId].status == Reviewed then y.st.sessions[c.sessionId].review
                         else review)
  {
  }

  /**
   Every job can be brought to its end: from any state of any run a pending or processing job has a
   continuation of clock ticks, claims, a run and a settlement that leaves it done. A review job leaves its
   session reviewed, with the document of that run unless it already had one.
   */
  lemma EveryJobCanBeDone(ops: seq<Op>, y: System, id: string, review: string) returns (more: seq<Op>, y1: System)
    requires y == Exec(START, ops) && id in y.st.jobs
    requires y.st.jobs[id].status == Pending || y.st.jobs[id].status == Processing
    ensures y1 == Exec(START, ops + more)
    ensures DoneWith(y.st, y1.st, y.st.jobs[id], review)
  {
    var at := TimeToClaim(ops, y, id);
    var later := TickTo(ops, y, at);
    var rest;
    rest, y1 := DoneFrom(ops + [Tick(at)], later, id, at, review);
    more := [Tick(at)] + rest;
    assert ops + more == ops + [Tick(at)] + rest;
  }

  lemma TimeToClaim(ops: seq<Op>, y: System, id: string) returns (at: int)
    requires y == Exec(START, ops) && id in y.st.jobs
    requires y.st.jobs[id].status == Pending || y.st.jobs[id].status == Processing
    ensures y.st.jobs[id].id == id && CanBeClaimed(y.st.jobs[id], at)
  {
    ExecKeeps(ops);
    assert JobOk(y.st.jobs[id]);
    at := ClaimTime(y, y.st.jobs[id]);
  }

  lemma DoneFrom(ops: seq<Op>, y: System, id: string, at: int, review: string) returns (more: seq<Op>, y1: System)
    requires y == Exec(START, ops) && id in y.st.jobs && y.st.jobs[id].id == id && CanBeClaimed(y.st.jobs[id], at)
    ensures y1 == Exec(START, ops + more)
    ensures DoneWith(y.st, y1.st, y.st.jobs[id], review)
  {
    var claims := ComesNext(ops, y, id, at);
    var next := Exec(START, ops + claims);
    y1 := ServedIsDone(ops + claims, next, id, at, review);
    more := claims + ServeOps(next, id, at, review);
    assert ops + more == ops + claims + ServeOps(next, id, at, review);
  }

  /** A time from which on a worker may take the job. */
  function ClaimTime(y: System, job: Job): int {
    Latest(Latest(y.now, job.availableAt), if job.lockedAt.Some? then job.lockedAt.value + 120_000_000_000 else y.now)
  }

  function Latest(x: int, y: int): int { if x > y then x else y }

  /** An End of no session, or of one that does not exist, is refused without effect. */
  lemma EndOfNothingIsRefused(st: Store, req: EndRequest, ids: NewIds, now: int, evalOn: bool, crash: Crash)
    requires |req.items| <= |ids.utterances|
    ensures TrimSpace(req.sessionId) == "" ==>
              EndStep(st, req, ids, now, evalOn, crash) == (st, Some(Err(InvalidArgument)))
    ensures TrimSpace(req.sessionId) != "" && TrimSpace(req.sessionId) !in st.sessions ==>
              EndStep(st, req, ids, now, evalOn, crash) == (st, Some(Err(NotFound)))
  {
  }

  /** The learner said something in the stored transcript. */
  predicate SaidSomething(rows: seq<Utterance>) {
    exists i | 0 <= i < |rows| :: rows[i].speaker == User && TrimSpace(rows[i].text) != ""
  }

  /**
   Ending a session that was ended before changes neither session, transcript nor cost row and says so. It
   skips the review if and only if the session was abandoned, or ended without the learner saying anything.
   */
  lemma RepeatedEndMeans(st: Store, id: string, req: EndRequest, ids: NewIds, now: int, evalOn: bool)
    requires id in st.sessions && !Open(st, id) && TrimSpace(req.sessionId) == id != ""
             && |req.items| <= |ids.utterances|
    requires ids.finished !in st.jobs
    ensures var (st1, r) := EndStep(st, req, ids, now, evalOn, NoCrash);
            && st1.sessions == st.sessions && st1.utterances == st.utterances && st1.costLogs == st.costLogs
            && r.Some? && r.value.Ok?
            && var a, s := r.value.value, st.sessions[id];
            && a.already && a.status == s.status && a.durationSec == s.durationSec && a.count == |st.Transcript(id)|
            && (a.skipped <==> s.status == Abandoned || (s.status == Ended && !SaidSomething(st.Transcript(id))))
            && (s.status == Ended && SaidSomething(st.Transcript(id)) ==> ReviewStands(st1, id))
  {
    var s := st.sessions[id];
    assert EndStep(st, req, ids, now, evalOn, NoCrash) == EndKnown(st, id, req, ids, now, evalOn, NoCrash);
    assert HasUserSpeech(st.Transcript(id)) <==> SaidSomething(st.Transcript(id));
    EnqueueReviewStands(st, id, ids, now, evalOn, EndAnswer(s.status, s.durationSec, |st.Transcript(id)|, true, false));
    EnqueueingKeepsCosts(st, id, ids, now, evalOn,
                         EndAnswer(s.status, s.durationSec, |st.Transcript(id)|, true, false));
  }

  lemma EnqueueingKeepsCosts(st: Store, id: string, ids: NewIds, now: int, evalOn: bool, answer: EndAnswer)
    ensures EnqueueReview(st, id, ids, now, evalOn, NoCrash, answer).0.costLogs == st.costLogs
  {
  }

  /** The cost row of a first End: for its owner, with the model and whole seconds of the usage it reports. */
  lemma CostRowMeans(st: Store, id: string, req: EndRequest, ids: NewIds, now: int, evalOn: bool)
    requires Open(st, id) && TrimSpace(req.sessionId) == id != "" && |req.items| <= |ids.utterances|
             && WellFormed(req.items)
    ensures var st1 := EndStep(st, req, ids, now, evalOn, NoCrash).0;
            match req.usage
            case None => st1.costLogs == st.costLogs
            case Some(u) =>
              && ids.cost in st1.costLogs && st1.costLogs == st.costLogs[ids.cost := st1.costLogs[ids.cost]]
              && var row := st1.costLogs[ids.cost];
              && row.id == ids.cost && row.model == TrimSpace(u.model) && row.createdAt == now
              && (TrimSpace(st.sessions[id].userId) != "" ==> row.userId == Some(st.sessions[id].userId))
              && (u.uplinkMs >= 0 && u.downlinkMs >= 0 ==> row.audioSec == (u.uplinkMs + u.downlinkMs) / 1000)
  {
    WellFormedIsValid(req.items);
    OpenEndIs(st, id, req, ids, now, evalOn, NoCrash);
    var rows := ToUtterances(req.items, ids.utterances);
    var cost := BuildVoiceCostLog(st.sessions[id].userId, req.usage, ids.cost, now);
    var st0 := Commit(st, id, TerminalStatus(req.reason), req.durationSec, rows, cost);
    EnqueueingKeepsCosts(st0, id, ids, now, evalOn,
                         EndAnswer(TerminalStatus(req.reason), st0.sessions[id].durationSec, |rows|, false, false));
    CostRowIs(st.sessions[id].userId, req.usage, ids.cost, now);
  }

  lemma CostRowIs(user: string, usage: Option<VoiceUsage>, id: string, now: int)
    ensures usage.Some? ==>
              && BuildVoiceCostLog(user, usage, id, now).Some?
              && var row, u := BuildVoiceCostLog(user, usage, id, now).value, usage.value;
              && row.id == id && row.model == TrimSpace(u.model) && row.createdAt == now
              && (TrimSpace(user) != "" ==> row.userId == Some(user))
              && (u.uplinkMs >= 0 && u.downlinkMs >= 0 ==> row.audioSec == (u.uplinkMs + u.downlinkMs) / 1000)
  {
  }

  /** A merge hands over exactly the one user's sessions and changes nothing else of them. */
  lemma MergeMeans(st: Store, from: string, to: string)
    ensures var st1 := ReassignUser(st, from, to);
            && st1 == st.(sessions := st1.sessions) && st1.sessions.Keys == st.sessions.Keys
            && (forall id | id in st.sessions ::
                  st1.sessions[id] == if st.sessions[id].userId == from then st.sessions[id].(userId := to)
                    else st.sessions[id])
  {
  }
}
