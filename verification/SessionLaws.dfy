/** What the session protocol guarantees over every run, however late its workers are. */
module SessionLaws {
  import opened Wrappers
  import opened Text
  import opened Ordering
  import opened SessionModel
  import opened SessionRuns

  /**
   The job queue over every run: pending jobs are unlocked with attempts left, exactly processing jobs are
   locked, failed jobs have no attempts left, and a job's attempts count its claims.
   */
  lemma JobQueueInvariant(ops: seq<Op>, id: string)
    requires id in Exec(START, ops).st.jobs
    ensures var y := Exec(START, ops);
            JobOk(y.st.jobs[id]) && y.st.jobs[id].attempts == Claims(y.claims, id)
  {
    ExecKeeps(ops);
  }

  /** Done and failed jobs never change again. */
  lemma SettledJobsAreFinal(ops: seq<Op>, more: seq<Op>, id: string)
    requires id in Exec(START, ops).st.jobs
    requires Exec(START, ops).st.jobs[id].status == Done || Exec(START, ops).st.jobs[id].status == Failed
    ensures id in Exec(START, ops + more).st.jobs
    ensures Exec(START, ops + more).st.jobs[id] == Exec(START, ops).st.jobs[id]
  {
    RunsOnlyGrow(ops, more);
    assert JobGrows(Exec(START, ops).st, Exec(START, ops + more).st, id);
  }

  /**
   Across ends, repeated ends, crashes, claims and settlements: a session has at most one job of a type
   that has not failed, and a job exists only for an ended or reviewed session with user speech. A done
   review job means a reviewed session.
   */
  lemma OutboxInvariant(ops: seq<Op>, id: string, other: string)
    requires id in Exec(START, ops).st.jobs && other in Exec(START, ops).st.jobs
    ensures var st := Exec(START, ops).st;
            && (id != other ==> !Rivals(st.jobs[id], st.jobs[other]))
            && JobPlaced(st, st.jobs[id])
            && HasUserSpeech(st.Transcript(st.jobs[id].sessionId))
  {
    ExecKeeps(ops);
    var st := Exec(START, ops).st;
    assert Spoke(st, st.jobs[id].sessionId);
  }

  /** Every End that returns normally, does not skip and finds or leaves the session ended assures its review job. */
  lemma EndAssuresReview(ops: seq<Op>, req: EndRequest, ids: NewIds, evalOn: bool, crash: Crash)
    requires |req.items| <= |ids.utterances|
    ensures var y := Exec(START, ops);
            var (st, r) := EndStep(y.st, req, ids, y.now, evalOn, crash);
            r.Some? && r.value.Ok? && !r.value.value.skipped && r.value.value.status == Ended ==>
              HasSessionJob(st, TrimSpace(req.sessionId), Finished, {Pending, Processing, Done})
  {
    ExecKeeps(ops);
    var y := Exec(START, ops);
    EndStepIsQuiet(y.st, req, ids, y.now, evalOn, crash);
  }

  /**
   A repeated End compensates for a crash between the commit and the enqueue: whenever an ended session
   with user speech is ended again, with a fresh job id and no crash, the call succeeds, does not skip,
   and a review job stands.
   */
  lemma RepeatedEndCompensates(st: Store, id: string, req: EndRequest, ids: NewIds, now: int, evalOn: bool)
    requires id in st.sessions && st.sessions[id].status == Ended && HasUserSpeech(st.Transcript(id))
    requires TrimSpace(req.sessionId) == id != "" && |req.items| <= |ids.utterances| && ids.finished !in st.jobs
    requires StoreInv(st)
    ensures var (st1, r) := EndStep(st, req, ids, now, evalOn, NoCrash);
            && r.Some? && r.value.Ok? && r.value.value.already && !r.value.value.skipped
            && HasSessionJob(st1, id, Finished, {Pending, Processing, Done})
  {
    assert Spoke(st, id);
    EndStepIsQuiet(st, req, ids, now, evalOn, NoCrash);
    EndedAgain(st, id, req, ids, now, evalOn);
    assert EndStep(st, req, ids, now, evalOn, NoCrash) == EndKnown(st, id, req, ids, now, evalOn, NoCrash);
  }

  lemma EndedAgain(st: Store, id: string, req: EndRequest, ids: NewIds, now: int, evalOn: bool)
    requires id in st.sessions && st.sessions[id].status == Ended && Spoke(st, id)
    requires |req.items| <= |ids.utterances| && ids.finished !in st.jobs
    ensures EndKnown(st, id, req, ids, now, evalOn, NoCrash).1 ==
            Some(Ok(EndAnswer(Ended, st.sessions[id].durationSec, |st.Transcript(id)|, true, false)))
  {
  }

  /** Ready, empty and not-found are final; failed can only become ready; nothing returns to pending. */
  predicate PollAdvances(before: Result<Poll>, after: Result<Poll>) {
    match before
    case Err(_) => after == before
    case Ok(PollReady(_)) => after == before
    case Ok(PollEmpty) => after == before
    case Ok(PollFailed) => after == before || (after.Ok? && after.value.PollReady?)
    case Ok(PollPending) => true
  }

  lemma FailedJobSurvives(st: Store, st': Store, session: string)
    requires Grows(st, st') && HasSessionJob(st, session, Finished, {Failed})
    ensures HasSessionJob(st', session, Finished, {Failed})
  {
    var job :| job in st.jobs && st.jobs[job].sessionId == session && st.jobs[job].jobType == Finished
        && st.jobs[job].status == Failed;
    assert JobGrows(st, st', job);
  }

  /** A session that is still open has no job, so its poll is pending. */
  lemma OpenIsPending(st: Store, user: string, id: string)
    requires JobsPlaced(st) && id in st.sessions && st.sessions[id].userId == user && !Closed(st.sessions[id].status)
    ensures PollOf(st, user, id) == Ok(PollPending)
  {
    assert forall job | job in st.jobs :: JobPlaced(st, st.jobs[job]) && st.jobs[job].sessionId != id;
  }

  /** A closed session's poll: abandoned, reviewed, or ended in speech or not. */
  lemma ClosedPoll(st: Store, user: string, id: string)
    requires SessionsInv(st) && id in st.sessions && st.sessions[id].userId == user && Closed(st.sessions[id].status)
    ensures PollOf(st, user, id) ==
            match st.sessions[id].status
            case Abandoned => Err(NotFound)
            case Reviewed => Ok(PollReady(st.sessions[id].review))
            case _ => if !Spoke(st, id) then Ok(PollEmpty)
                else if HasSessionJob(st, id, Finished, {Failed}) then Ok(PollFailed) else Ok(PollPending)
  {
  }

  lemma SpeechIsFrozen(st: Store, st': Store, id: string)
    requires Grows(st, st') && id in st.sessions && Closed(st.sessions[id].status)
    ensures Spoke(st', id) == Spoke(st, id)
  {
    assert SessionGrows(st, st', id);
    SpeechIsSpoken(st.Transcript(id), st'.Transcript(id));
  }

  lemma PollGrows(st: Store, st': Store, owner: string, later: string, id: string)
    requires StoreInv(st) && StoreInv(st') && Grows(st, st')
    requires id in st.sessions && st.sessions[id].userId == owner
    requires id in st'.sessions && st'.sessions[id].userId == later
    ensures PollAdvances(PollOf(st, owner, id), PollOf(st', later, id))
  {
    assert SessionGrows(st, st', id);
    if !Closed(st.sessions[id].status) {
      OpenIsPending(st, owner, id);
    } else {
      ClosedPoll(st, owner, id);
      ClosedPoll(st', later, id);
      SpeechIsFrozen(st, st', id);
      ReviewedSpeech(st', id);
      if HasSessionJob(st, id, Finished, {Failed}) { FailedJobSurvives(st, st', id); }
    }
  }

  lemma ReviewedSpeech(st: Store, id: string)
    requires ReviewedSpoke(st) && id in st.sessions
    ensures st.sessions[id].status == Reviewed ==> Spoke(st, id)
  {
  }

  /**
   The review poll of whoever owns the session never regresses, whatever happens between two polls, a merge
   that hands the session to another account included.
   */
  lemma PollNeverRegresses(ops: seq<Op>, more: seq<Op>, owner: string, later: string, id: string)
    requires TrimSpace(id) in Exec(START, ops).st.sessions
    requires Exec(START, ops).st.sessions[TrimSpace(id)].userId == TrimSpace(owner) != ""
    requires TrimSpace(id) in Exec(START, ops + more).st.sessions
    requires Exec(START, ops + more).st.sessions[TrimSpace(id)].userId == TrimSpace(later) != ""
    ensures PollAdvances(GetReview(Exec(START, ops).st, owner, id), GetReview(Exec(START, ops + more).st, later, id))
  {
    ExecKeeps(ops);
    ExecKeeps(ops + more);
    RunsOnlyGrow(ops, more);
    PollGrows(Exec(START, ops).st, Exec(START, ops + more).st, TrimSpace(owner), TrimSpace(later), TrimSpace(id));
  }

  /**
   Who may read a session's review after a merge: the new owner, and the old one exactly when nothing was
   handed over.
   */
  lemma PollAfterMerge(st: Store, from: string, to: string, id: string)
    requires id in st.sessions && st.sessions[id].userId == from
    ensures PollOf(ReassignUser(st, from, to), to, id) == PollOf(st, from, id)
    ensures PollOf(ReassignUser(st, from, to), from, id) == PollOf(st, from, id) <==>
              from == to || st.sessions[id].status == Abandoned
  {
  }

  /**
   Session status only moves forward; once a session is closed its duration and its transcript (sequence,
   speaker, text) are frozen; its review document is empty until it is reviewed and never changes after.
   */
  lemma SessionsOnlyMoveForward(ops: seq<Op>, more: seq<Op>, id: string)
    requires id in Exec(START, ops).st.sessions
    ensures var st, st' := Exec(START, ops).st, Exec(START, ops + more).st;
            && id in st'.sessions
            && var s, s' := st.sessions[id], st'.sessions[id];
            && Forward(s.status, s'.status)
            && (Closed(s.status) ==>
                s'.durationSec == s.durationSec && Spoken(st'.Transcript(id)) == Spoken(st.Transcript(id)))
            && (s.status != Reviewed ==> s.review == "")
            && (s.status == Reviewed ==> s'.status == Reviewed && s'.review == s.review)
  {
    ExecKeeps(ops);
    RunsOnlyGrow(ops, more);
    assert SessionGrows(Exec(START, ops).st, Exec(START, ops + more).st, id);
  }

  ghost predicate BilledOnce(y: System) {
    && Distinct(y.billed)
    && |y.st.costLogs| <= |y.billed|
    && (forall id | id in y.billed :: id in y.st.sessions && Closed(y.st.sessions[id].status))
  }

  lemma CommittedIsClosed(st: Store, req: EndRequest, ids: NewIds, now: int, evalOn: bool, crash: Crash)
    requires Commits(st, req) && |req.items| <= |ids.utterances|
    ensures var id, st1 := TrimSpace(req.sessionId), EndStep(st, req, ids, now, evalOn, crash).0;
            id in st1.sessions && Closed(st1.sessions[id].status)
  {
    FirstEndCloses(st, TrimSpace(req.sessionId), req, ids, now, evalOn, crash);
  }

  lemma FirstEndCloses(st: Store, id: string, req: EndRequest, ids: NewIds, now: int, evalOn: bool, crash: Crash)
    requires id in st.sessions && ValidItems(req.items) && |req.items| <= |ids.utterances|
    ensures var st1 := FirstEnd(st, id, req, ids, now, evalOn, crash).0;
            id in st1.sessions && Closed(st1.sessions[id].status)
  {
    var saved, terminal := ToUtterances(req.items, ids.utterances), TerminalStatus(req.reason);
    var st1 := Commit(st, id, terminal, req.durationSec, saved,
                      BuildVoiceCostLog(st.sessions[id].userId, req.usage, ids.cost, now));
    EnqueueingOnlyAddsJobs(st1, id, ids, now, evalOn, crash,
                           EndAnswer(terminal, st1.sessions[id].durationSec, |saved|, false, false));
  }

  lemma EnqueueingOnlyAddsJobs(st: Store, session: string, ids: NewIds, now: int, evalOn: bool, crash: Crash,
                               answer: EndAnswer)
    ensures EnqueueReview(st, session, ids, now, evalOn, crash, answer).0.costLogs == st.costLogs
    ensures EnqueueReview(st, session, ids, now, evalOn, crash, answer).0.sessions == st.sessions
  {
  }

  lemma FirstEndBills(st: Store, id: string, req: EndRequest, ids: NewIds, now: int, evalOn: bool, crash: Crash)
    requires id in st.sessions && |req.items| <= |ids.utterances|
    ensures FirstEnd(st, id, req, ids, now, evalOn, crash).0.costLogs.Keys ==
            if ValidItems(req.items) && req.usage.Some? then st.costLogs.Keys + {ids.cost} else st.costLogs.Keys
  {
    if ValidItems(req.items) {
      var saved, terminal := ToUtterances(req.items, ids.utterances), TerminalStatus(req.reason);
      var st1 := Commit(st, id, terminal, req.durationSec, saved,
                        BuildVoiceCostLog(st.sessions[id].userId, req.usage, ids.cost, now));
      EnqueueingOnlyAddsJobs(st1, id, ids, now, evalOn, crash,
                             EndAnswer(terminal, st1.sessions[id].durationSec, |saved|, false, false));
    }
  }

  /** A repeated End writes no cost row. */
  lemma AgainEndDoesNotBill(st: Store, id: string, req: EndRequest, ids: NewIds, now: int, evalOn: bool, crash: Crash)
    requires id in st.sessions && |req.items| <= |ids.utterances| && Closed(st.sessions[id].status)
    ensures EndKnown(st, id, req, ids, now, evalOn, crash).0.costLogs == st.costLogs
  {
    var s := st.sessions[id];
    EnqueueingOnlyAddsJobs(st, id, ids, now, evalOn, crash,
                           EndAnswer(s.status, s.durationSec, |st.Transcript(id)|, true, false));
  }

  lemma OpenEndIsFirst(st: Store, id: string, req: EndRequest, ids: NewIds, now: int, evalOn: bool, crash: Crash)
    requires id in st.sessions && |req.items| <= |ids.utterances| && !Closed(st.sessions[id].status)
    ensures EndKnown(st, id, req, ids, now, evalOn, crash) == FirstEnd(st, id, req, ids, now, evalOn, crash)
  {
  }

  lemma KnownEndBills(st: Store, id: string, req: EndRequest, ids: NewIds, now: int, evalOn: bool, crash: Crash)
    requires id in st.sessions && |req.items| <= |ids.utterances|
    ensures EndKnown(st, id, req, ids, now, evalOn, crash).0.costLogs.Keys ==
            if !Closed(st.sessions[id].status) && ValidItems(req.items) && req.usage.Some?
                then st.costLogs.Keys + {ids.cost} else st.costLogs.Keys
  {
    if Closed(st.sessions[id].status) {
      AgainEndDoesNotBill(st, id, req, ids, now, evalOn, crash);
    } else {
      OpenEndIsFirst(st, id, req, ids, now, evalOn, crash);
      FirstEndBills(st, id, req, ids, now, evalOn, crash);
    }
  }

  /** End writes a cost row exactly when it commits with usage, and then one. */
  lemma EndBills(st: Store, req: EndRequest, ids: NewIds, now: int, evalOn: bool, crash: Crash)
    requires |req.items| <= |ids.utterances|
    ensures EndStep(st, req, ids, now, evalOn, crash).0.costLogs.Keys ==
            if Commits(st, req) && req.usage.Some? then st.costLogs.Keys + {ids.cost} else st.costLogs.Keys
  {
    var id := TrimSpace(req.sessionId);
    if id != "" && id in st.sessions { KnownEndBills(st, id, req, ids, now, evalOn, crash); }
  }

  /** Every step writes as many cost rows as it notes sessions as billed. */
  lemma CostRowsAreBilled(y: System, op: Op)
    requires |y.st.costLogs| <= |y.billed|
    ensures |Step(y, op).st.costLogs| <= |Step(y, op).billed|
  {
    if op.End? && |op.req.items| <= |op.ids.utterances| {
      EndBills(y.st, op.req, op.ids, y.now, op.evalOn, op.crash);
      var rows := EndStep(y.st, op.req, op.ids, y.now, op.evalOn, op.crash).0.costLogs;
      assert |rows| == |rows.Keys| && |y.st.costLogs| == |y.st.costLogs.Keys|;
    } else {
      OthersDoNotBill(y, op);
    }
  }

  lemma OthersDoNotBill(y: System, op: Op)
    requires op.End? ==> |op.req.items| > |op.ids.utterances|
    ensures Step(y, op).st.costLogs == y.st.costLogs && Step(y, op).billed == y.billed
  {
  }

  lemma BilledStayClosed(st: Store, st': Store, billed: seq<string>)
    requires Grows(st, st') && forall id | id in billed :: id in st.sessions && Closed(st.sessions[id].status)
    ensures forall id | id in billed :: id in st'.sessions && Closed(st'.sessions[id].status)
  {
    forall id | id in billed ensures id in st'.sessions && Closed(st'.sessions[id].status) {
      assert SessionGrows(st, st', id);
    }
  }

  /** A session that was open has not been billed before. */
  lemma BilledMore(st: Store, st': Store, billed: seq<string>, id: string)
    requires Grows(st, st') && Distinct(billed)
    requires forall other | other in billed :: other in st.sessions && Closed(st.sessions[other].status)
    requires id in st.sessions && !Closed(st.sessions[id].status)
    requires id in st'.sessions && Closed(st'.sessions[id].status)
    ensures Distinct(billed + [id])
    ensures forall other | other in billed + [id] :: other in st'.sessions && Closed(st'.sessions[other].status)
  {
    BilledStayClosed(st, st', billed);
    assert id !in billed;
  }

  /** The step notes a session as billed. */
  predicate Bills(y: System, op: Op) {
    op.End? && |op.req.items| <= |op.ids.utterances| && Commits(y.st, op.req) && op.req.usage.Some?
  }

  lemma BilledBy(y: System, op: Op)
    ensures Step(y, op).billed == if Bills(y, op) then y.billed + [TrimSpace(op.req.sessionId)] else y.billed
  {
  }

  lemma BillingStep(y: System, op: Op)
    requires Inv(y) && BilledOnce(y)
    ensures BilledOnce(Step(y, op))
  {
    StepKeeps(y, op);
    CostRowsAreBilled(y, op);
    BilledBy(y, op);
    if Bills(y, op) {
      EndCloses(y, op);
      BilledMore(y.st, Step(y, op).st, y.billed, TrimSpace(op.req.sessionId));
    } else {
      BilledStayClosed(y.st, Step(y, op).st, y.billed);
    }
  }

  lemma EndCloses(y: System, op: Op)
    requires Bills(y, op)
    ensures var id := TrimSpace(op.req.sessionId);
              id in Step(y, op).st.sessions && Closed(Step(y, op).st.sessions[id].status)
  {
    CommittedIsClosed(y.st, op.req, op.ids, y.now, op.evalOn, op.crash);
  }

  /**
   However often a session is ended, a voice-cost row is written for it at most once: the sessions billed
   are pairwise different and closed, and there is no cost row beyond theirs.
   */
  lemma {:induction false} SessionsAreBilledOnce(ops: seq<Op>)
    ensures BilledOnce(Exec(START, ops))
  {
    if ops != [] {
      var n := |ops| - 1;
      SessionsAreBilledOnce(ops[..n]);
      ExecKeeps(ops[..n]);
      BillingStep(Exec(START, ops[..n]), ops[n]);
    }
  }

  /** The claimable job that ClaimNextJob picks is unique, so the order in which jobs are read cannot matter. */
  lemma NextJobIsUnique(st: Store, at: int, x: string, y: string)
    requires IsNextJob(st, at, x) && IsNextJob(st, at, y)
    requires st.jobs[x].id == x && st.jobs[y].id == y
    ensures x == y
  {
    StrLessTotal(x, y);
  }

  /**
   Inserting a pending job keeps the one-active-job rule exactly when none of its kind is pending,
   processing or done.
   */
  lemma InsertIsSafeIff(st: Store, id: string, session: string, jobType: JobType, now: int)
    requires OneActiveJob(st) && id !in st.jobs
    ensures OneActiveJob(EnqueueJob(st, NewJob(id, session, jobType, now)).0) <==>
              !HasSessionJob(st, session, jobType, ACTIVE_OR_DONE)
  {
    var job := NewJob(id, session, jobType, now);
    var st1 := EnqueueJob(st, job).0;
    assert forall x | x in st.jobs :: st1.jobs[x] == st.jobs[x];
    if HasSessionJob(st, session, jobType, ACTIVE_OR_DONE) {
      var x :| x in st.jobs && st.jobs[x].sessionId == session && st.jobs[x].jobType == jobType
          && st.jobs[x].status in ACTIVE_OR_DONE;
      assert Rivals(st1.jobs[x], st1.jobs[id]);
    } else {
      forall x | x in st.jobs ensures !Rivals(st.jobs[x], job) {
        assert st.jobs[x].status in ACTIVE_OR_DONE || st.jobs[x].status == Failed;
      }
      PutJobOneActive(st, job);
    }
  }

  /**
   The uniqueness of active jobs rests on the check and the insert being one step: of two callers that both
   check before either inserts, the first keeps the rule and the second, whose check is out of date, breaks it.
   */
  lemma CheckThenActCanDuplicate(st: Store, session: string, jobType: JobType, x: string, y: string, now: int)
    requires OneActiveJob(st) && x != y && x !in st.jobs && y !in st.jobs
    requires !HasSessionJob(st, session, jobType, ACTIVE_OR_DONE)
    ensures var st1 := EnqueueJob(st, NewJob(x, session, jobType, now)).0;
            OneActiveJob(st1) && !OneActiveJob(EnqueueJob(st1, NewJob(y, session, jobType, now)).0)
  {
    InsertIsSafeIff(st, x, session, jobType, now);
    var st1 := EnqueueJob(st, NewJob(x, session, jobType, now)).0;
    assert st1.jobs[x].status in ACTIVE_OR_DONE;
    InsertIsSafeIff(st1, y, session, jobType, now);
  }
}
