/** The session store and service as objects (internal/session/memory_store.go, service.go, review.go). */
module SessionService {
  import opened Wrappers
  import opened Text
  import opened Ordering
  import opened SessionModel

  class MemoryStore {
    var sessions: map<string, Session>
    var utterances: map<string, seq<Utterance>>
    var jobs: map<string, Job>
    var costLogs: map<string, CostLog>

    constructor ()
      ensures Value() == Store(map[], map[], map[], map[])
    {
      sessions, utterances, jobs, costLogs := map[], map[], map[], map[];
    }

    function Value(): Store
      reads this
    {
      Store(sessions, utterances, jobs, costLogs)
    }

    method CreateSession(s: Session) returns (r: Result<()>)
      modifies this`sessions
      ensures (Value(), r) == SessionModel.CreateSession(old(Value()), s)
    {
      if s.id in sessions { return Err(Duplicate); }
      sessions := sessions[s.id := s];
      return Ok(());
    }

    method GetSession(id: string) returns (r: Result<Session>)
      ensures r == if id in sessions then Ok(sessions[id]) else Err(NotFound)
    {
      r := if id in sessions then Ok(sessions[id]) else Err(NotFound);
    }

    method MarkSessionActive(id: string) returns (r: Result<Session>)
      modifies this`sessions
      ensures (Value(), r) == SessionModel.MarkSessionActive(old(Value()), id)
    {
      if id !in sessions { return Err(NotFound); }
      var session := sessions[id];
      match session.status {
        case Active => return Ok(session);
        case Created =>
          session := session.(status := Active);
          sessions := sessions[id := session];
          return Ok(session);
        case _ => return Err(Conflict);
      }
    }

    method EndSession(id: string, terminal: Status, durationSec: int, rows: seq<Utterance>, cost: Option<CostLog>)
      returns (r: Result<EndOutcome>)
      modifies this
      ensures (Value(), r) == SessionModel.EndSession(old(Value()), id, terminal, durationSec, rows, cost)
    {
      if id !in sessions { return Err(NotFound); }
      var session := sessions[id];
      if IsTerminal(session.status) {
        return Ok(EndOutcome(session, Value().Transcript(id), true));
      }
      if session.status != Created && session.status != Active { return Err(Conflict); }
      var seconds := durationSec;
      if seconds < 0 { seconds := 0; }
      session := session.(status := terminal, durationSec := seconds);
      sessions := sessions[id := session];
      utterances := utterances[id := rows];
      if cost.Some? { costLogs := costLogs[cost.value.id := cost.value]; }
      return Ok(EndOutcome(session, rows, false));
    }

    method ReassignUser(from: string, to: string)
      modifies this`sessions
      ensures Value() == SessionModel.ReassignUser(old(Value()), from, to)
    {
      ghost var before := sessions;
      var todo := sessions.Keys;
      while todo != {}
        invariant todo <= sessions.Keys == before.Keys
        invariant forall id | id in sessions :: sessions[id] == if id in todo then before[id]
            else Handed(before[id], from, to)
        decreases |todo|
      {
        var id :| id in todo;
        todo := todo - {id};
        if sessions[id].userId == from { sessions := sessions[id := sessions[id].(userId := to)]; }
      }
    }

    method EnqueueJob(job: Job) returns (r: Result<()>)
      modifies this`jobs
      ensures (Value(), r) == SessionModel.EnqueueJob(old(Value()), job)
    {
      if job.id in jobs { return Err(Duplicate); }
      jobs := jobs[job.id := job];
      return Ok(());
    }

    method HasSessionJob(session: string, jobType: JobType, statuses: set<JobStatus>) returns (found: bool)
      ensures found == SessionModel.HasSessionJob(Value(), session, jobType, statuses)
    {
      var todo := jobs.Keys;
      while todo != {}
        invariant todo <= jobs.Keys
        invariant forall id | id in jobs && id !in todo ::
            !(jobs[id].sessionId == session && jobs[id].jobType == jobType && jobs[id].status in statuses)
        decreases |todo|
      {
        var id :| id in todo;
        todo := todo - {id};
        if jobs[id].sessionId == session && jobs[id].jobType == jobType && jobs[id].status in statuses { return true; }
      }
      return false;
    }

    /** The oldest claimable job, found with a running minimum over the map in whatever order it is read. */
    method SelectJob(at: int) returns (selected: Option<string>)
      requires forall id | id in jobs :: jobs[id].id == id
      ensures selected.Some? ==> IsNextJob(Value(), at, selected.value)
      ensures selected.None? ==> forall id | id in jobs :: !Claimable(jobs[id], at)
    {
      selected := None;
      var todo := jobs.Keys;
      StrLessOrder();
      while todo != {}
        invariant todo <= jobs.Keys
        invariant selected.None? ==> forall id | id in jobs && id !in todo :: !Claimable(jobs[id], at)
        invariant selected.Some? ==>
            selected.value in jobs && selected.value !in todo && Claimable(jobs[selected.value], at)
        invariant selected.Some? ==>
            forall id | id in jobs && id !in todo && id != selected.value && Claimable(jobs[id], at) ::
                OlderJob(jobs[selected.value], jobs[id])
        decreases |todo|
      {
        var id :| id in todo;
        todo := todo - {id};
        if Claimable(jobs[id], at) {
          if selected.None? || OlderJob(jobs[id], jobs[selected.value]) {
            selected := Some(id);
          }
        }
      }
    }

    method ClaimNextJob(worker: string, at: int) returns (r: Result<Job>)
      requires forall id | id in jobs :: jobs[id].id == id
      modifies this`jobs
      ensures r.Ok? ==>
                && IsNextJob(old(Value()), at, r.value.id)
                && Value() == ClaimJob(old(Value()), r.value.id, worker, at)
                && r.value == jobs[r.value.id]
      ensures r.Err? ==> Value() == old(Value()) && forall id | id in jobs :: !Claimable(jobs[id], at)
    {
      var selected := SelectJob(at);
      if selected.None? { return Err(NotFound); }
      var job := jobs[selected.value];
      job := job.(status := Processing, attempts := job.attempts + 1, lockedAt := Some(at), lockedBy := Some(worker));
      jobs := jobs[selected.value := job];
      return Ok(job);
    }

    method CompleteJob(id: string) returns (r: Result<()>)
      modifies this`jobs
      ensures (Value(), r) == SessionModel.CompleteJob(old(Value()), id)
    {
      if id !in jobs { return Err(NotFound); }
      if jobs[id].status != Processing { return Err(Conflict); }
      jobs := jobs[id := jobs[id].(status := Done, lockedAt := None, lockedBy := None)];
      return Ok(());
    }

    method FailJob(id: string, at: int, msg: string, delay: int) returns (r: Result<()>)
      modifies this`jobs
      ensures (Value(), r) == SessionModel.FailJob(old(Value()), id, at, msg, delay)
    {
      if id !in jobs { return Err(NotFound); }
      if jobs[id].status != Processing { return Err(Conflict); }
      var job := jobs[id].(lastError := Some(msg), lockedAt := None, lockedBy := None);
      if job.attempts < MAX_JOB_ATTEMPTS {
        job := job.(status := Pending, availableAt := at + delay);
      } else {
        job := job.(status := Failed);
      }
      jobs := jobs[id := job];
      return Ok(());
    }

    method MarkSessionReviewed(id: string, review: string) returns (r: Result<Session>)
      modifies this`sessions
      ensures (Value(), r) == SessionModel.MarkSessionReviewed(old(Value()), id, review)
    {
      if id !in sessions { return Err(NotFound); }
      var session := sessions[id];
      match session.status {
        case Reviewed => return Ok(session);
        case Ended =>
          session := session.(status := Reviewed, review := review);
          sessions := sessions[id := session];
          return Ok(session);
        case _ => return Err(Conflict);
      }
    }

    /** ListUtterances returns the transcript by sequence number. */
    method ListUtterances(id: string) returns (r: Result<seq<Utterance>>)
      ensures r == if id in sessions then Ok(Sort(BySeqNo, Value().Transcript(id))) else Err(NotFound)
    {
      r := if id in sessions then Ok(Sort(BySeqNo, Value().Transcript(id))) else Err(NotFound);
    }

    /** SaveUtteranceEval scores the row with this id, wherever the scan of the transcripts meets it. */
    method SaveUtteranceEval(id: string, eval: UtteranceEval) returns (r: Result<()>, ghost where: string)
      modifies this`utterances
      ensures r.Err? ==> utterances == old(utterances) && forall s | s in utterances :: !HasRow(utterances[s], id)
      ensures r.Ok? ==>
                && where in old(utterances) && HasRow(old(utterances)[where], id)
                && utterances == old(utterances)[where := Scored(old(utterances)[where], id, eval)]
    {
      where := "";
      var todo := utterances.Keys;
      while todo != {}
        invariant todo <= utterances.Keys && utterances == old(utterances)
        invariant forall s | s in utterances && s !in todo :: !HasRow(utterances[s], id)
        decreases |todo|
      {
        var session :| session in todo;
        todo := todo - {session};
        if HasRow(utterances[session], id) {
          utterances := utterances[session := Scored(utterances[session], id, eval)];
          where := session;
          return Ok(()), where;
        }
      }
      return Err(NotFound), where;
    }
  }

  predicate HasRow(rows: seq<Utterance>, id: string) { exists i | 0 <= i < |rows| :: rows[i].id == id }

  predicate BySeqNo(x: Utterance, y: Utterance) { x.seqNo < y.seqNo }

  /** The field checks of one transcript item. */
  method NormalizeItem(item: EndItem, id: string) returns (r: Result<Utterance>)
    ensures r == if ValidItem(item) then Ok(ToUtterance(item, id)) else Err(InvalidArgument)
  {
    if item.seqNo < 1 || item.seqNo > MAX_UTTERANCES { return Err(InvalidArgument); }
    var speaker := TrimSpace(item.speaker);
    if speaker != "user" && speaker != "ai" { return Err(InvalidArgument); }
    var text := TrimSpace(item.text);
    if text == "" || Utf8Len(text) > MAX_TEXT { return Err(InvalidArgument); }
    return Ok(Utterance(id, item.seqNo, if speaker == "user" then User else AI, text, item.interrupted, None));
  }

  /** The sequence numbers of the first i items are those seen, and none repeats. */
  ghost predicate SeenSoFar(items: seq<EndItem>, i: nat, seen: set<int>)
    requires i <= |items|
  {
    && (forall k | 0 <= k < i :: items[k].seqNo in seen)
    && (forall n | n in seen :: exists k | 0 <= k < i :: items[k].seqNo == n)
    && (forall j, k | 0 <= j < k < i :: items[j].seqNo != items[k].seqNo)
  }

  lemma SeenOneMore(items: seq<EndItem>, i: nat, seen: set<int>)
    requires i < |items| && SeenSoFar(items, i, seen)
    ensures items[i].seqNo !in seen ==> SeenSoFar(items, i + 1, seen + {items[i].seqNo})
    ensures items[i].seqNo in seen ==> !ValidItems(items)
  {
    var more := seen + {items[i].seqNo};
    forall n | n in more ensures exists k | 0 <= k < i + 1 :: items[k].seqNo == n {
      if n in seen { var k :| 0 <= k < i && items[k].seqNo == n; }
    }
  }

  /** normalizeEndUtterances, item by item, with its set of seen sequence numbers. */
  method NormalizeEndUtterances(items: seq<EndItem>, ids: seq<string>) returns (r: Result<seq<Utterance>>)
    requires |items| <= |ids|
    ensures r.Ok? <==> ValidItems(items)
    ensures r.Ok? ==> r.value == ToUtterances(items, ids)
  {
    if |items| > MAX_UTTERANCES { return Err(InvalidArgument); }
    var seen: set<int> := {};
    var out: seq<Utterance> := [];
    for i := 0 to |items|
      invariant SeenSoFar(items, i, seen)
      invariant forall k | 0 <= k < i :: ValidItem(items[k])
      invariant |out| == i && forall k | 0 <= k < i :: out[k] == ToUtterance(items[k], ids[k])
    {
      SeenOneMore(items, i, seen);
      if items[i].seqNo in seen { return Err(InvalidArgument); }
      var row := NormalizeItem(items[i], ids[i]);
      if row.Err? { return Err(InvalidArgument); }
      seen := seen + {items[i].seqNo};
      out := out + [row.value];
    }
    return Ok(out);
  }

  class Service {
    const store: MemoryStore
    const evalOn: bool

    constructor (store: MemoryStore, evalOn: bool)
      ensures this.store == store && this.evalOn == evalOn
    {
      this.store, this.evalOn := store, evalOn;
    }

    /** ensureSessionFinishedEnqueued, and EnqueueEval for the eval job. */
    method EnsureJobEnqueued(session: string, jobType: JobType, id: string, now: int) returns (r: Result<()>)
      modifies store`jobs
      ensures (store.Value(), r) == EnsureJob(old(store.Value()), session, jobType, id, now)
    {
      var exists_ := store.HasSessionJob(session, jobType, ACTIVE_OR_DONE);
      if exists_ { return Ok(()); }
      r := store.EnqueueJob(NewJob(id, session, jobType, now));
    }

    method EnqueueForReview(session: string, ids: NewIds, now: int, answer: EndAnswer) returns (r: Result<EndAnswer>)
      modifies store`jobs
      ensures (store.Value(), Some(r)) == EnqueueReview(old(store.Value()), session, ids, now, evalOn, NoCrash, answer)
    {
      var ensured := EnsureJobEnqueued(session, Finished, ids.finished, now);
      if ensured.Err? { return Err(ensured.error); }
      if evalOn {
        var evalEnsured := EnsureJobEnqueued(session, Eval, ids.eval, now);
      }
      return Ok(answer);
    }

    method EndOpen(id: string, req: EndRequest, ids: NewIds, now: int) returns (r: Result<EndAnswer>)
      requires id in store.sessions && (store.sessions[id].status == Created || store.sessions[id].status == Active)
               && |req.items| <= |ids.utterances|
      modifies store
      ensures (store.Value(), Some(r)) == FirstEnd(old(store.Value()), id, req, ids, now, evalOn, NoCrash)
    {
      var terminal := TerminalStatus(req.reason);
      var rows := NormalizeEndUtterances(req.items, ids.utterances);
      if rows.Err? { return Err(InvalidArgument); }
      var cost := BuildVoiceCostLog(store.sessions[id].userId, req.usage, ids.cost, now);
      var ended := store.EndSession(id, terminal, req.durationSec, rows.value, cost);
      var answer := EndAnswer(terminal, ended.value.session.durationSec, |ended.value.utterances|, false, false);
      if terminal == Abandoned || !HasUserSpeech(ended.value.utterances) { return Ok(answer.(skipped := true)); }
      r := EnqueueForReview(id, ids, now, answer);
    }

    /** End: commit first, enqueue afterwards, and compensate when called again. */
    method End(req: EndRequest, ids: NewIds, now: int) returns (r: Result<EndAnswer>)
      requires |req.items| <= |ids.utterances|
      modifies store
      ensures (store.Value(), Some(r)) == EndStep(old(store.Value()), req, ids, now, evalOn, NoCrash)
    {
      var id := TrimSpace(req.sessionId);
      if id == "" { return Err(InvalidArgument); }
      var existing := store.GetSession(id);
      if existing.Err? { return Err(NotFound); }
      r := EndExisting(id, req, ids, now);
    }

    method EndExisting(id: string, req: EndRequest, ids: NewIds, now: int) returns (r: Result<EndAnswer>)
      requires id in store.sessions && |req.items| <= |ids.utterances|
      modifies store
      ensures (store.Value(), Some(r)) == EndKnown(old(store.Value()), id, req, ids, now, evalOn, NoCrash)
    {
      var session := store.sessions[id];
      var saved := store.Value().Transcript(id);
      var again := EndAnswer(session.status, session.durationSec, |saved|, true, false);
      if session.status == Abandoned { return Ok(again.(skipped := true)); }
      if session.status == Reviewed { return Ok(again); }
      if session.status == Ended {
        if !HasUserSpeech(saved) { return Ok(again.(skipped := true)); }
        r := EnqueueForReview(id, ids, now, again);
        return;
      }
      r := EndOpen(id, req, ids, now);
    }

    /** GetReview, reading the failed job with the store's scan. */
    method GetReview(userId: string, sessionId: string) returns (r: Result<Poll>)
      ensures r == SessionModel.GetReview(store.Value(), userId, sessionId)
    {
      if Blank(userId) { return Err(Unauthenticated); }
      if Blank(sessionId) { return Err(InvalidArgument); }
      r := PollSession(TrimSpace(userId), TrimSpace(sessionId));
    }

    method PollSession(user: string, id: string) returns (r: Result<Poll>)
      ensures r == PollOf(store.Value(), user, id)
    {
      var found := store.GetSession(id);
      if found.Err? || found.value.userId != user || found.value.status == Abandoned { return Err(NotFound); }
      if found.value.status == Ended && found.value.review == "" && !HasUserSpeech(store.Value().Transcript(id)) {
        return Ok(PollEmpty);
      }
      if found.value.status == Reviewed { return Ok(PollReady(found.value.review)); }
      var failed := store.HasSessionJob(id, Finished, {Failed});
      return Ok(if failed then PollFailed else PollPending);
    }

    /** The work of one claimed job; fault stands for any error that leaves the session alone. */
    method RunJob(job: Job, fault: bool, review: string) returns (ok: bool)
      modifies store`sessions
      ensures (store.Value(), ok) ==
              if job.jobType == Finished then ProcessSessionFinished(old(store.Value()), job.sessionId, fault, review)
                else (old(store.Value()), !fault)
    {
      if job.jobType == Eval { return !fault; }
      if fault { return false; }
      var found := store.GetSession(job.sessionId);
      if found.Err? { return false; }
      if found.value.status == Reviewed { return true; }
      if found.value.status != Ended { return false; }
      var marked := store.MarkSessionReviewed(job.sessionId, review);
      return true;
    }

    /** Complete the job, or fail it when the run or the completion went wrong. */
    method SettleJob(id: string, at: int, ok: bool, msg: string) returns (r: Result<()>)
      modifies store`jobs
      ensures (store.Value(), r) == SessionModel.SettleJob(old(store.Value()), id, at, ok, msg)
    {
      if ok { r := store.CompleteJob(id); } else { r := store.FailJob(id, at, msg, DEFAULT_JOB_RETRY_DELAY); }
    }
  }
}
