/**
 Practice sessions and the review outbox as functions (internal/session/memory_store.go, service.go,
 review.go, voice_cost.go). Update stamps, tickets, materials and rescue events are left aside: no
 branch modelled here reads them.
 */
module SessionModel {
  import opened Wrappers
  import opened Text
  import opened Schedule

  datatype Status = Created | Active | Ended | Abandoned | Reviewed

  predicate IsTerminal(s: Status) { s == Ended || s == Abandoned }

  /** review is the stored review document; it is empty until the session is reviewed. */
  datatype Session = Session(id: string, userId: string, status: Status, durationSec: int, review: string)

  datatype Speaker = User | AI

  datatype UtteranceEval = UtteranceEval(score: real, grammar: real, fluency: real, vocabulary: real)

  datatype Utterance = Utterance(id: string, seqNo: int, speaker: Speaker, text: string, interrupted: bool,
                                 eval: Option<UtteranceEval>)

  datatype JobType = Finished | Eval

  datatype JobStatus = Pending | Processing | Done | Failed

  datatype Job = Job(
    id: string,
    sessionId: string,
    jobType: JobType,
    status: JobStatus,
    attempts: int,
    availableAt: int,
    lockedAt: Option<int>,
    lockedBy: Option<string>,
    lastError: Option<string>,
    createdAt: int)

  datatype CostLog = CostLog(id: string, model: string, audioSec: int, userId: Option<string>, createdAt: int)

  const MAX_JOB_ATTEMPTS := 2
  const DEFAULT_JOB_LEASE := 2 * MINUTE
  const DEFAULT_JOB_TIMEOUT := 60 * SECOND
  const EVAL_JOB_TIMEOUT := 90 * SECOND
  const SETTLE_TIMEOUT := 5 * SECOND
  const DEFAULT_JOB_RETRY_DELAY := 2 * SECOND

  datatype Store = Store(
    sessions: map<string, Session>,
    utterances: map<string, seq<Utterance>>,
    jobs: map<string, Job>,
    costLogs: map<string, CostLog>)
  {
    function Transcript(id: string): seq<Utterance> { if id in utterances then utterances[id] else [] }
  }

  function CreateSession(st: Store, s: Session): (Store, Result<()>) {
    if s.id in st.sessions then (st, Err(Duplicate)) else (st.(sessions := st.sessions[s.id := s]), Ok(()))
  }

  /** ReassignUser hands every session of one user to another. */
  function Handed(s: Session, from: string, to: string): Session { if s.userId == from then s.(userId := to) else s }

  function ReassignUser(st: Store, from: string, to: string): Store {
    st.(sessions := map id | id in st.sessions :: Handed(st.sessions[id], from, to))
  }

  function MarkSessionActive(st: Store, id: string): (Store, Result<Session>) {
    if id !in st.sessions then (st, Err(NotFound))
    else
      var s := st.sessions[id];
      match s.status
      case Active => (st, Ok(s))
      case Created => (st.(sessions := st.sessions[id := s.(status := Active)]), Ok(s.(status := Active)))
      case _ => (st, Err(Conflict))
  }

  /** The outcome of EndSession: the session, its transcript, and whether it had ended before. */
  datatype EndOutcome = EndOutcome(session: Session, utterances: seq<Utterance>, already: bool)

  /** EndSession's commit: status, duration, transcript and cost row together. */
  function Commit(st: Store, id: string, terminal: Status, durationSec: int, utterances: seq<Utterance>,
                  cost: Option<CostLog>): Store
    requires id in st.sessions
  {
    var s := st.sessions[id].(status := terminal, durationSec := if durationSec < 0 then 0 else durationSec);
    st.(sessions := st.sessions[id := s], utterances := st.utterances[id := utterances],
        costLogs := if cost.Some? then st.costLogs[cost.value.id := cost.value] else st.costLogs)
  }

  function EndSession(st: Store, id: string, terminal: Status, durationSec: int, utterances: seq<Utterance>,
                      cost: Option<CostLog>): (Store, Result<EndOutcome>) {
    if id !in st.sessions then (st, Err(NotFound))
    else if IsTerminal(st.sessions[id].status) then (st, Ok(EndOutcome(st.sessions[id], st.Transcript(id), true)))
    else if st.sessions[id].status == Reviewed then (st, Err(Conflict))
    else
      var st1 := Commit(st, id, terminal, durationSec, utterances, cost);
      (st1, Ok(EndOutcome(st1.sessions[id], utterances, false)))
  }

  function EnqueueJob(st: Store, job: Job): (Store, Result<()>) {
    if job.id in st.jobs then (st, Err(Duplicate)) else (st.(jobs := st.jobs[job.id := job]), Ok(()))
  }

  predicate HasSessionJob(st: Store, session: string, jobType: JobType, statuses: set<JobStatus>) {
    exists id | id in st.jobs ::
        st.jobs[id].sessionId == session && st.jobs[id].jobType == jobType && st.jobs[id].status in statuses
  }

  /** A pending job that is available, or a processing job whose lease has run out. */
  predicate Claimable(job: Job, at: int) {
    match job.status
    case Pending => job.availableAt <= at
    case Processing => job.lockedAt.Some? && job.lockedAt.value <= at - DEFAULT_JOB_LEASE
    case _ => false
  }

  predicate OlderJob(x: Job, y: Job) {
    x.createdAt < y.createdAt || (x.createdAt == y.createdAt && StrLess(x.id, y.id))
  }

  /** The job that ClaimNextJob picks: claimable, and older than every other claimable one. */
  ghost predicate IsNextJob(st: Store, at: int, id: string) {
    && id in st.jobs && Claimable(st.jobs[id], at)
    && (forall other | other in st.jobs && other != id && Claimable(st.jobs[other], at) ::
        OlderJob(st.jobs[id], st.jobs[other]))
  }

  function ClaimJob(st: Store, id: string, worker: string, at: int): Store
    requires id in st.jobs
  {
    var job := st.jobs[id];
    st.(jobs := st.jobs[id := job.(status := Processing, attempts := job.attempts + 1, lockedAt := Some(at),
                                   lockedBy := Some(worker))])
  }

  function CompleteJob(st: Store, id: string): (Store, Result<()>) {
    if id !in st.jobs then (st, Err(NotFound))
    else if st.jobs[id].status != Processing then (st, Err(Conflict))
    else (st.(jobs := st.jobs[id := st.jobs[id].(status := Done, lockedAt := None, lockedBy := None)]), Ok(()))
  }

  /** A failed attempt is retried while attempts remain. */
  function Retried(job: Job, at: int, msg: string, delay: int): Job {
    var j := job.(lastError := Some(msg), lockedAt := None, lockedBy := None);
    if job.attempts < MAX_JOB_ATTEMPTS then j.(status := Pending, availableAt := at + delay) else j.(status := Failed)
  }

  function FailJob(st: Store, id: string, at: int, msg: string, delay: int): (Store, Result<()>) {
    if id !in st.jobs then (st, Err(NotFound))
    else if st.jobs[id].status != Processing then (st, Err(Conflict))
    else (st.(jobs := st.jobs[id := Retried(st.jobs[id], at, msg, delay)]), Ok(()))
  }

  function MarkSessionReviewed(st: Store, id: string, review: string): (Store, Result<Session>) {
    if id !in st.sessions then (st, Err(NotFound))
    else
      var s := st.sessions[id];
      match s.status
      case Reviewed => (st, Ok(s))
      case Ended =>
        var s1 := s.(status := Reviewed, review := review);
        (st.(sessions := st.sessions[id := s1]), Ok(s1))
      case _ => (st, Err(Conflict))
  }

  predicate HasUserSpeech(utterances: seq<Utterance>) {
    exists i | 0 <= i < |utterances| :: utterances[i].speaker == User && !Blank(utterances[i].text)
  }

  datatype EndItem = EndItem(seqNo: int, speaker: string, text: string, interrupted: bool)

  datatype VoiceUsage = VoiceUsage(uplinkMs: int, downlinkMs: int, model: string)

  datatype EndRequest = EndRequest(sessionId: string, durationSec: int, reason: string, items: seq<EndItem>,
                                   usage: Option<VoiceUsage>)

  /** The ids that one End call draws. */
  datatype NewIds = NewIds(utterances: seq<string>, cost: string, finished: string, eval: string)

  const MAX_UTTERANCES := 500
  const MAX_TEXT := 32 * 1024

  predicate ValidItem(item: EndItem) {
    && 1 <= item.seqNo <= MAX_UTTERANCES
    && (TrimSpace(item.speaker) == "user" || TrimSpace(item.speaker) == "ai")
    && !Blank(item.text) && Utf8Len(TrimSpace(item.text)) <= MAX_TEXT
  }

  predicate ValidItems(items: seq<EndItem>) {
    && |items| <= MAX_UTTERANCES
    && (forall i | 0 <= i < |items| :: ValidItem(items[i]))
    && (forall i, j | 0 <= i < j < |items| :: items[i].seqNo != items[j].seqNo)
  }

  function ToUtterance(item: EndItem, id: string): Utterance {
    Utterance(id, item.seqNo, if TrimSpace(item.speaker) == "user" then User
        else AI, TrimSpace(item.text), item.interrupted, None)
  }

  function ToUtterances(items: seq<EndItem>, ids: seq<string>): (r: seq<Utterance>)
    requires |items| <= |ids|
    ensures |r| == |items| && forall i | 0 <= i < |items| :: r[i] == ToUtterance(items[i], ids[i])
  {
    seq(|items|, i requires 0 <= i < |items| => ToUtterance(items[i], ids[i]))
  }

  function Clamp(ms: int): int { if ms > 0 then ms else 0 }

  /** No usage, no row; otherwise whole seconds of the two clamped directions. */
  function BuildVoiceCostLog(user: string, usage: Option<VoiceUsage>, id: string, at: int): (r: Option<CostLog>)
    ensures r.Some? <==> usage.Some?
    ensures r.Some? ==>
              && r.value.audioSec >= 0
              && r.value.audioSec * 1000 <= Clamp(usage.value.uplinkMs)
                + Clamp(usage.value.downlinkMs) < r.value.audioSec * 1000 + 1000
  {
    match usage
    case None => None
    case Some(u) =>
      Some(CostLog(id, TrimSpace(u.model), (Clamp(u.uplinkMs) + Clamp(u.downlinkMs)) / 1000, if Blank(user) then None
                   else Some(user), at))
  }

  datatype EndAnswer = EndAnswer(status: Status, durationSec: int, count: nat, already: bool, skipped: bool)

  /** Where a crash interrupts End: after the commit, or after the review job was enqueued. */
  datatype Crash = NoCrash | AfterCommit | AfterFinished

  const ACTIVE_OR_DONE: set<JobStatus> := {Pending, Processing, Done}

  function NewJob(id: string, session: string, jobType: JobType, now: int): Job {
    Job(id, session, jobType, Pending, 0, now, None, None, None, now)
  }

  /** Enqueue a job unless one is pending, processing or done. */
  function EnsureJob(st: Store, session: string, jobType: JobType, id: string, now: int): (Store, Result<()>) {
    if HasSessionJob(st, session, jobType, ACTIVE_OR_DONE) then (st, Ok(()))
        else EnqueueJob(st, NewJob(id, session, jobType, now))
  }

  /** The enqueue half of End; None stands for a call that crashed and never returned. */
  function EnqueueReview(st: Store, session: string, ids: NewIds, now: int, evalOn: bool, crash: Crash,
                         answer: EndAnswer): (Store, Option<Result<EndAnswer>>) {
    if crash == AfterCommit then (st, None)
    else
      var (st1, r1) := EnsureJob(st, session, Finished, ids.finished, now);
      if r1.Err? then (st1, Some(Err(r1.error)))
      else if crash == AfterFinished then (st1, None)
      else (if evalOn then EnsureJob(st1, session, Eval, ids.eval, now).0 else st1, Some(Ok(answer)))
  }

  function TerminalStatus(reason: string): Status { if TrimSpace(reason) == "abandoned" then Abandoned else Ended }

  /** A first End of an open session. */
  function FirstEnd(st: Store, id: string, req: EndRequest, ids: NewIds, now: int, evalOn: bool,
                    crash: Crash): (Store, Option<Result<EndAnswer>>)
    requires id in st.sessions && |req.items| <= |ids.utterances|
  {
    if !ValidItems(req.items) then (st, Some(Err(InvalidArgument)))
    else
      var saved := ToUtterances(req.items, ids.utterances);
      var terminal := TerminalStatus(req.reason);
      var st1 := Commit(st, id, terminal, req.durationSec, saved,
                        BuildVoiceCostLog(st.sessions[id].userId, req.usage, ids.cost, now));
      var answer := EndAnswer(terminal, st1.sessions[id].durationSec, |saved|, false, false);
      if terminal == Abandoned || !HasUserSpeech(saved) then (st1, Some(Ok(answer.(skipped := true))))
      else EnqueueReview(st1, id, ids, now, evalOn, crash, answer)
  }

  /** End, with its ids, its clock reading and a possible crash as inputs. */
  function EndStep(st: Store, req: EndRequest, ids: NewIds, now: int, evalOn: bool,
                   crash: Crash): (Store, Option<Result<EndAnswer>>)
    requires |req.items| <= |ids.utterances|
  {
    var id := TrimSpace(req.sessionId);
    if id == "" then (st, Some(Err(InvalidArgument)))
    else if id !in st.sessions then (st, Some(Err(NotFound)))
    else EndKnown(st, id, req, ids, now, evalOn, crash)
  }

  function EndKnown(st: Store, id: string, req: EndRequest, ids: NewIds, now: int, evalOn: bool,
                    crash: Crash): (Store, Option<Result<EndAnswer>>)
    requires id in st.sessions && |req.items| <= |ids.utterances|
  {
    var s := st.sessions[id];
    var again := EndAnswer(s.status, s.durationSec, |st.Transcript(id)|, true, false);
    match s.status
    case Abandoned => (st, Some(Ok(again.(skipped := true))))
    case Reviewed => (st, Some(Ok(again)))
    case Ended =>
      if !HasUserSpeech(st.Transcript(id)) then (st, Some(Ok(again.(skipped := true))))
      else EnqueueReview(st, id, ids, now, evalOn, crash, again)
    case _ => FirstEnd(st, id, req, ids, now, evalOn, crash)
  }

  datatype Poll = PollPending | PollReady(review: string) | PollFailed | PollEmpty

  /** GetReview: what the review poll answers. */
  function GetReview(st: Store, userId: string, sessionId: string): Result<Poll> {
    var user, id := TrimSpace(userId), TrimSpace(sessionId);
    if user == "" then Err(Unauthenticated)
    else if id == "" then Err(InvalidArgument)
    else PollOf(st, user, id)
  }

  function PollOf(st: Store, user: string, id: string): Result<Poll> {
    if id !in st.sessions then Err(NotFound)
    else
      var s := st.sessions[id];
      if s.userId != user || s.status == Abandoned then Err(NotFound)
      else if s.status == Ended && s.review == "" && !HasUserSpeech(st.Transcript(id)) then Ok(PollEmpty)
      else if s.status == Reviewed then Ok(PollReady(s.review))
      else if HasSessionJob(st, id, Finished, {Failed}) then Ok(PollFailed)
      else Ok(PollPending)
  }

  /** The review half of runJob; fault stands for any error on the way that leaves the session alone. */
  function ProcessSessionFinished(st: Store, id: string, fault: bool, review: string): (Store, bool) {
    if fault || id !in st.sessions then (st, false)
    else if st.sessions[id].status == Reviewed then (st, true)
    else if st.sessions[id].status != Ended then (st, false)
    else (MarkSessionReviewed(st, id, review).0, true)
  }

  function Timeout(jobType: JobType): int { if jobType == Eval then EVAL_JOB_TIMEOUT else DEFAULT_JOB_TIMEOUT }

  /** Settling a claim: complete it, or fail it when the work or the completion went wrong. */
  function SettleJob(st: Store, id: string, at: int, ok: bool, msg: string): (Store, Result<()>) {
    if ok then CompleteJob(st, id) else FailJob(st, id, at, msg, DEFAULT_JOB_RETRY_DELAY)
  }

  function Scored(rows: seq<Utterance>, id: string, eval: UtteranceEval): seq<Utterance>
  {
    if rows == [] then []
    else if rows[0].id == id then [rows[0].(eval := Some(eval))] + rows[1..]
    else [rows[0]] + Scored(rows[1..], id, eval)
  }

  /** The transcript rows without their scores. */
  function Spoken(rows: seq<Utterance>): (r: seq<Utterance>)
    ensures |r| == |rows| && forall i | 0 <= i < |rows| :: r[i] == rows[i].(eval := None)
  {
    seq(|rows|, i requires 0 <= i < |rows| => rows[i].(eval := None))
  }
}
