/**
 Drill attempts, their ledger and appeals, as functions (internal/drill/service.go, record_store.go).
 The ledger keeps what these operations read: session id, response time, recognised text and the
 judge's reason are carried along by the program and decide nothing.
 */
module DrillModel {
  import opened Wrappers
  import opened Text
  import opened Schedule
  import opened CorpusModel

  /** One attempt; prev is the schedule before it, missing on rows older than the snapshot. */
  datatype Record = Record(
    id: nat,
    userId: string,
    blockId: string,
    judged: bool,
    pass: bool,
    prev: Option<Ladder>,
    appealedAt: Option<int>,
    createdAt: int)

  datatype World = World(blocks: map<string, PhraseBlock>, nextId: nat, records: seq<Record>)
  {
    predicate Live(user: string, id: string) {
      id in blocks && blocks[id].userId == user && blocks[id].deletedAt.None?
    }

    function Reschedule(id: string, ladder: Ladder, at: int): World
      requires id in blocks
    {
      this.(blocks := blocks[id := blocks[id].(ladder := ladder, updatedAt := at)])
    }

    function Insert(rec: Record): World {
      this.(nextId := nextId + 1, records := records + [rec.(id := nextId + 1)])
    }
  }

  /** What the judge said of an attempt: nothing, or pass or fail. */
  datatype Verdict = Unjudged | Judged(pass: bool)

  datatype JudgeAnswer = JudgeAnswer(pass: bool, judged: bool, retryable: bool, ladder: Ladder, recordId: nat,
                                     promoted: bool)

  datatype Note = NoNote | AlreadyAppealed | NotJudged | Passed | NoSnapshot | NewerAttempt

  datatype AppealAnswer = AppealAnswer(recordId: nat, blockId: string, restored: bool, already: bool, note: Note,
                                       ladder: Option<Ladder>)

  function JudgeStep(s: Schedule, w: World, userId: string, blockId: string, asr: string, verdict: Verdict,
                     now: int): (World, Result<JudgeAnswer>) {
    var user, id := TrimSpace(userId), TrimSpace(blockId);
    if user == "" then (w, Err(Unauthenticated))
    else if id == "" || Blank(asr) then (w, Err(InvalidArgument))
    else if id !in w.blocks || w.blocks[id].deletedAt.Some? then (w, Err(NotFound))
    else if w.blocks[id].userId != user then (w, Err(PermissionDenied))
    else Attempt(s, w, user, id, verdict, now)
  }

  /** Judge past its checks: move the ladder unless unjudged, and file the attempt with its snapshot. */
  function Attempt(s: Schedule, w: World, user: string, id: string, verdict: Verdict,
                   now: int): (World, Result<JudgeAnswer>)
    requires w.Live(user, id)
  {
    var before := w.blocks[id].ladder;
    match verdict
    case Unjudged =>
      (w.Insert(Record(0, user, id, false, false, Some(before), None, now)),
       Ok(JudgeAnswer(false, false, true, before, w.nextId + 1, false)))
    case Judged(pass) =>
      var after := s.Advance(before, pass, now);
      (w.Reschedule(id, after, now).Insert(Record(0, user, id, true, pass, Some(before), None, now)),
       Ok(JudgeAnswer(pass, true, false, after, w.nextId + 1, after.state == Automated && before.state != Automated)))
  }

  predicate Owns(rec: Record, user: string, id: nat) { rec.id == id && rec.userId == user }

  /** The first row with this id and owner. */
  function Lookup(records: seq<Record>, user: string, id: nat): (r: Option<nat>)
    ensures r.Some? ==> r.value < |records| && Owns(records[r.value], user, id)
    ensures r.None? ==> forall i | 0 <= i < |records| :: !Owns(records[i], user, id)
  {
    if records == [] then None
    else
      var n := |records| - 1;
      var earlier := Lookup(records[..n], user, id);
      if earlier.Some? then earlier else if Owns(records[n], user, id) then Some(n) else None
  }

  /** The greatest id among the learner's attempts on a block; zero when there is none. */
  function LatestId(records: seq<Record>, user: string, block: string): (r: nat)
    ensures forall i | 0 <= i < |records| && records[i].userId == user && records[i].blockId == block ::
              records[i].id <= r
    ensures r == 0 || exists i | 0 <= i < |records| ::
              records[i].userId == user && records[i].blockId == block && records[i].id == r
  {
    if records == [] then 0
    else
      var n := |records| - 1;
      var r := LatestId(records[..n], user, block);
      if records[n].userId == user && records[n].blockId == block && records[n].id > r then records[n].id else r
  }

  function BlockState(w: World, user: string, block: string): Option<Ladder> {
    if w.Live(user, block) then Some(w.blocks[block].ladder) else None
  }

  function Stamped(w: World, k: nat, at: int): World
    requires k < |w.records|
  {
    w.(records := w.records[k := w.records[k].(appealedAt := Some(at))])
  }

  /** An appeal that restores nothing stamps the attempt and says why. */
  function Noted(w: World, user: string, k: nat, now: int, note: Note): (World, Result<AppealAnswer>)
    requires k < |w.records|
  {
    var rec := w.records[k];
    (Stamped(w, k, now), Ok(AppealAnswer(rec.id, rec.blockId, false, false, note, BlockState(w, user, rec.blockId))))
  }

  function Restored(w: World, k: nat, now: int): World
    requires k < |w.records| && w.records[k].prev.Some? && w.records[k].blockId in w.blocks
  {
    Stamped(w.Reschedule(w.records[k].blockId, w.records[k].prev.value, now), k, now)
  }

  /** Appeal past its checks: the dispute of the k-th ledger row. */
  function Dispute(w: World, user: string, k: nat, now: int): (World, Result<AppealAnswer>)
    requires k < |w.records|
  {
    var rec := w.records[k];
    if rec.appealedAt.Some?
        then (w, Ok(AppealAnswer(rec.id, rec.blockId, false, true, AlreadyAppealed, BlockState(w, user, rec.blockId))))
    else if !rec.judged then Noted(w, user, k, now, NotJudged)
    else if rec.pass then Noted(w, user, k, now, Passed)
    else if rec.prev.None? then Noted(w, user, k, now, NoSnapshot)
    else if LatestId(w.records, user, rec.blockId) != rec.id then Noted(w, user, k, now, NewerAttempt)
    else if !w.Live(user, rec.blockId) then (w, Err(NotFound))
    else (Restored(w, k, now), Ok(AppealAnswer(rec.id, rec.blockId, true, false, NoNote, rec.prev)))
  }

  function AppealStep(w: World, userId: string, recordId: int, now: int): (World, Result<AppealAnswer>) {
    var user := TrimSpace(userId);
    if user == "" then (w, Err(Unauthenticated))
    else if recordId <= 0 then (w, Err(InvalidArgument))
    else
      match Lookup(w.records, user, recordId)
      case None => (w, Err(NotFound))
      case Some(k) => Dispute(w, user, k, now)
  }
}
