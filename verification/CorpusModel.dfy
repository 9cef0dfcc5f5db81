/**
 The corpus store as a value, and each store operation as a function on it
 (internal/corpus/memory_store.go). The class in CorpusStore.dfy refines these functions.
 */
module CorpusModel {
  import opened Wrappers
  import opened Schedule
  import opened Text

  const SCENES: set<string> := {"standup", "review", "1on1", "interview", "casual"}
  const FUNCTIONS: set<string> := {"object", "clarify", "report", "propose", "agree", "disagree", "ask", "summarize",
      "defer", "commit"}

  const MILLISECOND := 1_000_000

  /** One phrase block; the ladder groups its state, success streak and next due time. */
  datatype PhraseBlock = PhraseBlock(
    id: string,
    userId: string,
    intent: string,
    expression: string,
    version: int,
    anchor: string,
    scene: string,
    function_: string,
    ladder: Ladder,
    realUseCount: int,
    totalUses: int,
    lastUsedAt: Option<int>,
    favorite: bool,
    pinnedAt: Option<int>,
    source: Option<string>,
    deletedAt: Option<int>,
    createdAt: int,
    updatedAt: int)

  datatype UseSource = FromHit | FromCheckin

  /** A provenance row of the real-use ledger. */
  datatype RealUse = RealUse(userId: string, blockId: string, source: UseSource, refId: string, usedAt: int)

  /** A row of the hit ledger. */
  datatype Use = Use(userId: string, sessionId: string, turnId: string, blockId: string, usedAtMs: int)

  datatype BlockEdit = BlockEdit(userId: string, blockId: string, version: int, oldText: string, newText: string,
                                 at: int)

  datatype Corpus = Corpus(
    schedule: Schedule,
    blocks: map<string, PhraseBlock>,
    uses: map<string, Use>,
    realUses: seq<RealUse>,
    edits: seq<BlockEdit>)
  {
    /** The guard every owner-facing store method starts with. */
    predicate Live(user: string, id: string) {
      id in blocks && blocks[id].userId == user && blocks[id].deletedAt.None?
    }

    function Put(b: PhraseBlock): Corpus { this.(blocks := blocks[b.id := b]) }
  }

  function ApplyJudge(s: Schedule, b: PhraseBlock, pass: bool, now: int): PhraseBlock {
    b.(ladder := s.Advance(b.ladder, pass, now), updatedAt := now)
  }

  /** Counters, last use and the ladder move of one credited use. */
  function Credit(s: Schedule, b: PhraseBlock, at: int): PhraseBlock {
    ApplyJudge(s, b.(realUseCount := b.realUseCount + 1, totalUses := b.totalUses + 1, lastUsedAt := Some(at)), true,
               at)
  }

  function UseKey(session: string, turn: string, block: string): string {
    session + "\0" + turn + "\0" + block
  }

  predicate HitCredits(c: Corpus, user: string, session: string, turn: string, id: string) {
    UseKey(session, turn, id) !in c.uses && c.Live(user, id)
  }

  /** One hit of a report: upsert the hit row; credit the block on the first insert only. */
  function RecordHit(c: Corpus, user: string, session: string, turn: string, id: string, ms: int): Corpus {
    var at := ms * MILLISECOND;
    var c1 := c.(uses := c.uses[UseKey(session, turn, id) := Use(user, session, turn, id, ms)]);
    if !HitCredits(c, user, session, turn, id) then c1
    else c1.(blocks := c.blocks[id := Credit(c.schedule, c.blocks[id], at)],
             realUses := c.realUses + [RealUse(user, id, FromHit, turn, at)])
  }

  predicate SameUse(x: RealUse, y: RealUse) {
    x.userId == y.userId && x.blockId == y.blockId && x.source == y.source && x.refId == y.refId
  }

  predicate Recorded(rows: seq<RealUse>, use: RealUse) {
    exists i | 0 <= i < |rows| :: SameUse(rows[i], use)
  }

  predicate UseCredits(c: Corpus, user: string, id: string, source: UseSource, ref: string, at: int) {
    c.Live(user, id) && !Recorded(c.realUses, RealUse(user, id, source, ref, at))
  }

  /** One block of a credit request: at most one ledger row per (user, block, source, reference). */
  function RecordRealUse(c: Corpus, user: string, id: string, source: UseSource, ref: string, at: int): Corpus {
    if !UseCredits(c, user, id, source, ref, at) then c
    else c.(blocks := c.blocks[id := Credit(c.schedule, c.blocks[id], at)],
            realUses := c.realUses + [RealUse(user, id, source, ref, at)])
  }

  function UpdateSchedule(c: Corpus, user: string, id: string, ladder: Ladder, at: int): Corpus {
    if !c.Live(user, id) then c
    else c.(blocks := c.blocks[id := c.blocks[id].(ladder := ladder, updatedAt := at)])
  }

  function ResetSchedule(c: Corpus, user: string, id: string, at: int): Corpus {
    UpdateSchedule(c, user, id, c.schedule.Restart(at), at)
  }

  /** UpdateBlock writes the text and tags; schedule, counters, pin and source stay the stored ones. */
  function UpdateBlock(c: Corpus, b: PhraseBlock): Corpus {
    if !c.Live(b.userId, b.id) then c
    else
      var stored := c.blocks[b.id];
      c.(blocks := c.blocks[b.id := stored.(intent := b.intent, expression := b.expression, version := b.version,
                                         anchor := b.anchor, scene := b.scene, function_ := b.function_,
                                           updatedAt := b.updatedAt)])
  }

  function SaveBlockEdit(c: Corpus, e: BlockEdit): Corpus {
    if !c.Live(e.userId, e.blockId) then c
    else c.(edits := c.edits + [e],
            blocks := c.blocks[e.blockId := c.blocks[e.blockId].(version := e.version, updatedAt := e.at)])
  }

  /** The text and tags that a learner may edit, or that an accepted block brings. */
  datatype Wording = Wording(intent: string, expression: string, anchor: string, scene: string, function_: string)

  function Cleaned(w: Wording): Wording {
    Wording(TrimSpace(w.intent), TrimSpace(w.expression), TrimSpace(w.anchor), ToLower(TrimSpace(w.scene)),
            ToLower(TrimSpace(w.function_)))
  }

  predicate ValidWording(w: Wording) {
    !Blank(w.intent) && !Blank(w.expression) && !Blank(w.anchor) && w.scene in SCENES && w.function_ in FUNCTIONS
  }

  function Reworded(b: PhraseBlock, w: Wording, now: int): PhraseBlock {
    b.(intent := w.intent, expression := w.expression, anchor := w.anchor, scene := w.scene, function_ := w.function_,
       updatedAt := now)
  }

  /** The service's UpdateBlock: a changed sentence is logged, versioned and starts over on the ladder. */
  function EditBlock(c: Corpus, user: string, id: string, w: Wording, now: int): Corpus {
    if c.Live(user, id) && ValidWording(w) then Rewrite(c, user, id, w, now) else c
  }

  function Rewrite(c: Corpus, user: string, id: string, w: Wording, now: int): Corpus
    requires c.Live(user, id)
  {
    var before := c.blocks[id];
    var c1 := UpdateBlock(c, Reworded(before, w, now));
    if w.expression == before.expression then c1
    else
      var edit := BlockEdit(user, id, before.version + 1, before.expression, w.expression, now);
      ResetSchedule(SaveBlockEdit(c1, edit), user, id, now)
  }

  function SetFavorite(c: Corpus, user: string, id: string, favorite: bool, pinnedAt: Option<int>, at: int): Corpus {
    if !c.Live(user, id) then c
    else c.(blocks := c.blocks[id := c.blocks[id].(favorite := favorite, pinnedAt := pinnedAt, updatedAt := at)])
  }

  function SoftDelete(c: Corpus, user: string, id: string, at: int): Corpus {
    if !c.Live(user, id) then c
    else c.(blocks := c.blocks[id := c.blocks[id].(deletedAt := Some(at), updatedAt := at)])
  }

  function ReassignUser(c: Corpus, from: string, to: string): Corpus {
    c.(blocks := map id | id in c.blocks :: Reowned(c.blocks[id], from, to))
  }

  function Reowned(b: PhraseBlock, from: string, to: string): PhraseBlock {
    if b.userId == from then b.(userId := to) else b
  }

  /** SweepOverdue: live blocks due before the horizon become due now. */
  function SweepOverdue(c: Corpus, user: string, dueBefore: int, at: int): Corpus {
    c.(blocks := map id | id in c.blocks :: Swept(c.blocks[id], user, dueBefore, at))
  }

  predicate Overdue(b: PhraseBlock, user: string, dueBefore: int) {
    b.userId == user && b.deletedAt.None? && b.ladder.due < dueBefore
  }

  function Swept(b: PhraseBlock, user: string, dueBefore: int, at: int): PhraseBlock {
    if Overdue(b, user, dueBefore) then b.(ladder := b.ladder.(due := at), updatedAt := at) else b
  }

  /** The natural key that makes an accepted block the same row as a stored one. */
  predicate SameNaturalKey(x: PhraseBlock, y: PhraseBlock) {
    && x.userId == y.userId
    && Deref(x.source) == Deref(y.source)
    && x.expression == y.expression
    && x.anchor == y.anchor
    && x.scene == y.scene
    && x.function_ == y.function_
  }

  function Deref(s: Option<string>): string { if s.Some? then s.value else "" }

  /** The stored row an accepted block is the same as, if any; which one is up to map iteration. */
  predicate Finds(c: Corpus, b: PhraseBlock, found: Option<string>) {
    match found
    case Some(id) => id in c.blocks && SameNaturalKey(c.blocks[id], b)
    case None => forall id | id in c.blocks :: !SameNaturalKey(c.blocks[id], b)
  }

  function Revived(stored: PhraseBlock, b: PhraseBlock): PhraseBlock {
    stored.(deletedAt := None, intent := b.intent, expression := b.expression, anchor := b.anchor, scene := b.scene,
         function_ := b.function_, source := b.source, updatedAt := b.updatedAt)
  }

  function AtFirstVersion(b: PhraseBlock): PhraseBlock { if b.version < 1 then b.(version := 1) else b }

  /** One block of SaveAcceptedBlocks: insert it, revive its deleted row, or keep its live row. */
  function SaveAccepted(c: Corpus, b: PhraseBlock, found: Option<string>): Corpus
    requires Finds(c, b, found)
  {
    match found
    case None => c.Put(AtFirstVersion(b))
    case Some(id) =>
      if c.blocks[id].deletedAt.None? then c
      else c.(blocks := c.blocks[id := Revived(c.blocks[id], b)])
  }

  /** The row that SaveAcceptedBlocks hands back for one accepted block. */
  function SavedRow(c: Corpus, b: PhraseBlock, found: Option<string>): PhraseBlock
    requires Finds(c, b, found)
  {
    match found
    case None => AtFirstVersion(b)
    case Some(id) => if c.blocks[id].deletedAt.None? then c.blocks[id] else Revived(c.blocks[id], b)
  }

  /** The rows found for a whole request, block by block, each in the store its predecessors left. */
  ghost predicate FindsAll(c: Corpus, bs: seq<PhraseBlock>, founds: seq<Option<string>>)
    decreases |bs|, 0
  {
    |founds| == |bs| &&
    (bs != [] ==>
       var n := |bs| - 1;
       FindsAll(c, bs[..n], founds[..n]) && Finds(SaveAllAccepted(c, bs[..n], founds[..n]), bs[n], founds[n]))
  }

  ghost function SaveAllAccepted(c: Corpus, bs: seq<PhraseBlock>, founds: seq<Option<string>>): Corpus
    requires FindsAll(c, bs, founds)
    decreases |bs|, 1
  {
    if bs == [] then c
    else
      var n := |bs| - 1;
      SaveAccepted(SaveAllAccepted(c, bs[..n], founds[..n]), bs[n], founds[n])
  }

  /** The rows that a whole request hands back, before they are sorted. */
  ghost function SavedRows(c: Corpus, bs: seq<PhraseBlock>, founds: seq<Option<string>>): seq<PhraseBlock>
    requires FindsAll(c, bs, founds)
  {
    if bs == [] then []
    else
      var n := |bs| - 1;
      SavedRows(c, bs[..n], founds[..n]) + [SavedRow(SaveAllAccepted(c, bs[..n], founds[..n]), bs[n], founds[n])]
  }
}
