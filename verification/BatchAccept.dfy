/**
 Admitting refined expressions into the corpus (internal/corpus/service.go, BatchAccept): an expression
 the learner already owns joins the block it already is, by normal form.
 */
module BatchAccept {
  import opened Wrappers
  import opened Text
  import opened Ordering
  import opened Schedule
  import opened CorpusModel
  import opened Tables
  import opened Expressions
  import Paging

  const DEDUPE_SCAN_LIMIT := 500

  /** The first midnight after now. */
  function NextDueForNew(now: int): int { now - now % DAY + DAY }

  function StringPtr(s: string): Option<string> { if Blank(s) then None else Some(s) }

  /** The block that an accepted item would become. */
  function AcceptedBlock(user: string, session: string, now: int, id: string, item: Wording): PhraseBlock {
    var w := Cleaned(item);
    PhraseBlock(id, user, w.intent, w.expression, 0, w.anchor, w.scene, w.function_, Ladder(New, 0, NextDueForNew(now)),
                0, 0, None, false, None, StringPtr(session), None, now, now)
  }

  function AcceptedBlocks(user: string, session: string, now: int, ids: seq<string>,
                          items: seq<Wording>): (r: seq<PhraseBlock>)
    requires |ids| == |items|
    ensures |r| == |items|
    ensures forall i | 0 <= i < |items| :: r[i] == AcceptedBlock(user, session, now, ids[i], items[i])
  {
    seq(|items|, i requires 0 <= i < |items| => AcceptedBlock(user, session, now, ids[i], items[i]))
  }

  function FormOf(b: PhraseBlock): string { NormalizeExpression(b.expression) }

  function LiveOf(user: string): PhraseBlock -> bool { (b: PhraseBlock) => b.userId == user && b.deletedAt.None? }

  /** The blocks the dedupe scan reads: the learner's live blocks, at most 500 of them. */
  function Scan(rows: seq<PhraseBlock>, user: string): seq<PhraseBlock> {
    Paging.Select(Paging.BrowseMemory, Keep(LiveOf(user), rows), None, DEDUPE_SCAN_LIMIT)
  }

  function ByExpression(blocks: seq<PhraseBlock>): map<string, PhraseBlock> {
    if blocks == [] then map[]
    else
      var last := blocks[|blocks| - 1];
      ByExpression(blocks[..|blocks| - 1])[FormOf(last) := last]
  }

  /** What a request comes to: blocks to save, and blocks that were already there. */
  datatype Plan = Plan(added: seq<PhraseBlock>, merged: seq<PhraseBlock>, known: map<string, PhraseBlock>)

  function PlanFor(known: map<string, PhraseBlock>, blocks: seq<PhraseBlock>): Plan {
    if blocks == [] then Plan([], [], known)
    else
      var n := |blocks| - 1;
      var plan, b := PlanFor(known, blocks[..n]), blocks[n];
      if FormOf(b) in plan.known then plan.(merged := plan.merged + [plan.known[FormOf(b)]])
      else plan.(added := plan.added + [b], known := plan.known[FormOf(b) := b])
  }

  ghost function LiveIds(c: Corpus, user: string): set<string> { set id | id in c.blocks && c.Live(user, id) }

  /** The normal forms a learner's live blocks have. */
  ghost function Forms(c: Corpus, user: string): set<string> {
    set id | id in LiveIds(c, user) :: FormOf(c.blocks[id])
  }

  /** No two live blocks of the learner are the same expression. */
  ghost predicate FormsApart(c: Corpus, user: string) {
    forall x, y | x in LiveIds(c, user) && y in LiveIds(c, user) && x != y :: FormOf(c.blocks[x]) != FormOf(c.blocks[y])
  }

  ghost predicate Keyed(c: Corpus) { forall id | id in c.blocks :: c.blocks[id].id == id }

  function FormsIn(blocks: seq<PhraseBlock>): set<string> {
    if blocks == [] then {} else FormsIn(blocks[..|blocks| - 1]) + {FormOf(blocks[|blocks| - 1])}
  }

  /** Each block's form is neither known nor an earlier block's. */
  predicate Novel(known: set<string>, blocks: seq<PhraseBlock>) {
    blocks == [] ||
    var n := |blocks| - 1;
    Novel(known, blocks[..n]) && FormOf(blocks[n]) !in known + FormsIn(blocks[..n])
  }

  lemma {:induction false} FormsInMembers(blocks: seq<PhraseBlock>)
    ensures forall b | b in blocks :: FormOf(b) in FormsIn(blocks)
    ensures forall form | form in FormsIn(blocks) :: exists b | b in blocks :: FormOf(b) == form
  {
    if blocks != [] {
      var n := |blocks| - 1;
      FormsInMembers(blocks[..n]);
      assert blocks == blocks[..n] + [blocks[n]];
      assert blocks[n] in blocks;
    }
  }

  lemma {:induction false} ByExpressionKeys(blocks: seq<PhraseBlock>)
    ensures ByExpression(blocks).Keys == FormsIn(blocks)
  {
    if blocks != [] { ByExpressionKeys(blocks[..|blocks| - 1]); }
  }

  lemma NovelMore(known: set<string>, blocks: seq<PhraseBlock>, b: PhraseBlock)
    requires Novel(known, blocks) && FormOf(b) !in known + FormsIn(blocks)
    ensures Novel(known, blocks + [b])
    ensures FormsIn(blocks + [b]) == FormsIn(blocks) + {FormOf(b)}
  {
    assert (blocks + [b])[..|blocks|] == blocks;
  }

  lemma {:induction false} PlanCounts(known: map<string, PhraseBlock>, blocks: seq<PhraseBlock>)
    ensures |PlanFor(known, blocks).added| + |PlanFor(known, blocks).merged| == |blocks|
  {
    if blocks != [] { PlanCounts(known, blocks[..|blocks| - 1]); }
  }

  /** The next item's form becomes known, whether it was or not. */
  lemma {:induction false} PlanKnows(known: map<string, PhraseBlock>, blocks: seq<PhraseBlock>)
    ensures PlanFor(known, blocks).known.Keys == known.Keys + FormsIn(blocks)
  {
    if blocks != [] {
      var n := |blocks| - 1;
      PlanKnows(known, blocks[..n]);
      var before, form := PlanFor(known, blocks[..n]).known.Keys, FormOf(blocks[n]);
      AddOne(known.Keys, before, before + {form}, FormsIn(blocks[..n]), form);
      PlanStep(known, blocks);
    }
  }

  lemma {:induction false} PlanIsNovel(known: map<string, PhraseBlock>, blocks: seq<PhraseBlock>)
    ensures Novel(known.Keys, PlanFor(known, blocks).added)
    ensures PlanFor(known, blocks).known.Keys == known.Keys + FormsIn(PlanFor(known, blocks).added)
  {
    if blocks != [] {
      var n := |blocks| - 1;
      PlanIsNovel(known, blocks[..n]);
      PlanStep(known, blocks);
      NovelStep(known.Keys, PlanFor(known, blocks[..n]), PlanFor(known, blocks), blocks[n]);
    }
  }

  lemma PlanStep(known: map<string, PhraseBlock>, blocks: seq<PhraseBlock>)
    requires blocks != []
    ensures var n := |blocks| - 1;
            var before, plan, form := PlanFor(known, blocks[..n]), PlanFor(known, blocks), FormOf(blocks[n]);
            && plan.added == (if form in before.known.Keys then before.added else before.added + [blocks[n]])
            && plan.known.Keys == before.known.Keys + {form}
  {
  }

  lemma NovelStep(known: set<string>, before: Plan, plan: Plan, b: PhraseBlock)
    requires Novel(known, before.added) && before.known.Keys == known + FormsIn(before.added)
    requires plan.added == (if FormOf(b) in before.known.Keys then before.added else before.added + [b])
    requires plan.known.Keys == before.known.Keys + {FormOf(b)}
    ensures Novel(known, plan.added) && plan.known.Keys == known + FormsIn(plan.added)
  {
    if FormOf(b) !in before.known.Keys {
      NovelMore(known, before.added, b);
      AddOne(known, before.known.Keys, plan.known.Keys, FormsIn(before.added), FormOf(b));
    }
  }

  /** The plan accounts for every item; the blocks it adds are new forms, pairwise different. */
  lemma PlanIsSound(known: map<string, PhraseBlock>, blocks: seq<PhraseBlock>)
    ensures var plan := PlanFor(known, blocks);
            && |plan.added| + |plan.merged| == |blocks|
            && Novel(known.Keys, plan.added)
            && plan.known.Keys == known.Keys + FormsIn(plan.added) == known.Keys + FormsIn(blocks)
  {
    PlanCounts(known, blocks);
    PlanKnows(known, blocks);
    PlanIsNovel(known, blocks);
  }

  lemma {:induction false} PlanAddsItems(known: map<string, PhraseBlock>, blocks: seq<PhraseBlock>)
    requires OneRowPerId(blocks)
    ensures OneRowPerId(PlanFor(known, blocks).added)
    ensures forall b | b in PlanFor(known, blocks).added :: b in blocks
  {
    if blocks != [] {
      var n := |blocks| - 1;
      PlanAddsItems(known, blocks[..n]);
      var added := PlanFor(known, blocks[..n]).added;
      assert blocks == blocks[..n] + [blocks[n]];
      forall i | 0 <= i < |added| ensures added[i].id != blocks[n].id {
        assert added[i] in blocks[..n];
      }
    }
  }

  /** A request whose forms are all known saves nothing and merges everything. */
  lemma {:induction false} PlanOfKnownForms(known: map<string, PhraseBlock>, blocks: seq<PhraseBlock>)
    requires forall b | b in blocks :: FormOf(b) in known
    ensures PlanFor(known, blocks).added == [] && |PlanFor(known, blocks).merged| == |blocks|
    ensures PlanFor(known, blocks).known == known
  {
    if blocks != [] {
      var n := |blocks| - 1;
      assert blocks == blocks[..n] + [blocks[n]];
      PlanOfKnownForms(known, blocks[..n]);
    }
  }

  /** A row of the learner's becomes live under an id that was not. */
  ghost predicate GoesLive(c: Corpus, c1: Corpus, user: string, id: string, row: PhraseBlock) {
    c1.blocks == c.blocks[id := row] && row.userId == user && row.deletedAt.None? && !c.Live(user, id)
  }

  lemma LiveIdAdded(c: Corpus, c1: Corpus, user: string, id: string, row: PhraseBlock)
    requires GoesLive(c, c1, user, id, row)
    ensures LiveIds(c1, user) == LiveIds(c, user) + {id}
    ensures id !in LiveIds(c, user)
    ensures forall x | x in LiveIds(c, user) :: c1.blocks[x] == c.blocks[x]
  {
  }

  lemma FormAdded(c: Corpus, c1: Corpus, user: string, id: string, row: PhraseBlock)
    requires GoesLive(c, c1, user, id, row)
    ensures Forms(c1, user) == Forms(c, user) + {FormOf(row)}
  {
    LiveIdAdded(c, c1, user, id, row);
    forall form ensures form in Forms(c1, user) <==> form in Forms(c, user) + {FormOf(row)} {
      if form in Forms(c, user) {
        var x :| x in LiveIds(c, user) && FormOf(c.blocks[x]) == form;
        assert x in LiveIds(c1, user);
      }
      assert id in LiveIds(c1, user);
    }
  }

  lemma NewFormIsApart(c: Corpus, c1: Corpus, user: string, id: string, row: PhraseBlock)
    requires GoesLive(c, c1, user, id, row) && FormOf(row) !in Forms(c, user) && FormsApart(c, user)
    ensures FormsApart(c1, user)
  {
    LiveIdAdded(c, c1, user, id, row);
    assert forall x | x in LiveIds(c, user) :: FormOf(c.blocks[x]) in Forms(c, user);
  }

  /** The store after one block of a new form was saved. */
  ghost predicate GainedOne(c: Corpus, c1: Corpus, b: PhraseBlock) {
    && Keyed(c1)
    && FormsApart(c1, b.userId)
    && Forms(c1, b.userId) == Forms(c, b.userId) + {FormOf(b)}
    && |LiveIds(c1, b.userId)| <= |LiveIds(c, b.userId)| + 1
    && c1.blocks.Keys <= c.blocks.Keys + {b.id}
  }

  lemma InsertOne(c: Corpus, b: PhraseBlock)
    requires Keyed(c) && Finds(c, b, None) && b.id !in c.blocks && b.deletedAt.None?
    requires FormsApart(c, b.userId) && FormOf(b) !in Forms(c, b.userId)
    ensures GainedOne(c, SaveAccepted(c, b, None), b)
  {
    var c1, row := SaveAccepted(c, b, None), AtFirstVersion(b);
    LiveIdAdded(c, c1, b.userId, b.id, row);
    FormAdded(c, c1, b.userId, b.id, row);
    NewFormIsApart(c, c1, b.userId, b.id, row);
  }

  lemma ReviveOne(c: Corpus, b: PhraseBlock, id: string)
    requires Keyed(c) && Finds(c, b, Some(id)) && b.deletedAt.None?
    requires FormsApart(c, b.userId) && FormOf(b) !in Forms(c, b.userId)
    ensures GainedOne(c, SaveAccepted(c, b, Some(id)), b)
  {
    var c1, row := SaveAccepted(c, b, Some(id)), Revived(c.blocks[id], b);
    assert FormOf(c.blocks[id]) == FormOf(b) == FormOf(row);
    assert id in LiveIds(c, b.userId) ==> FormOf(b) in Forms(c, b.userId);
    LiveIdAdded(c, c1, b.userId, id, row);
    FormAdded(c, c1, b.userId, id, row);
    NewFormIsApart(c, c1, b.userId, id, row);
  }

  /** Saving one block of a form the learner does not have live adds exactly that form. */
  lemma SaveOne(c: Corpus, b: PhraseBlock, found: Option<string>)
    requires Keyed(c) && Finds(c, b, found) && b.id !in c.blocks && b.deletedAt.None?
    requires FormsApart(c, b.userId) && FormOf(b) !in Forms(c, b.userId)
    ensures GainedOne(c, SaveAccepted(c, b, found), b)
  {
    match found
    case None => InsertOne(c, b);
    case Some(id) => ReviveOne(c, b, id);
  }

  function Ids(rows: seq<PhraseBlock>): (r: seq<string>)
    ensures |r| == |rows| && forall i | 0 <= i < |rows| :: r[i] == rows[i].id
  {
    seq(|rows|, i requires 0 <= i < |rows| => rows[i].id)
  }

  function IdsIn(blocks: seq<PhraseBlock>): set<string> {
    if blocks == [] then {} else IdsIn(blocks[..|blocks| - 1]) + {blocks[|blocks| - 1].id}
  }

  lemma {:induction false} IdsInMembers(blocks: seq<PhraseBlock>, id: string)
    requires id in IdsIn(blocks)
    ensures exists i | 0 <= i < |blocks| :: blocks[i].id == id
  {
    var n := |blocks| - 1;
    if blocks[n].id != id { IdsInMembers(blocks[..n], id); }
  }

  /** The store gained live rows of exactly the forms of these blocks. */
  ghost predicate Gained(c: Corpus, c1: Corpus, user: string, blocks: seq<PhraseBlock>) {
    && Keyed(c1)
    && FormsApart(c1, user)
    && Forms(c1, user) == Forms(c, user) + FormsIn(blocks)
    && |LiveIds(c1, user)| <= |LiveIds(c, user)| + |blocks|
    && c1.blocks.Keys <= c.blocks.Keys + IdsIn(blocks)
  }

  lemma OneMore(rest: seq<PhraseBlock>, b: PhraseBlock)
    ensures FormsIn(rest + [b]) == FormsIn(rest) + {FormOf(b)}
    ensures IdsIn(rest + [b]) == IdsIn(rest) + {b.id}
  {
    assert (rest + [b])[..|rest|] == rest;
  }

  lemma AddOne(before: set<string>, middle: set<string>, after: set<string>, added: set<string>, x: string)
    requires middle == before + added && after == middle + {x}
    ensures after == before + (added + {x})
  {
  }

  lemma GainedOneMore(c: Corpus, c0: Corpus, c1: Corpus, user: string, rest: seq<PhraseBlock>, b: PhraseBlock)
    requires Gained(c, c0, user, rest) && GainedOne(c0, c1, b) && b.userId == user
    ensures Gained(c, c1, user, rest + [b])
  {
    OneMore(rest, b);
    AddOne(Forms(c, user), Forms(c0, user), Forms(c1, user), FormsIn(rest), FormOf(b));
  }

  /** The blocks before the last are new, and so is the last. */
  lemma NewButLast(c: Corpus, user: string, blocks: seq<PhraseBlock>)
    requires NewBlocks(c, user, blocks) && blocks != []
    ensures NewBlocks(c, user, blocks[..|blocks| - 1])
    ensures var b := blocks[|blocks| - 1]; b.userId == user && b.deletedAt.None? && b.id !in c.blocks
  {
    assert blocks[|blocks| - 1] in blocks;
  }

  lemma {:induction false} SaveAll(c: Corpus, user: string, blocks: seq<PhraseBlock>, founds: seq<Option<string>>)
    requires Keyed(c) && FormsApart(c, user) && FindsAll(c, blocks, founds)
    requires NewBlocks(c, user, blocks) && Novel(Forms(c, user), blocks)
    ensures Gained(c, SaveAllAccepted(c, blocks, founds), user, blocks)
  {
    if blocks != [] {
      var n := |blocks| - 1;
      assert blocks == blocks[..n] + [blocks[n]];
      NewButLast(c, user, blocks);
      SaveAll(c, user, blocks[..n], founds[..n]);
      IdNotUsed(blocks, n);
      SaveLast(c, SaveAllAccepted(c, blocks[..n], founds[..n]), user, blocks[..n], blocks[n], founds[n]);
    }
  }

  /** One more block after those already saved. */
  lemma SaveLast(c: Corpus, c0: Corpus, user: string, rest: seq<PhraseBlock>, b: PhraseBlock, found: Option<string>)
    requires Gained(c, c0, user, rest) && Finds(c0, b, found)
    requires b.userId == user && b.deletedAt.None? && b.id !in c.blocks && b.id !in IdsIn(rest)
    requires FormOf(b) !in Forms(c, user) + FormsIn(rest)
    ensures Gained(c, SaveAccepted(c0, b, found), user, rest + [b])
  {
    assert b.id !in c0.blocks;
    SaveOne(c0, b, found);
    GainedOneMore(c, c0, SaveAccepted(c0, b, found), user, rest, b);
  }

  lemma IdNotUsed(blocks: seq<PhraseBlock>, n: nat)
    requires OneRowPerId(blocks) && n < |blocks|
    ensures blocks[n].id !in IdsIn(blocks[..n])
  {
    if blocks[n].id in IdsIn(blocks[..n]) { IdsInMembers(blocks[..n], blocks[n].id); }
  }

  /** The rows of the learner's live blocks, counted by id. */
  lemma LiveRows(c: Corpus, rows: seq<PhraseBlock>, user: string)
    requires Keyed(c) && Enumerates(rows, c.blocks)
    ensures var live := Keep(LiveOf(user), rows);
            && OneRowPerId(live)
            && |live| == |LiveIds(c, user)|
            && forall b :: b in live <==> b.id in LiveIds(c, user) && c.blocks[b.id] == b
  {
    var live := Keep(LiveOf(user), rows);
    KeepIsAFilter(LiveOf(user), rows);
    KeepKeepsIdsApart(LiveOf(user), rows);
    DistinctCount(Ids(live));
    forall id ensures id in Ids(live) <==> id in LiveIds(c, user) {
      if id in LiveIds(c, user) {
        assert c.blocks[id] in live;
        var i :| 0 <= i < |live| && live[i] == c.blocks[id];
        assert Ids(live)[i] == id;
      }
    }
    assert (set id | id in Ids(live)) == LiveIds(c, user);
  }

  /** When the learner's live blocks fit in the scan, the scan knows exactly their forms. */
  lemma ScanSeesEveryForm(c: Corpus, rows: seq<PhraseBlock>, user: string)
    requires Keyed(c) && Enumerates(rows, c.blocks) && |LiveIds(c, user)| <= 500
    ensures ByExpression(Scan(rows, user)).Keys == Forms(c, user)
  {
    LiveRows(c, rows, user);
    ScanIsTheLiveRows(rows, user);
    ByExpressionKeys(Scan(rows, user));
    FormsOfLiveRows(c, user, Scan(rows, user));
  }

  lemma ScanIsTheLiveRows(rows: seq<PhraseBlock>, user: string)
    requires OneRowPerId(Keep(LiveOf(user), rows)) && |Keep(LiveOf(user), rows)| <= DEDUPE_SCAN_LIMIT
    ensures forall b :: b in Scan(rows, user) <==> b in Keep(LiveOf(user), rows)
  {
    var live := Keep(LiveOf(user), rows);
    Paging.FirstPage(Paging.BrowseMemory, live, DEDUPE_SCAN_LIMIT);
    Paging.OrderLists(Paging.BrowseMemory);
    ListingIsStrict(Paging.Order(Paging.BrowseMemory), live);
  }

  lemma FormsOfLiveRows(c: Corpus, user: string, scan: seq<PhraseBlock>)
    requires Keyed(c) && forall b :: b in scan <==> b.id in LiveIds(c, user) && c.blocks[b.id] == b
    ensures FormsIn(scan) == Forms(c, user)
  {
    FormsInMembers(scan);
    forall form ensures form in FormsIn(scan) <==> form in Forms(c, user) {
      if form in FormsIn(scan) {
        var b :| b in scan && FormOf(b) == form;
        assert b.id in LiveIds(c, user);
      }
      if form in Forms(c, user) {
        var id :| id in LiveIds(c, user) && FormOf(c.blocks[id]) == form;
        assert c.blocks[id] in scan;
      }
    }
  }

  /** One accepted request: its plan, read off the scan, and the store it leaves. */
  ghost predicate Accepts(c: Corpus, rows: seq<PhraseBlock>, user: string, blocks: seq<PhraseBlock>,
                          founds: seq<Option<string>>, plan: Plan, c1: Corpus) {
    && Enumerates(rows, c.blocks)
    && plan == PlanFor(ByExpression(Scan(rows, user)), blocks)
    && FindsAll(c, plan.added, founds)
    && c1 == SaveAllAccepted(c, plan.added, founds)
  }

  /** The blocks of a request: owned by the learner, live, under ids not used before. */
  ghost predicate NewBlocks(c: Corpus, user: string, blocks: seq<PhraseBlock>) {
    && OneRowPerId(blocks)
    && (forall b | b in blocks :: b.userId == user && b.deletedAt.None? && b.id !in c.blocks)
  }

  /**
   While the learner's live blocks fit in the scan, accepting keeps them pairwise distinct by normal
   form, repeats inside the request and revived rows included, and leaves every accepted form live.
   */
  lemma AcceptKeepsFormsApart(c: Corpus, rows: seq<PhraseBlock>, user: string, blocks: seq<PhraseBlock>,
                              founds: seq<Option<string>>, plan: Plan, c1: Corpus)
    requires Keyed(c) && FormsApart(c, user) && |LiveIds(c, user)| <= 500
    requires NewBlocks(c, user, blocks) && Accepts(c, rows, user, blocks, founds, plan, c1)
    ensures Keyed(c1) && FormsApart(c1, user)
    ensures Forms(c1, user) == Forms(c, user) + FormsIn(blocks)
    ensures |LiveIds(c1, user)| <= |LiveIds(c, user)| + |blocks|
    ensures |plan.added| + |plan.merged| == |blocks|
  {
    ScanSeesEveryForm(c, rows, user);
    var known := ByExpression(Scan(rows, user));
    PlanIsSound(known, blocks);
    PlanAddsItems(known, blocks);
    SaveAll(c, user, plan.added, founds);
  }

  /** The blocks of a request under new ids are new. */
  lemma AcceptedAreNew(c: Corpus, user: string, session: string, now: int, ids: seq<string>, items: seq<Wording>)
    requires |ids| == |items| && Distinct(ids) && forall id | id in ids :: id !in c.blocks
    ensures NewBlocks(c, user, AcceptedBlocks(user, session, now, ids, items))
  {
  }

  /** A request of known forms accepts nothing, merges all and leaves the store unchanged. */
  lemma KnownFormsAddNothing(c: Corpus, rows: seq<PhraseBlock>, user: string, blocks: seq<PhraseBlock>,
                             founds: seq<Option<string>>,
                             plan: Plan, c1: Corpus)
    requires Keyed(c) && |LiveIds(c, user)| <= 500 && Accepts(c, rows, user, blocks, founds, plan, c1)
    requires forall b | b in blocks :: FormOf(b) in Forms(c, user)
    ensures plan.added == [] && |plan.merged| == |blocks| && c1 == c
  {
    ScanSeesEveryForm(c, rows, user);
    PlanOfKnownForms(ByExpression(Scan(rows, user)), blocks);
  }

  /**
   Repeating a request, at any later time and under other new ids, accepts nothing, merges every item and
   leaves the store unchanged, so long as the live blocks and the request together fit in the scan.
   */
  lemma AcceptingTwiceIsAcceptingOnce(c: Corpus, user: string, session: string, items: seq<Wording>,
                                      rows: seq<PhraseBlock>, now: int, ids: seq<string>, founds: seq<Option<string>>,
                                      plan: Plan, c1: Corpus,
                                      rows1: seq<PhraseBlock>, later: int, ids1: seq<string>,
                                      founds1: seq<Option<string>>, plan1: Plan, c2: Corpus)
    requires Keyed(c) && FormsApart(c, user) && |LiveIds(c, user)| + |items| <= 500
    requires |ids| == |items| == |ids1| && Distinct(ids) && forall id | id in ids :: id !in c.blocks
    requires Accepts(c, rows, user, AcceptedBlocks(user, session, now, ids, items), founds, plan, c1)
    requires Accepts(c1, rows1, user, AcceptedBlocks(user, session, later, ids1, items), founds1, plan1, c2)
    ensures |plan.added| + |plan.merged| == |items|
    ensures plan1.added == [] && |plan1.merged| == |items|
    ensures c2 == c1
  {
    var blocks, again := AcceptedBlocks(user, session, now, ids, items),
        AcceptedBlocks(user, session, later, ids1, items);
    AcceptedAreNew(c, user, session, now, ids, items);
    SameItemsSameExpressions(user, session, now, later, ids, ids1, items);
    RepeatedRequest(c, user, blocks, again, rows, founds, plan, c1, rows1, founds1, plan1, c2);
  }

  lemma SameItemsSameExpressions(user: string, session: string, now: int, later: int, ids: seq<string>,
                                 ids1: seq<string>, items: seq<Wording>)
    requires |ids| == |ids1| == |items|
    ensures SameExpressions(AcceptedBlocks(user, session, now, ids, items),
                            AcceptedBlocks(user, session, later, ids1, items))
  {
  }

  predicate SameExpressions(blocks: seq<PhraseBlock>, again: seq<PhraseBlock>) {
    |again| == |blocks| && forall i | 0 <= i < |blocks| :: again[i].expression == blocks[i].expression
  }

  lemma RepeatedRequest(c: Corpus, user: string, blocks: seq<PhraseBlock>, again: seq<PhraseBlock>,
                        rows: seq<PhraseBlock>, founds: seq<Option<string>>, plan: Plan, c1: Corpus,
                        rows1: seq<PhraseBlock>, founds1: seq<Option<string>>, plan1: Plan, c2: Corpus)
    requires Keyed(c) && FormsApart(c, user) && |LiveIds(c, user)| + |blocks| <= 500
    requires NewBlocks(c, user, blocks) && Accepts(c, rows, user, blocks, founds, plan, c1)
    requires SameExpressions(blocks, again) && Accepts(c1, rows1, user, again, founds1, plan1, c2)
    ensures |plan.added| + |plan.merged| == |blocks|
    ensures plan1.added == [] && |plan1.merged| == |again|
    ensures c2 == c1
  {
    AcceptKeepsFormsApart(c, rows, user, blocks, founds, plan, c1);
    SameExpressionsSameForms(blocks, again);
    KnownFormsAddNothing(c1, rows1, user, again, founds1, plan1, c2);
  }

  lemma SameExpressionsSameForms(blocks: seq<PhraseBlock>, again: seq<PhraseBlock>)
    requires SameExpressions(blocks, again)
    ensures forall b | b in again :: FormOf(b) in FormsIn(blocks)
  {
    FormsInMembers(blocks);
    forall b | b in again ensures FormOf(b) in FormsIn(blocks) {
      var i :| 0 <= i < |again| && again[i] == b;
      assert FormOf(b) == FormOf(blocks[i]) && blocks[i] in blocks;
    }
  }

  /** The index holds blocks under their own forms. */
  ghost predicate Indexed(known: map<string, PhraseBlock>) {
      forall form | form in known :: FormOf(known[form]) == form }

  lemma {:induction false} ByExpressionIndexes(blocks: seq<PhraseBlock>)
    ensures Indexed(ByExpression(blocks)) && forall form | form in ByExpression(blocks) ::
              ByExpression(blocks)[form] in blocks
  {
    if blocks != [] {
      ByExpressionIndexes(blocks[..|blocks| - 1]);
      assert blocks == blocks[..|blocks| - 1] + [blocks[|blocks| - 1]];
    }
  }

  /** Every merged item comes back as a block of its own form. */
  ghost predicate MergedWith(known: map<string, PhraseBlock>, blocks: seq<PhraseBlock>, m: PhraseBlock) {
    && (exists b | b in blocks :: FormOf(b) == FormOf(m))
    && (m in blocks || (FormOf(m) in known && known[FormOf(m)] == m))
  }

  lemma {:induction false} MergedKeepTheirForm(known: map<string, PhraseBlock>, blocks: seq<PhraseBlock>)
    requires Indexed(known)
    ensures Indexed(PlanFor(known, blocks).known)
    ensures forall form | form in PlanFor(known, blocks).known ::
              PlanFor(known, blocks).known[form] in blocks
                || (form in known && known[form] == PlanFor(known, blocks).known[form])
    ensures forall m | m in PlanFor(known, blocks).merged :: MergedWith(known, blocks, m)
  {
    if blocks != [] {
      var n := |blocks| - 1;
      MergedKeepTheirForm(known, blocks[..n]);
      assert blocks == blocks[..n] + [blocks[n]];
      var before := PlanFor(known, blocks[..n]);
      forall m | m in before.merged ensures MergedWith(known, blocks, m) { MergedMore(known, blocks, m); }
      if FormOf(blocks[n]) in before.known {
        assert blocks[n] in blocks && FormOf(blocks[n]) == FormOf(before.known[FormOf(blocks[n])]);
      }
    }
  }

  lemma MergedMore(known: map<string, PhraseBlock>, blocks: seq<PhraseBlock>, m: PhraseBlock)
    requires blocks != [] && MergedWith(known, blocks[..|blocks| - 1], m)
    ensures MergedWith(known, blocks, m)
  {
    var rest := blocks[..|blocks| - 1];
    var b :| b in rest && FormOf(b) == FormOf(m);
    assert b in blocks;
  }
}
