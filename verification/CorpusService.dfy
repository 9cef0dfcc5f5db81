/**
 The corpus services over the store (internal/corpus/hits_service.go, service.go): reporting hits,
 crediting check-ins, editing a block and accepting refined blocks.
 */
module CorpusService {
  import opened Wrappers
  import opened Text
  import opened Ordering
  import opened CorpusModel
  import opened CorpusStore
  import HitReport
  import BatchAccept
  import Paging

  const REAL_USE_MAX_BLOCKS := 50

  /** The blocks of a report in order of first mention. */
  function FirstMentions(hits: seq<HitReport.Hit>): seq<string> {
    if hits == [] then []
    else
      var before, id := FirstMentions(hits[..|hits| - 1]), TrimSpace(hits[|hits| - 1].blockId);
      if id == "" || id in before then before else before + [id]
  }

  lemma {:induction false} FirstMentionsAreLatest(hits: seq<HitReport.Hit>)
    ensures forall id :: id in FirstMentions(hits) <==> id in HitReport.Latest(hits)
    ensures Distinct(FirstMentions(hits))
  {
    if hits != [] { FirstMentionsAreLatest(hits[..|hits| - 1]); }
  }

  /** A hit with its block id trimmed, and the report's turn if it names none. */
  function Filled(turn: string, hit: HitReport.Hit): HitReport.Hit {
    hit.(blockId := TrimSpace(hit.blockId), turnId := if Blank(hit.turnId) then turn else hit.turnId)
  }

  /** The hit that is kept for each block: the latest, and of equally late ones the last. */
  function Kept(turn: string, hits: seq<HitReport.Hit>): map<string, HitReport.Hit> {
    if hits == [] then map[]
    else
      var n := |hits| - 1;
      var kept, hit := Kept(turn, hits[..n]), Filled(turn, hits[n]);
      if hit.blockId == "" || (hit.blockId in kept && hit.detectedAtMs < kept[hit.blockId].detectedAtMs) then kept
      else kept[hit.blockId := hit]
  }

  /** The kept hits carry the latest detection of their blocks. */
  lemma {:induction false} KeptIsLatest(turn: string, hits: seq<HitReport.Hit>)
    ensures Kept(turn, hits).Keys == HitReport.Latest(hits).Keys
    ensures forall id | id in Kept(turn, hits) ::
              Kept(turn, hits)[id].blockId == id && Kept(turn, hits)[id].detectedAtMs == HitReport.Latest(hits)[id]
  {
    if hits != [] { KeptIsLatest(turn, hits[..|hits| - 1]); }
  }

  /** What the deduplication loop remembers: the kept hit per block and its place in line. */
  ghost predicate Seen(seen: map<string, (HitReport.Hit, nat)>, turn: string, hits: seq<HitReport.Hit>) {
    Remembers(seen, Kept(turn, hits), FirstMentions(hits))
  }

  ghost predicate Remembers(seen: map<string, (HitReport.Hit, nat)>, kept: map<string, HitReport.Hit>,
                            line: seq<string>) {
    && (forall id :: id in seen <==> id in kept)
    && (forall id | id in seen :: seen[id].0 == kept[id])
    && (forall k | 0 <= k < |line| :: line[k] in seen && seen[line[k]].1 == k)
    && |seen| == |line|
  }

  /** The blocks in line are those with a kept hit. */
  lemma LineHoldsTheKept(turn: string, hits: seq<HitReport.Hit>)
    ensures forall id :: id in FirstMentions(hits) <==> id in Kept(turn, hits)
    ensures Distinct(FirstMentions(hits))
  {
    FirstMentionsAreLatest(hits);
    KeptIsLatest(turn, hits);
    assert forall id :: id in Kept(turn, hits).Keys <==> id in HitReport.Latest(hits).Keys;
  }

  lemma SeenPlaces(seen: map<string, (HitReport.Hit, nat)>, turn: string, hits: seq<HitReport.Hit>, id: string)
    requires Seen(seen, turn, hits) && id in seen
    ensures seen[id].1 < |seen| && FirstMentions(hits)[seen[id].1] == id
  {
    LineHoldsTheKept(turn, hits);
    var k :| 0 <= k < |FirstMentions(hits)| && FirstMentions(hits)[k] == id;
  }

  lemma SeenGrows(seen: map<string, (HitReport.Hit, nat)>, turn: string, hits: seq<HitReport.Hit>,
                  next: HitReport.Hit, hit: HitReport.Hit)
    requires Seen(seen, turn, hits) && hit == Filled(turn, next) && hit.blockId != ""
    ensures hit.blockId !in seen ==> Seen(seen[hit.blockId := (hit, |seen|)], turn, hits + [next])
    ensures hit.blockId in seen && hit.detectedAtMs >= seen[hit.blockId].0.detectedAtMs ==>
              Seen(seen[hit.blockId := (hit, seen[hit.blockId].1)], turn, hits + [next])
    ensures hit.blockId in seen && hit.detectedAtMs < seen[hit.blockId].0.detectedAtMs ==>
              Seen(seen, turn, hits + [next])
  {
    LineHoldsTheKept(turn, hits);
    OneMoreHit(turn, hits, next, hit);
    RemembersMore(seen, Kept(turn, hits), FirstMentions(hits), hit);
  }

  lemma OneMoreHit(turn: string, hits: seq<HitReport.Hit>, next: HitReport.Hit, hit: HitReport.Hit)
    requires hit == Filled(turn, next) && hit.blockId != ""
    ensures var kept, id := Kept(turn, hits), hit.blockId;
            Kept(turn, hits + [next]) ==
            if id in kept && hit.detectedAtMs < kept[id].detectedAtMs then kept else kept[id := hit]
    ensures var line, id := FirstMentions(hits), hit.blockId;
            FirstMentions(hits + [next]) == if id in line then line else line + [id]
  {
    assert (hits + [next])[..|hits|] == hits;
  }

  lemma RemembersMore(seen: map<string, (HitReport.Hit, nat)>, kept: map<string, HitReport.Hit>, line: seq<string>,
                      hit: HitReport.Hit)
    requires Remembers(seen, kept, line) && (hit.blockId in line <==> hit.blockId in kept)
    ensures hit.blockId !in seen ==>
              Remembers(seen[hit.blockId := (hit, |seen|)], kept[hit.blockId := hit], line + [hit.blockId])
    ensures hit.blockId in seen ==>
              Remembers(seen[hit.blockId := (hit, seen[hit.blockId].1)], kept[hit.blockId := hit], line)
  {
  }

  lemma BlankIsNotSeen(seen: map<string, (HitReport.Hit, nat)>, turn: string, hits: seq<HitReport.Hit>,
                       next: HitReport.Hit)
    requires Seen(seen, turn, hits) && Blank(next.blockId)
    ensures Seen(seen, turn, hits + [next])
  {
    var all := hits + [next];
    assert all[..|all| - 1] == hits;
  }

  /** The loop of dedupeHits: the kept hit per block, with its place in line. */
  method CollectHits(turn: string, hits: seq<HitReport.Hit>) returns (seen: map<string, (HitReport.Hit, nat)>)
    ensures Seen(seen, turn, hits)
  {
    seen := map[];
    var order := 0;
    for i := 0 to |hits|
      invariant Seen(seen, turn, hits[..i]) && order == |seen|
    {
      assert hits[..i + 1] == hits[..i] + [hits[i]];
      var hit := hits[i].(blockId := TrimSpace(hits[i].blockId));
      if hit.blockId == "" {
        BlankIsNotSeen(seen, turn, hits[..i], hits[i]);
        continue;
      }
      if Blank(hit.turnId) { hit := hit.(turnId := turn); }
      SeenGrows(seen, turn, hits[..i], hits[i], hit);
      if hit.blockId !in seen {
        seen := seen[hit.blockId := (hit, order)];
        order := order + 1;
      } else if hit.detectedAtMs >= seen[hit.blockId].0.detectedAtMs {
        seen := seen[hit.blockId := (hit, seen[hit.blockId].1)];
      }
    }
    assert hits[..|hits|] == hits;
  }

  /** One hit per block, the one that is kept, in order of first mention. */
  method DedupeHits(turn: string, hits: seq<HitReport.Hit>) returns (out: seq<HitReport.Hit>)
    ensures |out| == |FirstMentions(hits)|
    ensures forall k | 0 <= k < |out| ::
              FirstMentions(hits)[k] in Kept(turn, hits) && out[k] == Kept(turn, hits)[FirstMentions(hits)[k]]
  {
    var seen := CollectHits(turn, hits);
    var slots := new HitReport.Hit[|seen|](_ => HitReport.Hit("", "", 0));
    var todo := seen.Keys;
    while todo != {}
      invariant todo <= seen.Keys
      invariant forall id | id in seen && id !in todo :: seen[id].1 < slots.Length && slots[seen[id].1] == seen[id].0
      decreases |todo|
    {
      var id :| id in todo;
      SeenPlaces(seen, turn, hits, id);
      forall other | other in seen && other != id ensures seen[other].1 != seen[id].1 {
        SeenPlaces(seen, turn, hits, other);
      }
      slots[seen[id].1] := seen[id].0;
      todo := todo - {id};
    }
    out := slots[..];
    forall k | 0 <= k < |out| ensures FirstMentions(hits)[k] in seen && out[k] == seen[FirstMentions(hits)[k]].0 {
      assert seen[FirstMentions(hits)[k]].1 == k;
    }
  }

  lemma {:induction false} EachIsAll(c: Corpus, user: string, session: string, turn: string, hits: seq<HitReport.Hit>,
                                     ids: seq<string>, times: map<string, int>)
    requires |ids| == |hits| && forall id | id in ids :: id in times
    requires forall k | 0 <= k < |hits| :: hits[k].blockId == ids[k] && hits[k].detectedAtMs == times[ids[k]]
    ensures RecordEach(c, user, session, turn, hits) == HitReport.RecordAll(c, user, session, turn, ids, times)
  {
    if hits != [] {
      var n := |hits| - 1;
      assert forall id | id in ids[..n] :: id in ids;
      EachIsAll(c, user, session, turn, hits[..n], ids[..n], times);
    }
  }

  function BlockIds(hits: seq<HitReport.Hit>): (r: seq<string>)
    ensures |r| == |hits| && forall k | 0 <= k < |hits| :: r[k] == hits[k].blockId
  {
    seq(|hits|, k requires 0 <= k < |hits| => hits[k].blockId)
  }

  lemma ByBlockIdIsAWeakOrder()
    ensures WeakOrder(ByBlockId)
  {
    HitReport.StrLessIsAWeakOrder();
    StrLessOrder();
    forall x, y, z | ByBlockId(x, z)
      ensures ByBlockId(x, y) || ByBlockId(y, z)
    {
      StrLessTotal(x.blockId, y.blockId); StrLessTotal(y.blockId, z.blockId);
    }
  }

  /** Deduplicated hits, sorted by block id, are the canonical order of the report. */
  lemma SortedHitsAreCanonical(deduped: seq<HitReport.Hit>, hits: seq<HitReport.Hit>)
    requires |deduped| == |FirstMentions(hits)|
    requires forall k | 0 <= k < |deduped| :: deduped[k].blockId == FirstMentions(hits)[k]
    ensures BlockIds(Sort(ByBlockId, deduped)) == HitReport.SortedIds(HitReport.Latest(hits).Keys)
  {
    FirstMentionsAreLatest(hits);
    SortedByBlockId(deduped, FirstMentions(hits));
    HitReport.StrLessIsAWeakOrder();
    StrictlySortedUnique(StrLess, BlockIds(Sort(ByBlockId, deduped)), HitReport.SortedIds(HitReport.Latest(hits).Keys));
  }

  /** Hits of pairwise different blocks, sorted by block id, have the same blocks in strict order. */
  lemma SortedByBlockId(hits: seq<HitReport.Hit>, line: seq<string>)
    requires |hits| == |line| && Distinct(line) && forall k | 0 <= k < |hits| :: hits[k].blockId == line[k]
    ensures StrictlySorted(StrLess, BlockIds(Sort(ByBlockId, hits)))
    ensures forall id :: id in BlockIds(Sort(ByBlockId, hits)) <==> id in line
  {
    var sorted := Sort(ByBlockId, hits);
    ByBlockIdIsAWeakOrder();
    BlocksCompare(hits, line);
    SortIsStrict(ByBlockId, hits);
    SortSorts(ByBlockId, hits);
    forall i, j | 0 <= i < j < |sorted| ensures StrLess(BlockIds(sorted)[i], BlockIds(sorted)[j]) {
      assert ByBlockId(sorted[i], sorted[j]);
    }
    SameBlocks(sorted, hits);
    forall id ensures id in BlockIds(hits) <==> id in line { assert BlockIds(hits) == line; }
  }

  lemma BlocksCompare(hits: seq<HitReport.Hit>, line: seq<string>)
    requires |hits| == |line| && Distinct(line) && forall k | 0 <= k < |hits| :: hits[k].blockId == line[k]
    ensures Distinct(hits)
    ensures forall x, y | x in hits && y in hits && x != y :: ByBlockId(x, y) || ByBlockId(y, x)
  {
    forall x, y | x in hits && y in hits && x != y ensures ByBlockId(x, y) || ByBlockId(y, x) {
      var i :| 0 <= i < |hits| && hits[i] == x;
      var j :| 0 <= j < |hits| && hits[j] == y;
      StrLessTotal(x.blockId, y.blockId);
    }
  }

  /** The same hits in another order have the same blocks. */
  lemma SameBlocks(hits: seq<HitReport.Hit>, others: seq<HitReport.Hit>)
    requires forall h :: h in hits <==> h in others
    ensures forall id :: id in BlockIds(hits) <==> id in BlockIds(others)
  {
    forall id | id in BlockIds(hits) ensures id in BlockIds(others) { BlockIn(hits, others, id); }
    forall id | id in BlockIds(others) ensures id in BlockIds(hits) { BlockIn(others, hits, id); }
  }

  lemma BlockIn(hits: seq<HitReport.Hit>, others: seq<HitReport.Hit>, id: string)
    requires id in BlockIds(hits) && forall h :: h in hits ==> h in others
    ensures id in BlockIds(others)
  {
    var k :| 0 <= k < |hits| && BlockIds(hits)[k] == id;
    assert hits[k] in others;
    var m :| 0 <= m < |others| && others[m] == hits[k];
    assert BlockIds(others)[m] == id;
  }

  /** The times of the deduplicated hits survive sorting. */
  lemma SortedTimes(deduped: seq<HitReport.Hit>, hits: seq<HitReport.Hit>)
    requires forall k | 0 <= k < |deduped| ::
             deduped[k].blockId in HitReport.Latest(hits)
               && deduped[k].detectedAtMs == HitReport.Latest(hits)[deduped[k].blockId]
    ensures var sorted := Sort(ByBlockId, deduped);
            forall k | 0 <= k < |sorted| ::
                sorted[k].blockId in HitReport.Latest(hits)
                  && sorted[k].detectedAtMs == HitReport.Latest(hits)[sorted[k].blockId]
  {
    var sorted := Sort(ByBlockId, deduped);
    ByBlockIdIsAWeakOrder();
    SortSorts(ByBlockId, deduped);
    forall k | 0 <= k < |sorted|
      ensures sorted[k].blockId in HitReport.Latest(hits)
                && sorted[k].detectedAtMs == HitReport.Latest(hits)[sorted[k].blockId]
    {
      assert sorted[k] in deduped;
    }
  }

  /** A report of hits: the store ends up as if each block's latest detection were recorded in id order. */
  method RecordHits(store: MemoryStore, userId: string, sessionId: string, turnId: string, hits: seq<HitReport.Hit>)
    returns (r: Result<int>)
    modifies store
    ensures r.Ok? <==> !Blank(userId) && !Blank(sessionId) && !Blank(turnId)
    ensures r.Err? ==> store.Value() == old(store.Value())
    ensures r.Ok? ==>
              && r.value == |FirstMentions(hits)|
              && store.Value() == HitReport.Report(old(store.Value()), TrimSpace(userId), TrimSpace(sessionId),
                                                   TrimSpace(turnId), hits)
  {
    var user, session, turn := TrimSpace(userId), TrimSpace(sessionId), TrimSpace(turnId);
    if user == "" || session == "" || turn == "" { return Err(InvalidArgument); }
    var deduped := DedupeHits(turn, hits);
    KeptIsLatest(turn, hits);
    SortedHitsAreCanonical(deduped, hits);
    SortedTimes(deduped, hits);
    EachIsAll(store.Value(), user, session, turn, Sort(ByBlockId, deduped), BlockIds(Sort(ByBlockId, deduped)),
              HitReport.Latest(hits));
    if |deduped| == 0 {
      assert Sort(ByBlockId, deduped) == [];
      return Ok(0);
    }
    var recorded := store.RecordHits(user, session, turn, deduped);
    return Ok(recorded);
  }

  /** The block ids of a credit request that are not blank. */
  function CleanedIds(ids: seq<string>): seq<string> {
    if ids == [] then []
    else
      var n := |ids| - 1;
      CleanedIds(ids[..n]) + if Blank(ids[n]) then [] else [TrimSpace(ids[n])]
  }

  /** RecordRealUse: blank references and requests of more than fifty blocks are refused. */
  method RecordRealUse(store: MemoryStore, userId: string, ids: seq<string>, source: UseSource, refId: string,
                       now: int) returns (r: Result<int>)
    modifies store
    ensures r.Err? ==> r.error == if Blank(userId) then Unauthenticated else InvalidArgument
    ensures r.Ok? <==> !Blank(userId) && !Blank(refId) && |CleanedIds(ids)| <= 50
    ensures r.Err? ==> store.Value() == old(store.Value())
    ensures r.Ok? ==>
              && store.Value() == RecordUses(old(store.Value()), TrimSpace(userId), CleanedIds(ids), source,
                                             TrimSpace(refId), now)
              && r.value == Credited(old(store.Value()), TrimSpace(userId), CleanedIds(ids), source, TrimSpace(refId),
                                     now)
  {
    if Blank(userId) { return Err(Unauthenticated); }
    if Blank(refId) { return Err(InvalidArgument); }
    var cleaned: seq<string> := [];
    for i := 0 to |ids|
      invariant cleaned == CleanedIds(ids[..i])
    {
      assert ids[..i + 1][..i] == ids[..i];
      var id := TrimSpace(ids[i]);
      if id != "" { cleaned := cleaned + [id]; }
    }
    assert ids[..|ids|] == ids;
    if |cleaned| == 0 { return Ok(0); }
    if |cleaned| > REAL_USE_MAX_BLOCKS { return Err(InvalidArgument); }
    var credited := store.RecordRealUses(TrimSpace(userId), cleaned, source, TrimSpace(refId), now);
    return Ok(credited);
  }

  /** UpdateBlock past its checks: a changed sentence is versioned, logged and goes back to new. */
  method RewriteBlock(store: MemoryStore, user: string, id: string, w: Wording, now: int) returns (block: PhraseBlock)
    requires store.Value().Live(user, id) && store.blocks[id].id == id
    modifies store
    ensures store.Value() == Rewrite(old(store.Value()), user, id, w, now)
    ensures id in store.blocks && block == store.blocks[id]
  {
    var previous := store.blocks[id];
    var saved := store.UpdateBlock(Reworded(previous, w, now));
    if w.expression == previous.expression { return saved.value; }
    var logged := store.SaveBlockEdit(BlockEdit(user, id, previous.version + 1, previous.expression, w.expression,
                                                now));
    var reset := store.ResetSchedule(user, id, now);
    return reset.value;
  }

  method UpdateBlock(store: MemoryStore, userId: string, blockId: string, wording: Wording, now: int)
    returns (r: Result<PhraseBlock>)
    requires forall id | id in store.blocks :: store.blocks[id].id == id
    modifies store
    ensures Blank(userId) ==> r == Err(Unauthenticated)
    ensures !Blank(userId) && !old(store.Value()).Live(TrimSpace(userId), TrimSpace(blockId)) ==> r == Err(NotFound)
    ensures !Blank(userId) && old(store.Value()).Live(TrimSpace(userId), TrimSpace(blockId)) ==>
              if ValidWording(Cleaned(wording)) then r.Ok? else r == Err(InvalidArgument)
    ensures r.Err? ==> store.Value() == old(store.Value())
    ensures r.Ok? ==>
              && store.Value() == EditBlock(old(store.Value()), TrimSpace(userId), TrimSpace(blockId),
                                            Cleaned(wording), now)
              && TrimSpace(blockId) in store.blocks && r.value == store.blocks[TrimSpace(blockId)]
  {
    if Blank(userId) { return Err(Unauthenticated); }
    if !store.Value().Live(TrimSpace(userId), TrimSpace(blockId)) { return Err(NotFound); }
    if !ValidWording(Cleaned(wording)) { return Err(InvalidArgument); }
    var block := RewriteBlock(store, TrimSpace(userId), TrimSpace(blockId), Cleaned(wording), now);
    return Ok(block);
  }

  /** The first step of BatchAccept's dedupe: the known forms of the scanned blocks. */
  method IndexByExpression(existing: seq<PhraseBlock>) returns (known: map<string, PhraseBlock>)
    ensures known == BatchAccept.ByExpression(existing)
  {
    known := map[];
    for i := 0 to |existing|
      invariant known == BatchAccept.ByExpression(existing[..i])
    {
      assert existing[..i + 1][..i] == existing[..i];
      known := known[BatchAccept.FormOf(existing[i]) := existing[i]];
    }
    assert existing[..|existing|] == existing;
  }

  method PlanRequest(existing: map<string, PhraseBlock>, blocks: seq<PhraseBlock>) returns (plan: BatchAccept.Plan)
    ensures plan == BatchAccept.PlanFor(existing, blocks)
  {
    var added, merged, known := [], [], existing;
    for i := 0 to |blocks|
      invariant BatchAccept.Plan(added, merged, known) == BatchAccept.PlanFor(existing, blocks[..i])
    {
      assert blocks[..i + 1][..i] == blocks[..i];
      var form := BatchAccept.FormOf(blocks[i]);
      if form in known {
        merged := merged + [known[form]];
      } else {
        known := known[form := blocks[i]];
        added := added + [blocks[i]];
      }
    }
    assert blocks[..|blocks|] == blocks;
    plan := BatchAccept.Plan(added, merged, known);
  }

  method ValidateItems(items: seq<Wording>) returns (ok: bool)
    ensures ok <==> forall w | w in items :: ValidWording(Cleaned(w))
  {
    for i := 0 to |items|
      invariant forall w | w in items[..i] :: ValidWording(Cleaned(w))
    {
      var item := items[i];
      assert item in items && items[..i + 1] == items[..i] + [item];
      if !ValidWording(Cleaned(item)) { return false; }
    }
    assert items[..|items|] == items;
    return true;
  }

  /** What BatchAccept answers: how many were saved and merged, and the rows of both. */
  datatype AcceptAnswer = AcceptAnswer(accepted: nat, merged: nat, items: seq<PhraseBlock>)

  /** The answer to a planned request: the rows its new blocks became, in browse order, then the merged ones. */
  ghost function AnswerTo(c: Corpus, plan: BatchAccept.Plan, founds: seq<Option<string>>): AcceptAnswer
    requires FindsAll(c, plan.added, founds)
  {
    AcceptAnswer(|plan.added|, |plan.merged|,
                 Sort(Paging.Order(Paging.BrowseMemory), SavedRows(c, plan.added, founds)) + plan.merged)
  }

  lemma {:induction false} AsManyRows(c: Corpus, blocks: seq<PhraseBlock>, founds: seq<Option<string>>)
    requires FindsAll(c, blocks, founds)
    ensures |SavedRows(c, blocks, founds)| == |blocks|
  {
    if blocks != [] { AsManyRows(c, blocks[..|blocks| - 1], founds[..|blocks| - 1]); }
  }

  /** BatchAccept past its checks. */
  method AcceptBlocks(store: MemoryStore, user: string, blocks: seq<PhraseBlock>)
    returns (answer: AcceptAnswer, ghost plan: BatchAccept.Plan, ghost rows: seq<PhraseBlock>,
             ghost founds: seq<Option<string>>)
    requires forall id | id in store.blocks :: store.blocks[id].id == id
    modifies store
    ensures BatchAccept.Accepts(old(store.Value()), rows, user, blocks, founds, plan, store.Value())
    ensures answer == AnswerTo(old(store.Value()), plan, founds)
  {
    rows := store.Rows();
    var existing := store.ListBlocks(BatchAccept.LiveOf(user), Paging.BrowseMemory, None,
                                     BatchAccept.DEDUPE_SCAN_LIMIT);
    assert existing == BatchAccept.Scan(rows, user);
    var known := IndexByExpression(existing);
    var planned := PlanRequest(known, blocks);
    plan := planned;
    var saved;
    saved, founds := store.SaveAcceptedBlocks(planned.added);
    AsManyRows(old(store.Value()), planned.added, founds);
    answer := AcceptAnswer(|saved|, |planned.merged|, saved + planned.merged);
  }

  /** BatchAccept, with the new ids and the clock reading as inputs. */
  method Accept(store: MemoryStore, userId: string, sessionId: string, ids: seq<string>, items: seq<Wording>, now: int)
    returns (r: Result<AcceptAnswer>, ghost plan: BatchAccept.Plan, ghost rows: seq<PhraseBlock>,
             ghost founds: seq<Option<string>>)
    requires |ids| == |items|
    requires forall id | id in store.blocks :: store.blocks[id].id == id
    modifies store
    ensures r.Ok? <==> !Blank(userId) && !Blank(sessionId) && items != [] && forall w | w in items ::
              ValidWording(Cleaned(w))
    ensures r.Err? ==> store.Value() == old(store.Value()) && r.error == if Blank(userId) then Unauthenticated
              else InvalidArgument
    ensures r.Ok? ==>
              && BatchAccept.Accepts(old(store.Value()), rows, TrimSpace(userId),
                                     BatchAccept.AcceptedBlocks(TrimSpace(userId), TrimSpace(sessionId), now, ids,
                                                                items), founds, plan, store.Value())
              && r.value == AnswerTo(old(store.Value()), plan, founds)
  {
    plan, rows, founds := BatchAccept.Plan([], [], map[]), [], [];
    if Blank(userId) { return Err(Unauthenticated), plan, rows, founds; }
    if Blank(sessionId) || items == [] { return Err(InvalidArgument), plan, rows, founds; }
    var valid := ValidateItems(items);
    if !valid { return Err(InvalidArgument), plan, rows, founds; }
    var blocks := BatchAccept.AcceptedBlocks(TrimSpace(userId), TrimSpace(sessionId), now, ids, items);
    var answer;
    answer, plan, rows, founds := AcceptBlocks(store, TrimSpace(userId), blocks);
    r := Ok(answer);
  }

  /** A credit request is about the blocks it names, without white space and blanks. */
  lemma {:induction false} CleanedIdsMean(ids: seq<string>, id: string)
    ensures id in CleanedIds(ids) <==> id != "" && exists i | 0 <= i < |ids| :: TrimSpace(ids[i]) == id
  {
    if ids != [] {
      var n := |ids| - 1;
      CleanedIdsMean(ids[..n], id);
      assert ids == ids[..n] + [ids[n]];
      assert forall i | 0 <= i < n :: ids[..n][i] == ids[i];
    }
  }
}
