/**
 The in-memory corpus store as an object (internal/corpus/memory_store.go): every method refines the
 function of the same name on the store's value.
 */
module CorpusStore {
  import opened Wrappers
  import opened Text
  import opened Ordering
  import opened Schedule
  import opened CorpusModel
  import opened Tables
  import HitReport
  import Paging
  import Rounds

  predicate ByBlockId(x: HitReport.Hit, y: HitReport.Hit) { StrLess(x.blockId, y.blockId) }

  /** The hits of a report one after another, as the store applies them. */
  function RecordEach(c: Corpus, user: string, session: string, turn: string, hits: seq<HitReport.Hit>): Corpus {
    if hits == [] then c
    else
      var n := |hits| - 1;
      CorpusModel.RecordHit(RecordEach(c, user, session, turn, hits[..n]), user, session, turn, hits[n].blockId,
                            hits[n].detectedAtMs)
  }

  function RecordUses(c: Corpus, user: string, ids: seq<string>, source: UseSource, ref: string, at: int): Corpus {
    if ids == [] then c
    else
      var n := |ids| - 1;
      RecordRealUse(RecordUses(c, user, ids[..n], source, ref, at), user, ids[n], source, ref, at)
  }

  function Credited(c: Corpus, user: string, ids: seq<string>, source: UseSource, ref: string, at: int): nat {
    if ids == [] then 0
    else
      var n := |ids| - 1;
      Credited(c, user, ids[..n], source, ref, at)
      + if UseCredits(RecordUses(c, user, ids[..n], source, ref, at), user, ids[n], source, ref, at) then 1 else 0
  }

  /** The overdue ids among those visited. */
  ghost function OverdueOf(blocks: map<string, PhraseBlock>, visited: set<string>, user: string,
                           dueBefore: int): set<string> {
    set id | id in visited && id in blocks && Overdue(blocks[id], user, dueBefore)
  }

  /** A sweep under way: the rows still to do are untouched, the others swept and counted. */
  ghost predicate Sweeping(before: map<string, PhraseBlock>, now: map<string, PhraseBlock>, todo: set<string>,
                           user: string, dueBefore: int, at: int, moved: int) {
    && todo <= before.Keys && now.Keys == before.Keys
    && (forall id | id in before :: now[id] == if id in todo then before[id]
        else Swept(before[id], user, dueBefore, at))
    && moved == |OverdueOf(before, before.Keys - todo, user, dueBefore)|
  }

  lemma VisitOverdue(before: map<string, PhraseBlock>, now: map<string, PhraseBlock>, todo: set<string>, id: string,
                     user: string, dueBefore: int, at: int, moved: int)
    requires Sweeping(before, now, todo, user, dueBefore, at, moved) && id in todo
    ensures now[id] == before[id]
    ensures Overdue(now[id], user, dueBefore) ==>
              Sweeping(before, now[id := Swept(now[id], user, dueBefore, at)], todo - {id}, user, dueBefore, at,
                       moved + 1)
    ensures !Overdue(now[id], user, dueBefore) ==> Sweeping(before, now, todo - {id}, user, dueBefore, at, moved)
  {
    OneMoreOverdue(before, todo, id, user, dueBefore);
  }

  lemma SweptAll(before: map<string, PhraseBlock>, now: map<string, PhraseBlock>, user: string, dueBefore: int,
                 at: int, moved: int)
    requires Sweeping(before, now, {}, user, dueBefore, at, moved)
    ensures now == map id | id in before :: Swept(before[id], user, dueBefore, at)
    ensures moved == |set id | id in before && Overdue(before[id], user, dueBefore)|
  {
    assert OverdueOf(before, before.Keys - {}, user, dueBefore) == set id | id in before
        && Overdue(before[id], user, dueBefore);
  }

  lemma OneMoreOverdue(blocks: map<string, PhraseBlock>, todo: set<string>, id: string, user: string, dueBefore: int)
    requires id in todo && id in blocks
    ensures |OverdueOf(blocks, blocks.Keys - (todo - {id}), user, dueBefore)| ==
            |OverdueOf(blocks, blocks.Keys - todo, user, dueBefore)| + if Overdue(blocks[id], user, dueBefore) then 1
                else 0
  {
    var some, more := OverdueOf(blocks, blocks.Keys - todo, user, dueBefore),
        OverdueOf(blocks, blocks.Keys - (todo - {id}), user, dueBefore);
    if Overdue(blocks[id], user, dueBefore) { assert more == some + {id}; } else { assert more == some; }
  }


  class MemoryStore {
    var schedule: Schedule
    var blocks: map<string, PhraseBlock>
    var uses: map<string, Use>
    var realUses: seq<RealUse>
    var edits: seq<BlockEdit>

    function Value(): Corpus
      reads this
    {
      Corpus(schedule, blocks, uses, realUses, edits)
    }

    constructor (s: Schedule)
      ensures Value() == Corpus(s.Normalize(), map[], map[], [], [])
    {
      schedule, blocks, uses, realUses, edits := s.Normalize(), map[], map[], [], [];
    }

    /** The blocks in an order of the map's choosing. */
    method Rows() returns (rows: seq<PhraseBlock>)
      requires forall id | id in blocks :: blocks[id].id == id
      ensures Enumerates(rows, blocks)
    {
      rows := [];
      var todo := blocks.Keys;
      while todo != {}
        invariant todo <= blocks.Keys
        invariant OneRowPerId(rows)
        invariant forall b :: b in rows <==> b.id in blocks && b.id !in todo && blocks[b.id] == b
        decreases |todo|
      {
        var id :| id in todo;
        rows := rows + [blocks[id]];
        todo := todo - {id};
      }
    }

    /** ListBlocks over the rows that match the filters: the same page however the map is read. */
    method ListBlocks(matches: PhraseBlock -> bool, mode: Paging.Mode, after: Option<Paging.Cursor>, limit: nat)
      returns (items: seq<PhraseBlock>)
      requires forall id | id in blocks :: blocks[id].id == id
      ensures forall rows | Enumerates(rows, blocks) :: items == Paging.Select(mode, Keep(matches, rows), after, limit)
    {
      var read := Rows();
      items := Paging.Select(mode, Keep(matches, read), after, limit);
      forall rows | Enumerates(rows, blocks) ensures items == Paging.Select(mode, Keep(matches, rows), after, limit) {
        KeepIsAFilter(matches, read);
        KeepIsAFilter(matches, rows);
        KeepKeepsIdsApart(matches, read);
        KeepKeepsIdsApart(matches, rows);
        Paging.OrderLists(mode);
        ListingIgnoresIteration(Paging.Order(mode), Paging.AfterFilter(mode, after), Keep(matches, read),
                                Keep(matches, rows));
      }
    }

    /** ListDueBlocks, likewise independent of map iteration. */
    method ListDueBlocks(user: string, now: int, states: set<State>, limit: int) returns (items: seq<PhraseBlock>)
      requires forall id | id in blocks :: blocks[id].id == id
      ensures forall rows | Enumerates(rows, blocks) :: items == Rounds.ListDue(rows, user, now, states, limit)
    {
      var read := Rows();
      items := Rounds.ListDue(read, user, now, states, limit);
      forall rows | Enumerates(rows, blocks) ensures items == Rounds.ListDue(rows, user, now, states, limit) {
        Rounds.DueOrderLists();
        ListingIgnoresIteration(Rounds.DueBefore, Rounds.Due(user, now, states), read, rows);
      }
    }

    method PeekBlock(id: string) returns (r: Result<PhraseBlock>)
      ensures r == if id in blocks then Ok(blocks[id]) else Err(NotFound)
    {
      r := if id in blocks then Ok(blocks[id]) else Err(NotFound);
    }

    /** One pass of RecordHits' loop. */
    method RecordHit(user: string, session: string, turn: string, hit: HitReport.Hit)
      modifies this
      ensures Value() == CorpusModel.RecordHit(old(Value()), user, session, turn, hit.blockId, hit.detectedAtMs)
    {
      var key := UseKey(session, turn, hit.blockId);
      var seen := key in uses;
      uses := uses[key := Use(user, session, turn, hit.blockId, hit.detectedAtMs)];
      if seen { return; }
      if hit.blockId !in blocks || blocks[hit.blockId].userId != user || blocks[hit.blockId].deletedAt.Some? { return; }
      var usedAt := hit.detectedAtMs * MILLISECOND;
      var block := blocks[hit.blockId];
      block := block.(realUseCount := block.realUseCount + 1, totalUses := block.totalUses + 1,
                      lastUsedAt := Some(usedAt));
      blocks := blocks[hit.blockId := ApplyJudge(schedule, block, true, usedAt)];
      realUses := realUses + [RealUse(user, hit.blockId, FromHit, turn, usedAt)];
    }

    method RecordHits(user: string, session: string, turn: string, hits: seq<HitReport.Hit>) returns (recorded: int)
      modifies this
      ensures Value() == RecordEach(old(Value()), user, session, turn, Sort(ByBlockId, hits))
      ensures recorded == |hits|
    {
      recorded := 0;
      var sorted := Sort(ByBlockId, hits);
      for i := 0 to |sorted|
        invariant recorded == i
        invariant Value() == RecordEach(old(Value()), user, session, turn, sorted[..i])
      {
        assert sorted[..i + 1][..i] == sorted[..i];
        RecordHit(user, session, turn, sorted[i]);
        recorded := recorded + 1;
      }
      assert sorted[..|sorted|] == sorted;
    }

    /** recordRealUseLocked: append a provenance row unless the ledger has it. */
    method AppendRealUse(use: RealUse) returns (first: bool)
      modifies this`realUses
      ensures first == !Recorded(old(realUses), use)
      ensures realUses == if first then old(realUses) + [use] else old(realUses)
    {
      for i := 0 to |realUses|
        invariant forall k | 0 <= k < i :: !SameUse(realUses[k], use)
        invariant realUses == old(realUses)
      {
        if SameUse(realUses[i], use) { return false; }
      }
      realUses := realUses + [use];
      return true;
    }

    method RecordRealUses(user: string, ids: seq<string>, source: UseSource, ref: string, at: int)
      returns (credited: int)
      modifies this
      ensures Value() == RecordUses(old(Value()), user, ids, source, ref, at)
      ensures credited == Credited(old(Value()), user, ids, source, ref, at)
    {
      credited := 0;
      for i := 0 to |ids|
        invariant Value() == RecordUses(old(Value()), user, ids[..i], source, ref, at)
        invariant credited == Credited(old(Value()), user, ids[..i], source, ref, at)
      {
        assert ids[..i + 1][..i] == ids[..i];
        var id := ids[i];
        if id in blocks && blocks[id].userId == user && blocks[id].deletedAt.None? {
          var block := blocks[id];
          var first := AppendRealUse(RealUse(user, id, source, ref, at));
          if first {
            block := block.(realUseCount := block.realUseCount + 1, totalUses := block.totalUses + 1,
                            lastUsedAt := Some(at));
            blocks := blocks[id := ApplyJudge(schedule, block, true, at)];
            credited := credited + 1;
          }
        }
      }
      assert ids[..|ids|] == ids;
    }

    method UpdateSchedule(user: string, id: string, ladder: Ladder, at: int) returns (r: Result<PhraseBlock>)
      modifies this`blocks
      ensures Value() == CorpusModel.UpdateSchedule(old(Value()), user, id, ladder, at)
      ensures r == if old(Value()).Live(user, id) then Ok(blocks[id]) else Err(NotFound)
    {
      if id !in blocks || blocks[id].userId != user || blocks[id].deletedAt.Some? { return Err(NotFound); }
      var block := blocks[id].(ladder := ladder, updatedAt := at);
      blocks := blocks[id := block];
      return Ok(block);
    }

    method ResetSchedule(user: string, id: string, at: int) returns (r: Result<PhraseBlock>)
      modifies this`blocks
      ensures Value() == CorpusModel.ResetSchedule(old(Value()), user, id, at)
      ensures r == if old(Value()).Live(user, id) then Ok(blocks[id]) else Err(NotFound)
    {
      r := UpdateSchedule(user, id, Ladder(New, 0, at + schedule.Normalize().trainingInterval), at);
    }

    method UpdateBlock(block: PhraseBlock) returns (r: Result<PhraseBlock>)
      modifies this`blocks
      ensures Value() == CorpusModel.UpdateBlock(old(Value()), block)
      ensures r == if old(Value()).Live(block.userId, block.id) then Ok(blocks[block.id]) else Err(NotFound)
    {
      if block.id !in blocks || blocks[block.id].userId != block.userId || blocks[block.id].deletedAt.Some? {
        return Err(NotFound);
      }
      var existing := blocks[block.id];
      var saved := block.(id := existing.id, createdAt := existing.createdAt, ladder := existing.ladder,
                          realUseCount := existing.realUseCount, totalUses := existing.totalUses,
                          lastUsedAt := existing.lastUsedAt, favorite := existing.favorite,
                          pinnedAt := existing.pinnedAt, source := existing.source, deletedAt := None);
      blocks := blocks[block.id := saved];
      return Ok(saved);
    }

    method SaveBlockEdit(edit: BlockEdit) returns (r: Result<()>)
      modifies this
      ensures Value() == CorpusModel.SaveBlockEdit(old(Value()), edit)
      ensures r.Ok? <==> old(Value()).Live(edit.userId, edit.blockId)
    {
      if edit.blockId !in blocks || blocks[edit.blockId].userId != edit.userId || blocks[edit.blockId].deletedAt.Some? {
        return Err(NotFound);
      }
      edits := edits + [edit];
      blocks := blocks[edit.blockId := blocks[edit.blockId].(version := edit.version, updatedAt := edit.at)];
      return Ok(());
    }

    method SetFavorite(user: string, id: string, favorite: bool, pinnedAt: Option<int>, at: int)
      returns (r: Result<PhraseBlock>)
      modifies this`blocks
      ensures Value() == CorpusModel.SetFavorite(old(Value()), user, id, favorite, pinnedAt, at)
      ensures r == if old(Value()).Live(user, id) then Ok(blocks[id]) else Err(NotFound)
    {
      if id !in blocks || blocks[id].userId != user || blocks[id].deletedAt.Some? { return Err(NotFound); }
      blocks := blocks[id := blocks[id].(favorite := favorite, pinnedAt := pinnedAt, updatedAt := at)];
      return Ok(blocks[id]);
    }

    method SoftDeleteBlock(user: string, id: string, at: int) returns (r: Result<()>)
      modifies this`blocks
      ensures Value() == SoftDelete(old(Value()), user, id, at)
      ensures r.Ok? <==> old(Value()).Live(user, id)
    {
      if id !in blocks || blocks[id].userId != user || blocks[id].deletedAt.Some? { return Err(NotFound); }
      blocks := blocks[id := blocks[id].(deletedAt := Some(at), updatedAt := at)];
      return Ok(());
    }

    method ReassignUser(from: string, to: string)
      modifies this`blocks
      ensures Value() == CorpusModel.ReassignUser(old(Value()), from, to)
    {
      var todo := blocks.Keys;
      while todo != {}
        invariant todo <= blocks.Keys == old(blocks).Keys
        invariant forall id | id in blocks :: blocks[id] == if id in todo then old(blocks)[id]
            else Reowned(old(blocks)[id], from, to)
        decreases |todo|
      {
        var id :| id in todo;
        todo := todo - {id};
        if blocks[id].userId == from {
          blocks := blocks[id := blocks[id].(userId := to)];
        }
      }
    }

    method SweepOverdue(user: string, dueBefore: int, at: int) returns (moved: int)
      modifies this`blocks
      ensures Value() == CorpusModel.SweepOverdue(old(Value()), user, dueBefore, at)
      ensures moved == |set id | id in old(blocks) && Overdue(old(blocks)[id], user, dueBefore)|
    {
      moved := 0;
      var todo := blocks.Keys;
      ghost var before := blocks;
      while todo != {}
        invariant Sweeping(before, blocks, todo, user, dueBefore, at, moved)
        decreases |todo|
      {
        var id :| id in todo;
        VisitOverdue(before, blocks, todo, id, user, dueBefore, at, moved);
        todo := todo - {id};
        if blocks[id].userId == user && blocks[id].deletedAt.None? && blocks[id].ladder.due < dueBefore {
          blocks := blocks[id := blocks[id].(ladder := blocks[id].ladder.(due := at), updatedAt := at)];
          moved := moved + 1;
        }
      }
      SweptAll(before, blocks, user, dueBefore, at, moved);
    }

    /** The row with a block's natural key, if there is one. */
    method FindByNaturalKey(block: PhraseBlock) returns (found: Option<string>)
      ensures Finds(Value(), block, found)
    {
      var todo := blocks.Keys;
      while todo != {}
        invariant todo <= blocks.Keys
        invariant forall id | id in blocks && id !in todo :: !SameNaturalKey(blocks[id], block)
        decreases |todo|
      {
        var id :| id in todo;
        todo := todo - {id};
        if SameNaturalKey(blocks[id], block) { return Some(id); }
      }
      return None;
    }

    method SaveAcceptedBlocks(accepted: seq<PhraseBlock>)
      returns (saved: seq<PhraseBlock>, ghost founds: seq<Option<string>>)
      modifies this`blocks
      ensures FindsAll(old(Value()), accepted, founds)
      ensures Value() == SaveAllAccepted(old(Value()), accepted, founds)
      ensures saved == Sort(Paging.Order(Paging.BrowseMemory), SavedRows(old(Value()), accepted, founds))
    {
      saved, founds := [], [];
      for i := 0 to |accepted|
        invariant FindsAll(old(Value()), accepted[..i], founds)
        invariant Value() == SaveAllAccepted(old(Value()), accepted[..i], founds)
        invariant saved == SavedRows(old(Value()), accepted[..i], founds)
      {
        var block := accepted[i];
        if block.version < 1 { block := block.(version := 1); }
        var found := FindByNaturalKey(block);
        assert Finds(Value(), accepted[i], found);
        assert accepted[..i + 1][..i] == accepted[..i] && (founds + [found])[..i] == founds;
        founds := founds + [found];
        if found.Some? {
          var current := blocks[found.value];
          if current.deletedAt.Some? {
            current := current.(deletedAt := None, intent := block.intent, expression := block.expression,
                                anchor := block.anchor, scene := block.scene, function_ := block.function_,
                                source := block.source, updatedAt := block.updatedAt);
            blocks := blocks[found.value := current];
          }
          saved := saved + [blocks[found.value]];
        } else {
          blocks := blocks[block.id := block];
          saved := saved + [block];
        }
      }
      assert accepted[..|accepted|] == accepted;
      saved := Sort(Paging.Order(Paging.BrowseMemory), saved);
    }
  }

  /** A repeated credit request credits nobody and changes nothing. */
  lemma {:induction false} RecordUsesAgain(c: Corpus, user: string, ids: seq<string>, source: UseSource, ref: string,
                                           at: int)
    requires forall id | id in ids :: c.Live(user, id) ==> Recorded(c.realUses, RealUse(user, id, source, ref, at))
    ensures RecordUses(c, user, ids, source, ref, at) == c
    ensures Credited(c, user, ids, source, ref, at) == 0
  {
    if ids != [] {
      assert ids == ids[..|ids| - 1] + [ids[|ids| - 1]];
      RecordUsesAgain(c, user, ids[..|ids| - 1], source, ref, at);
    }
  }

  lemma {:induction false} RecordUsesLeavesRows(c: Corpus, user: string, ids: seq<string>, source: UseSource,
                                                ref: string, at: int)
    ensures var c1 := RecordUses(c, user, ids, source, ref, at);
            && c1.blocks.Keys == c.blocks.Keys
            && (forall id :: c1.Live(user, id) <==> c.Live(user, id))
            && c.realUses <= c1.realUses
            && (forall id | id in ids :: c1.Live(user, id) ==>
                Recorded(c1.realUses, RealUse(user, id, source, ref, at)))
  {
    if ids != [] {
      var n := |ids| - 1;
      RecordUsesLeavesRows(c, user, ids[..n], source, ref, at);
      var c0, c1 := RecordUses(c, user, ids[..n], source, ref, at), RecordUses(c, user, ids, source, ref, at);
      assert ids == ids[..n] + [ids[n]];
      forall id | id in ids && c1.Live(user, id) ensures Recorded(c1.realUses, RealUse(user, id, source, ref, at)) {
        var use := RealUse(user, id, source, ref, at);
        if Recorded(c0.realUses, use) {
          var i :| 0 <= i < |c0.realUses| && SameUse(c0.realUses[i], use);
          assert SameUse(c1.realUses[i], use);
        } else {
          assert SameUse(c1.realUses[|c0.realUses|], use);
        }
      }
    }
  }

  /** A check-in reference credits each of its blocks once, however often it is sent and whenever. */
  lemma CheckinTwiceIsCheckinOnce(c: Corpus, user: string, ids: seq<string>, source: UseSource, ref: string, at: int,
                                  later: int)
    ensures var once := RecordUses(c, user, ids, source, ref, at);
            && RecordUses(once, user, ids, source, ref, later) == once
            && Credited(once, user, ids, source, ref, later) == 0
  {
    RecordUsesLeavesRows(c, user, ids, source, ref, at);
    var once := RecordUses(c, user, ids, source, ref, at);
    forall id | id in ids && once.Live(user, id)
      ensures Recorded(once.realUses, RealUse(user, id, source, ref, later))
    {
      var i :| 0 <= i < |once.realUses| && SameUse(once.realUses[i], RealUse(user, id, source, ref, at));
      assert SameUse(once.realUses[i], RealUse(user, id, source, ref, later));
    }
    RecordUsesAgain(once, user, ids, source, ref, later);
  }
}
