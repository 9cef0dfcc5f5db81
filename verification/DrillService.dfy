/** The drill ledger and service as objects (internal/drill/record_store.go, service.go). */
module DrillService {
  import opened Wrappers
  import opened Text
  import opened Ordering
  import opened Schedule
  import opened CorpusModel
  import opened CorpusStore
  import opened DrillModel
  import opened Tables

  /** The attempts since a time whose block was still new when it was served. */
  function NewReleases(records: seq<Record>, user: string, since: int): nat {
    if records == [] then 0
    else
      var n := |records| - 1;
      NewReleases(records[..n], user, since) + if IsNewRelease(records[n], user, since) then 1 else 0
  }

  predicate IsNewRelease(rec: Record, user: string, since: int) {
    rec.userId == user && rec.prev.Some? && rec.prev.value.state == New && rec.createdAt >= since
  }

  /** The day's budget of new blocks is not spent; no positive limit means no cap. */
  predicate BudgetLeft(records: seq<Record>, user: string, now: int, limit: int) {
    limit <= 0 || NewReleases(records, user, now - now % DAY) < limit
  }

  /** The learner's attempts of a day on blocks that were new before them. */
  function Released(records: seq<Record>, user: string, midnight: int): set<nat> {
    set i | 0 <= i < |records| && records[i].userId == user && records[i].createdAt >= midnight
      && records[i].prev.Some? && records[i].prev.value.state == New
  }

  lemma {:induction false} ReleasesAreCounted(records: seq<Record>, user: string, midnight: int)
    ensures NewReleases(records, user, midnight) == |Released(records, user, midnight)|
  {
    if records == [] {
      assert Released(records, user, midnight) == {};
    } else {
      var n := |records| - 1;
      ReleasesAreCounted(records[..n], user, midnight);
      var before := Released(records[..n], user, midnight);
      assert Released(records, user, midnight) == before + if IsNewRelease(records[n], user, midnight) then {n} else {};
    }
  }

  /** A round may hold new blocks while fewer of them than the limit were tried since midnight, or without a limit. */
  lemma BudgetLeftIff(records: seq<Record>, user: string, now: int, limit: int)
    ensures BudgetLeft(records, user, now, limit) <==>
              limit <= 0 || |Released(records, user, now - now % (24 * 3600 * 1_000_000_000))| < limit
  {
    ReleasesAreCounted(records, user, now - now % DAY);
  }

  class MemoryRecordStore {
    var nextId: nat
    var records: seq<Record>

    constructor ()
      ensures nextId == 0 && records == []
    {
      nextId, records := 0, [];
    }

    method Insert(rec: Record) returns (id: nat)
      modifies this
      ensures id == nextId == old(nextId) + 1
      ensures records == old(records) + [rec.(id := id)]
    {
      nextId := nextId + 1;
      records := records + [rec.(id := nextId)];
      id := nextId;
    }

    method GetRecord(user: string, id: nat) returns (r: Result<Record>)
      ensures r == match Lookup(records, user, id) case Some(k) => Ok(records[k]) case None => Err(NotFound)
    {
      for i := 0 to |records|
        invariant Lookup(records[..i], user, id) == None
      {
        assert records[..i + 1][..i] == records[..i];
        if Owns(records[i], user, id) {
          FirstIsFound(records, user, id, i);
          return Ok(records[i]);
        }
      }
      assert records[..|records|] == records;
      return Err(NotFound);
    }

    /** Stamps the attempt unless it is stamped; tells whether this call did. */
    method MarkAppealed(user: string, id: nat, at: int) returns (r: Result<bool>)
      modifies this`records
      ensures match Lookup(old(records), user, id)
              case None => r == Err(NotFound) && records == old(records)
              case Some(k) =>
                if old(records)[k].appealedAt.Some? then r == Ok(false) && records == old(records)
                else r == Ok(true) && records == old(records)[k := old(records)[k].(appealedAt := Some(at))]
    {
      for i := 0 to |records|
        invariant records == old(records)
        invariant Lookup(records[..i], user, id) == None
      {
        assert records[..i + 1][..i] == records[..i];
        if Owns(records[i], user, id) {
          FirstIsFound(records, user, id, i);
          if records[i].appealedAt.Some? { return Ok(false); }
          records := records[i := records[i].(appealedAt := Some(at))];
          return Ok(true);
        }
      }
      assert records[..|records|] == records;
      return Err(NotFound);
    }

    method IsLatestForBlock(user: string, block: string, id: nat) returns (r: Result<bool>)
      ensures r == if LatestId(records, user, block) == 0 then Err(NotFound)
                else Ok(LatestId(records, user, block) == id)
    {
      var latest := 0;
      for i := 0 to |records|
        invariant latest == LatestId(records[..i], user, block)
      {
        assert records[..i + 1][..i] == records[..i];
        if records[i].userId == user && records[i].blockId == block && records[i].id > latest {
          latest := records[i].id;
        }
      }
      assert records[..|records|] == records;
      return if latest == 0 then Err(NotFound) else Ok(latest == id);
    }

    method CountNewReleasesSince(user: string, since: int) returns (n: nat)
      ensures n == NewReleases(records, user, since)
    {
      n := 0;
      for i := 0 to |records|
        invariant n == NewReleases(records[..i], user, since)
      {
        assert records[..i + 1][..i] == records[..i];
        if IsNewRelease(records[i], user, since) { n := n + 1; }
      }
      assert records[..|records|] == records;
    }
  }

  /** The scan's first match is the lookup's result. */
  lemma {:induction false} FirstIsFound(records: seq<Record>, user: string, id: nat, i: nat)
    requires i < |records| && Owns(records[i], user, id) && Lookup(records[..i], user, id) == None
    ensures Lookup(records, user, id) == Some(i)
  {
    var n := |records| - 1;
    if i < n {
      assert records[..n][..i] == records[..i];
      FirstIsFound(records[..n], user, id, i);
    }
  }

  class Service {
    const blocks: MemoryStore
    const records: MemoryRecordStore
    var schedule: Schedule
    var roundSize: int
    var dailyNewBlockLimit: int
    var overdueWindow: int

    constructor (blocks: MemoryStore, records: MemoryRecordStore, schedule: Schedule, roundSize: int,
                 dailyNewBlockLimit: int, overdueWindow: int)
      ensures this.blocks == blocks && this.records == records && this.schedule == schedule
      ensures this.roundSize == roundSize && this.dailyNewBlockLimit == dailyNewBlockLimit
      ensures this.overdueWindow == overdueWindow
    {
      this.blocks, this.records, this.schedule := blocks, records, schedule;
      this.roundSize, this.dailyNewBlockLimit, this.overdueWindow := roundSize, dailyNewBlockLimit, overdueWindow;
    }

    function Value(): World
      reads this, blocks, records
    {
      World(blocks.blocks, records.nextId, records.records)
    }

    /** Judge, given what the model said of the attempt. */
    method Judge(userId: string, blockId: string, asr: string, verdict: Verdict, now: int)
      returns (r: Result<JudgeAnswer>)
      modifies blocks`blocks, records
      ensures (Value(), r) == JudgeStep(schedule, old(Value()), userId, blockId, asr, verdict, now)
    {
      var user, id := TrimSpace(userId), TrimSpace(blockId);
      if user == "" { return Err(Unauthenticated); }
      if id == "" || Blank(asr) { return Err(InvalidArgument); }
      var peeked := blocks.PeekBlock(id);
      if peeked.Err? || peeked.value.deletedAt.Some? { return Err(NotFound); }
      if peeked.value.userId != user { return Err(PermissionDenied); }
      r := Score(user, id, peeked.value, verdict, now);
    }

    method Score(user: string, id: string, block: PhraseBlock, verdict: Verdict, now: int)
      returns (r: Result<JudgeAnswer>)
      requires Value().Live(user, id) && blocks.blocks[id] == block
      modifies blocks`blocks, records
      ensures (Value(), r) == Attempt(schedule, old(Value()), user, id, verdict, now)
    {
      if verdict.Unjudged? {
        var recordId := records.Insert(Record(0, user, id, false, false, Some(block.ladder), None, now));
        return Ok(JudgeAnswer(false, false, true, block.ladder, recordId, false));
      }
      var updated := ApplyJudge(schedule, block, verdict.pass, now);
      var saved := blocks.UpdateSchedule(user, id, updated.ladder, now);
      if saved.Err? { return Err(NotFound); }
      var recordId := records.Insert(Record(0, user, id, true, verdict.pass, Some(block.ladder), None, now));
      var promoted := saved.value.ladder.state == Automated && block.ladder.state != Automated;
      return Ok(JudgeAnswer(verdict.pass, true, false, saved.value.ladder, recordId, promoted));
    }

    /** Appeal: one tap of "what I said was right". */
    method Appeal(userId: string, recordId: int, now: int) returns (r: Result<AppealAnswer>)
      requires forall i | 0 <= i < |records.records| :: records.records[i].id > 0
      modifies blocks`blocks, records`records
      ensures (Value(), r) == AppealStep(old(Value()), userId, recordId, now)
    {
      var user := TrimSpace(userId);
      if user == "" { return Err(Unauthenticated); }
      if recordId <= 0 { return Err(InvalidArgument); }
      var got := records.GetRecord(user, recordId);
      if got.Err? { return Err(NotFound); }
      r := DisputeRecord(user, got.value, now);
    }

    method DisputeRecord(user: string, rec: Record, now: int) returns (r: Result<AppealAnswer>)
      requires rec.id > 0 && Lookup(records.records, user, rec.id).Some?
               && records.records[Lookup(records.records, user, rec.id).value] == rec
      modifies blocks`blocks, records`records
      ensures (Value(), r) == Dispute(old(Value()), user, Lookup(old(records.records), user, rec.id).value, now)
    {
      var answer := AppealAnswer(rec.id, rec.blockId, false, false, NoNote, None);
      if rec.appealedAt.Some? {
        return Ok(answer.(already := true, note := AlreadyAppealed, ladder := BlockState(Value(), user, rec.blockId)));
      }
      if !rec.judged {
        answer := answer.(note := NotJudged);
      } else if rec.pass {
        answer := answer.(note := Passed);
      } else if rec.prev.None? {
        answer := answer.(note := NoSnapshot);
      } else {
        var latest := records.IsLatestForBlock(user, rec.blockId, rec.id);
        if latest.Err? { return Err(NotFound); }
        if !latest.value {
          answer := answer.(note := NewerAttempt);
        } else {
          var saved := blocks.UpdateSchedule(user, rec.blockId, rec.prev.value, now);
          if saved.Err? { return Err(NotFound); }
          answer := answer.(restored := true, ladder := Some(saved.value.ladder));
        }
      }
      var first := records.MarkAppealed(user, rec.id, now);
      if first.Err? { return Err(NotFound); }
      if answer.ladder.None? {
        answer := answer.(ladder := BlockState(Value(), user, rec.blockId));
      }
      return Ok(answer.(already := !first.value));
    }

    predicate ReleasesNew(user: string, now: int)
      reads this, records
    {
      BudgetLeft(records.records, user, now, dailyNewBlockLimit)
    }

    method IncludeNew(user: string, now: int) returns (include_: bool)
      ensures include_ == ReleasesNew(user, now)
    {
      if dailyNewBlockLimit <= 0 { return true; }
      var served := records.CountNewReleasesSince(user, now - now % DAY);
      return served < dailyNewBlockLimit;
    }

    /** Round: sweep, check the day's budget, deal. */
    method Round(userId: string, size: int, now: int) returns (r: Result<seq<PhraseBlock>>)
      requires forall id | id in blocks.blocks :: blocks.blocks[id].id == id
      modifies blocks`blocks
      ensures r.Ok? <==> !Blank(userId)
      ensures r.Err? ==> blocks.Value() == old(blocks.Value())
      ensures r.Ok? ==> blocks.Value() == Rounds.SweptCorpus(old(blocks.Value()), TrimSpace(userId), now, overdueWindow)
      ensures r.Ok? ==> Dealt(r.value, TrimSpace(userId), size, now)
    {
      if Blank(userId) { return Err(Unauthenticated); }
      var cards := RoundFor(TrimSpace(userId), size, now);
      return Ok(cards);
    }

    /** The cards are the round's selection, under the day's budget of new blocks. */
    ghost predicate Dealt(cards: seq<PhraseBlock>, user: string, size: int, now: int)
      reads this, blocks, records
    {
      forall rows | Enumerates(rows, blocks.blocks) ::
        cards == Rounds.SelectBlocksForRound(rows, user, now, Rounds.RoundSize(size, roundSize), ReleasesNew(user, now))
    }

    method Sweep(user: string, now: int)
      requires forall id | id in blocks.blocks :: blocks.blocks[id].id == id
      modifies blocks`blocks
      ensures forall id | id in blocks.blocks :: blocks.blocks[id].id == id
      ensures blocks.Value() == Rounds.SweptCorpus(old(blocks.Value()), user, now, overdueWindow)
    {
      if overdueWindow > 0 {
        var moved := blocks.SweepOverdue(user, now - overdueWindow, now);
      }
    }

    method RoundFor(user: string, size: int, now: int) returns (cards: seq<PhraseBlock>)
      requires forall id | id in blocks.blocks :: blocks.blocks[id].id == id
      modifies blocks`blocks
      ensures blocks.Value() == Rounds.SweptCorpus(old(blocks.Value()), user, now, overdueWindow)
      ensures Dealt(cards, user, size, now)
    {
      cards := SweepAndDeal(user, Rounds.RoundSize(size, roundSize), now);
    }

    method SweepAndDeal(user: string, size: int, now: int) returns (cards: seq<PhraseBlock>)
      requires forall id | id in blocks.blocks :: blocks.blocks[id].id == id
      modifies blocks`blocks
      ensures blocks.Value() == Rounds.SweptCorpus(old(blocks.Value()), user, now, overdueWindow)
      ensures forall rows | Enumerates(rows, blocks.blocks) ::
        cards == Rounds.SelectBlocksForRound(rows, user, now, size, ReleasesNew(user, now))
    {
      Sweep(user, now);
      var includeNew := IncludeNew(user, now);
      cards := Select(user, now, size, includeNew);
    }

    method Select(user: string, now: int, size: int, includeNew: bool) returns (out: seq<PhraseBlock>)
      requires forall id | id in blocks.blocks :: blocks.blocks[id].id == id
      ensures forall rows | Enumerates(rows, blocks.blocks) ::
                out == Rounds.SelectBlocksForRound(rows, user, now, size, includeNew)
    {
      if size <= 0 { return []; }
      var primary := blocks.ListDueBlocks(user, now, Rounds.PrimaryStates(includeNew), size);
      forall rows | Enumerates(rows, blocks.blocks)
        ensures primary == Rounds.ListDue(rows, user, now, Rounds.PrimaryStates(includeNew), size)
      {
      }
      if |primary| >= size {
        forall rows | Enumerates(rows, blocks.blocks)
          ensures primary[..size] == Rounds.SelectBlocksForRound(rows, user, now, size, includeNew)
        {
          Rounds.DealtFromListings(rows, user, now, size, includeNew, primary, []);
        }
        return primary[..size];
      }
      var extra := blocks.ListDueBlocks(user, now, {Automated}, size - |primary|);
      forall rows | Enumerates(rows, blocks.blocks)
        ensures Take(Sort(Rounds.DueBefore, primary + extra), size) ==
                  Rounds.SelectBlocksForRound(rows, user, now, size, includeNew)
      {
        Rounds.DealtFromListings(rows, user, now, size, includeNew, primary, extra);
      }
      out := Sort(Rounds.DueBefore, primary + extra);
      out := Take(out, size);
    }
  }
}
