/**
 Whole service requests as runs of store operations, so that what CorpusRuns proves of every run holds after
 every sequence of requests: accepted blocks and check-ins here, hit reports in CorpusRuns.ReportIsARun.
 */
module CorpusRequests {
  import opened Wrappers
  import opened Ordering
  import opened CorpusModel
  import opened CorpusRuns
  import opened Tables
  import CorpusStore
  import BatchAccept

  /** A run that goes on is the run of what follows from where it had got. */
  lemma {:induction false} RunsCompose(t: Tracked, ops: seq<Op>, more: seq<Op>)
    requires t.history.Keys == t.c.blocks.Keys
    ensures Exec(t, ops + more) == Exec(Exec(t, ops), more)
  {
    if more == [] {
      assert ops + more == ops;
    } else {
      var n := |more| - 1;
      RunsCompose(t, ops, more[..n]);
      assert (ops + more)[..|ops + more| - 1] == ops + more[..n];
    }
  }

  /** The saves of one accepted request, as run steps. */
  function AcceptOps(blocks: seq<PhraseBlock>, founds: seq<Option<string>>): (r: seq<Op>)
    requires |founds| == |blocks|
    ensures |r| == |blocks|
  {
    seq(|blocks|, i requires 0 <= i < |blocks| => Accept(blocks[i], founds[i]))
  }

  /** Saving blocks adds no row but theirs. */
  lemma {:induction false} NoOtherIds(c: Corpus, blocks: seq<PhraseBlock>, founds: seq<Option<string>>, id: string)
    requires FindsAll(c, blocks, founds) && id !in c.blocks && forall i | 0 <= i < |blocks| :: blocks[i].id != id
    ensures id !in SaveAllAccepted(c, blocks, founds).blocks
  {
    if blocks != [] { NoOtherIds(c, blocks[..|blocks| - 1], founds[..|blocks| - 1], id); }
  }

  /** Saving a request's new blocks is the run of its saves. */
  lemma {:induction false} SavesAreARun(t: Tracked, blocks: seq<PhraseBlock>, founds: seq<Option<string>>)
    requires t.history.Keys == t.c.blocks.Keys
    requires FindsAll(t.c, blocks, founds) && OneRowPerId(blocks)
    requires forall i | 0 <= i < |blocks| :: Newborn(t.c, blocks[i])
    ensures Exec(t, AcceptOps(blocks, founds)).c == SaveAllAccepted(t.c, blocks, founds)
  {
    if blocks != [] {
      var n := |blocks| - 1;
      var ops := AcceptOps(blocks, founds);
      assert ops[..n] == AcceptOps(blocks[..n], founds[..n]);
      SavesAreARun(t, blocks[..n], founds[..n]);
      var c0 := SaveAllAccepted(t.c, blocks[..n], founds[..n]);
      StillNewborn(t.c, c0, blocks, founds);
      assert Step(Exec(t, ops[..n]), ops[n]).c == SaveAccepted(c0, blocks[n], founds[n]);
    }
  }

  lemma StillNewborn(c: Corpus, c0: Corpus, blocks: seq<PhraseBlock>, founds: seq<Option<string>>)
    requires blocks != [] && FindsAll(c, blocks, founds) && OneRowPerId(blocks)
    requires c0 == SaveAllAccepted(c, blocks[..|blocks| - 1], founds[..|blocks| - 1])
    requires Newborn(c, blocks[|blocks| - 1])
    ensures Newborn(c0, blocks[|blocks| - 1])
  {
    var n := |blocks| - 1;
    var rest := blocks[..n];
    assert forall i | 0 <= i < n :: rest[i] == blocks[i] && rest[i].id != blocks[n].id;
    NoOtherIds(c, rest, founds[..n], blocks[n].id);
  }

  /** An accepted request under new ids is a run, so the run laws hold after it. */
  lemma AcceptIsARun(t: Tracked, rows: seq<PhraseBlock>, user: string, session: string, now: int, ids: seq<string>,
                     items: seq<Wording>, founds: seq<Option<string>>, plan: BatchAccept.Plan, c1: Corpus)
    requires t.history.Keys == t.c.blocks.Keys
    requires |ids| == |items| && Distinct(ids) && forall id | id in ids :: id !in t.c.blocks
    requires var blocks := BatchAccept.AcceptedBlocks(user, session, now, ids, items);
             BatchAccept.Accepts(t.c, rows, user, blocks, founds, plan, c1)
    ensures |founds| == |plan.added| && Exec(t, AcceptOps(plan.added, founds)).c == c1
  {
    var blocks := BatchAccept.AcceptedBlocks(user, session, now, ids, items);
    BatchAccept.AcceptedAreNew(t.c, user, session, now, ids, items);
    BatchAccept.PlanAddsItems(BatchAccept.ByExpression(BatchAccept.Scan(rows, user)), blocks);
    forall i | 0 <= i < |plan.added| ensures Newborn(t.c, plan.added[i]) {
      assert plan.added[i] in blocks;
    }
    SavesAreARun(t, plan.added, founds);
  }

  /** The uses of one check-in, as run steps. */
  function UseOps(user: string, ids: seq<string>, source: UseSource, ref: string, at: int): (r: seq<Op>)
    ensures |r| == |ids|
  {
    seq(|ids|, i requires 0 <= i < |ids| => Op.RealUse(user, ids[i], source, ref, at))
  }

  /** A check-in is the run of its uses, so the run laws hold after it. */
  lemma {:induction false} CheckinIsARun(t: Tracked, user: string, ids: seq<string>, source: UseSource, ref: string,
                                         at: int)
    requires t.history.Keys == t.c.blocks.Keys
    ensures Exec(t, UseOps(user, ids, source, ref, at)).c ==
              CorpusStore.RecordUses(t.c, user, ids, source, ref, at)
  {
    if ids != [] {
      var n := |ids| - 1;
      var ops := UseOps(user, ids, source, ref, at);
      assert ops[..n] == UseOps(user, ids[..n], source, ref, at);
      CheckinIsARun(t, user, ids[..n], source, ref, at);
    }
  }
}
