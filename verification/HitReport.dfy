/**
 A report of detected phrases for one turn (internal/corpus/hits_service.go): trimming and
 deduplication, the block-id order, and the store write-back. The effect of a report depends only on
 the latest detection per block, and reporting twice is reporting once.
 */
module HitReport {
  import opened CorpusModel
  import opened Text
  import opened Ordering

  datatype Hit = Hit(blockId: string, turnId: string, detectedAtMs: int)

  /** The latest detection per block of a report; blank block ids are dropped. */
  function Latest(hits: seq<Hit>): map<string, int> {
    if hits == [] then map[]
    else
      var n := |hits| - 1;
      var m := Latest(hits[..n]);
      var id := TrimSpace(hits[n].blockId);
      if id == "" || (id in m && hits[n].detectedAtMs < m[id]) then m else m[id := hits[n].detectedAtMs]
  }

  /** The hit names this block and was detected at this time. */
  predicate Mentions(h: Hit, id: string, ms: int) {
    TrimSpace(h.blockId) == id && h.detectedAtMs == ms
  }

  /** Every block named in the report has an entry, no earlier than any of its detections. */
  lemma {:induction false} LatestIsAnUpperBound(hits: seq<Hit>, h: Hit)
    requires h in hits && TrimSpace(h.blockId) != ""
    ensures TrimSpace(h.blockId) in Latest(hits)
    ensures h.detectedAtMs <= Latest(hits)[TrimSpace(h.blockId)]
  {
    var n := |hits| - 1;
    assert hits == hits[..n] + [hits[n]];
    if h in hits[..n] { LatestIsAnUpperBound(hits[..n], h); }
  }

  /** Every entry is one of the report's detections. */
  lemma {:induction false} LatestIsAttained(hits: seq<Hit>, id: string) returns (h: Hit)
    requires id in Latest(hits)
    ensures h in hits && id != "" && Mentions(h, id, Latest(hits)[id])
  {
    var n := |hits| - 1;
    if Mentions(hits[n], id, Latest(hits)[id]) && id != "" {
      h := hits[n];
    } else {
      h := LatestIsAttained(hits[..n], id);
    }
  }

  lemma LatestBelow(hits: seq<Hit>, others: seq<Hit>, id: string)
    requires forall h :: h in hits ==> h in others
    requires id in Latest(hits)
    ensures id in Latest(others) && Latest(hits)[id] <= Latest(others)[id]
  {
    var h := LatestIsAttained(hits, id);
    LatestIsAnUpperBound(others, h);
  }

  /** Reordering a report changes no block and no time in it. */
  lemma LatestIgnoresOrder(hits: seq<Hit>, others: seq<Hit>)
    requires forall h :: h in hits <==> h in others
    ensures Latest(hits) == Latest(others)
  {
    forall id | id in Latest(hits)
      ensures id in Latest(others) && Latest(hits)[id] <= Latest(others)[id]
    {
      LatestBelow(hits, others, id);
    }
    forall id | id in Latest(others)
      ensures id in Latest(hits) && Latest(others)[id] <= Latest(hits)[id]
    {
      LatestBelow(others, hits, id);
    }
  }

  /** The elements of a set of ids, in some order. */
  ghost function Enumerate(ids: set<string>): (r: seq<string>)
    ensures Distinct(r)
    ensures forall x :: x in r <==> x in ids
  {
    if ids == {} then [] else var x :| x in ids; [x] + Enumerate(ids - {x})
  }

  lemma StrLessIsAWeakOrder()
    ensures WeakOrder(StrLess)
  {
    StrLessOrder();
    forall x, y, z | StrLess(x, z) ensures StrLess(x, y) || StrLess(y, z) {
      StrLessTotal(x, y);
      StrLessTotal(y, z);
    }
  }

  /** The order in which a report reaches the store: by block id. */
  ghost function SortedIds(ids: set<string>): (r: seq<string>)
    ensures StrictlySorted(StrLess, r)
    ensures forall x :: x in r <==> x in ids
  {
    var s := Enumerate(ids);
    StrLessIsAWeakOrder();
    StrLessOrder();
    SortIsStrict(StrLess, s);
    SortSorts(StrLess, s);
    Sort(StrLess, s)
  }

  function RecordAll(c: Corpus, user: string, session: string, turn: string, ids: seq<string>,
                     times: map<string, int>): Corpus
    requires forall id | id in ids :: id in times
  {
    if ids == [] then c
    else
      var n := |ids| - 1;
      assert forall id | id in ids[..n] :: id in ids;
      RecordHit(RecordAll(c, user, session, turn, ids[..n], times), user, session, turn, ids[n], times[ids[n]])
  }

  /** The store after one report. */
  ghost function Report(c: Corpus, user: string, session: string, turn: string, hits: seq<Hit>): Corpus {
    RecordAll(c, user, session, turn, SortedIds(Latest(hits).Keys), Latest(hits))
  }

  /** Recording a report is invariant under any permutation of its hits. */
  lemma ReportIgnoresOrder(c: Corpus, user: string, session: string, turn: string, hits: seq<Hit>, others: seq<Hit>)
    requires multiset(hits) == multiset(others)
    ensures Report(c, user, session, turn, hits) == Report(c, user, session, turn, others)
    ensures |Latest(hits)| == |Latest(others)|
  {
    forall h ensures h in hits <==> h in others {
      assert h in hits <==> h in multiset(hits);
      assert h in others <==> h in multiset(others);
    }
    LatestIgnoresOrder(hits, others);
  }

  lemma UseKeyKeepsBlocksApart(session: string, turn: string, x: string, y: string)
    requires UseKey(session, turn, x) == UseKey(session, turn, y)
    ensures x == y
  {
    var p := session + "\0" + turn + "\0";
    assert (p + x)[|p|..] == x && (p + y)[|p|..] == y;
  }

  /** After a report, every block in it has its hit row, stamped with its latest time. */
  lemma {:induction false} RecordAllStamps(c: Corpus, user: string, session: string, turn: string, ids: seq<string>,
                                           times: map<string, int>, id: string)
    requires forall x | x in ids :: x in times
    requires id in ids
    ensures UseKey(session, turn, id) in RecordAll(c, user, session, turn, ids, times).uses
    ensures RecordAll(c, user, session, turn, ids, times).uses[UseKey(session, turn, id)] ==
              Use(user, session, turn, id, times[id])
  {
    var n := |ids| - 1;
    if id != ids[n] {
      assert ids == ids[..n] + [ids[n]];
      if UseKey(session, turn, id) == UseKey(session, turn, ids[n]) {
        UseKeyKeepsBlocksApart(session, turn, id, ids[n]);
      }
      RecordAllStamps(c, user, session, turn, ids[..n], times, id);
    }
  }

  /** Recording hits whose rows are already stamped does nothing. */
  lemma {:induction false} RecordAllAgain(c: Corpus, user: string, session: string, turn: string, ids: seq<string>,
                                          times: map<string, int>)
    requires forall x | x in ids :: x in times
    requires forall x | x in ids ::
             UseKey(session, turn, x) in c.uses
               && c.uses[UseKey(session, turn, x)] == Use(user, session, turn, x, times[x])
    ensures RecordAll(c, user, session, turn, ids, times) == c
  {
    if ids != [] {
      var n := |ids| - 1;
      assert ids == ids[..n] + [ids[n]];
      RecordAllAgain(c, user, session, turn, ids[..n], times);
      var key := UseKey(session, turn, ids[n]);
      assert c.uses[key := c.uses[key]] == c.uses;
    }
  }

  /** Replaying a report changes no block, no provenance row and no hit row. */
  lemma ReportTwiceIsReportOnce(c: Corpus, user: string, session: string, turn: string, hits: seq<Hit>)
    ensures var once := Report(c, user, session, turn, hits); Report(once, user, session, turn, hits) == once
  {
    var times := Latest(hits);
    var ids := SortedIds(times.Keys);
    forall x | x in ids ensures
      && UseKey(session, turn, x) in Report(c, user, session, turn, hits).uses
      && Report(c, user, session, turn, hits).uses[UseKey(session, turn, x)] == Use(user, session, turn, x, times[x])
    {
      RecordAllStamps(c, user, session, turn, ids, times, x);
    }
    RecordAllAgain(Report(c, user, session, turn, hits), user, session, turn, ids, times);
  }
}
