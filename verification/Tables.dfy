/** Phrase blocks as table rows: one row per id, read in any order, listed in one. */
module Tables {
  import opened CorpusModel
  import opened Ordering

  ghost predicate OneRowPerId(rows: seq<PhraseBlock>) {
    forall i, j | 0 <= i < j < |rows| :: rows[i].id != rows[j].id
  }

  /** The rows are the blocks of the map, in some order. */
  ghost predicate Enumerates(rows: seq<PhraseBlock>, blocks: map<string, PhraseBlock>) {
    && OneRowPerId(rows)
    && (forall b :: b in rows <==> b.id in blocks && blocks[b.id] == b)
  }

  /** The comparison orders rows and never ties two ids. */
  ghost predicate ListingOrder(less: (PhraseBlock, PhraseBlock) -> bool) {
    && WeakOrder(less)
    && (forall x: PhraseBlock, y: PhraseBlock :: x.id != y.id ==> less(x, y) || less(y, x))
  }

  lemma {:induction false} KeepKeepsIdsApart(p: PhraseBlock -> bool, rows: seq<PhraseBlock>)
    requires OneRowPerId(rows)
    ensures OneRowPerId(Keep(p, rows))
  {
    if rows != [] {
      var rest := Keep(p, rows[1..]);
      assert forall i, j | 0 <= i < j < |rows[1..]| :: rows[1..][i] == rows[i + 1] && rows[1..][j] == rows[j + 1];
      KeepKeepsIdsApart(p, rows[1..]);
      KeepIsAFilter(p, rows[1..]);
      forall j | 0 <= j < |rest| ensures rest[j].id != rows[0].id {
        assert rest[j] in rows[1..];
      }
    }
  }

  lemma SameIdSameRow(rows: seq<PhraseBlock>, x: PhraseBlock, y: PhraseBlock)
    requires OneRowPerId(rows) && x in rows && y in rows && x.id == y.id
    ensures x == y
  {
    var i :| 0 <= i < |rows| && rows[i] == x;
    var j :| 0 <= j < |rows| && rows[j] == y;
    assert i == j;
  }

  /** Sorted rows are strictly sorted, and none is lost. */
  lemma ListingIsStrict(less: (PhraseBlock, PhraseBlock) -> bool, rows: seq<PhraseBlock>)
    requires ListingOrder(less) && OneRowPerId(rows)
    ensures StrictlySorted(less, Sort(less, rows))
    ensures forall b :: b in Sort(less, rows) <==> b in rows
  {
    SortSorts(less, rows);
    forall x, y | x in rows && y in rows && x != y ensures less(x, y) || less(y, x) {
      if x.id == y.id { SameIdSameRow(rows, x, y); }
    }
    SortIsStrict(less, rows);
  }

  /** The listing of the rows that satisfy p does not depend on the order in which the map was read. */
  lemma ListingIgnoresIteration(less: (PhraseBlock, PhraseBlock) -> bool, p: PhraseBlock -> bool,
                                rows: seq<PhraseBlock>, others: seq<PhraseBlock>)
    requires ListingOrder(less) && OneRowPerId(rows) && OneRowPerId(others)
    requires forall b :: p(b) ==> (b in rows <==> b in others)
    ensures Sort(less, Keep(p, rows)) == Sort(less, Keep(p, others))
  {
    KeepIsAFilter(p, rows);
    KeepIsAFilter(p, others);
    KeepKeepsIdsApart(p, rows);
    KeepKeepsIdsApart(p, others);
    ListingIsStrict(less, Keep(p, rows));
    ListingIsStrict(less, Keep(p, others));
    StrictlySortedUnique(less, Sort(less, Keep(p, rows)), Sort(less, Keep(p, others)));
  }
}
