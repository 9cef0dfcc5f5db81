/**
 Which cards a drill round holds (internal/drill/scheduler.go, service.go): due new and training
 blocks first, topped up with due automated ones, after the overdue sweep.
 */
module Rounds {
  import opened Text
  import opened Ordering
  import opened Schedule
  import opened CorpusModel
  import opened Tables

  const DEFAULT_ROUND_SIZE := 10
  const MAX_ROUND_SIZE := 20

  /** The order of the due list: due time, then id. */
  predicate DueBefore(x: PhraseBlock, y: PhraseBlock) {
    x.ladder.due < y.ladder.due || (x.ladder.due == y.ladder.due && StrLess(x.id, y.id))
  }

  predicate IsDue(b: PhraseBlock, user: string, now: int, states: set<State>) {
    b.userId == user && b.deletedAt.None? && b.ladder.state in states && b.ladder.due <= now
  }

  function Due(user: string, now: int, states: set<State>): PhraseBlock -> bool { b => IsDue(b, user, now, states) }

  /** Every due block in the given states, in due order. */
  function Queue(rows: seq<PhraseBlock>, user: string, now: int, states: set<State>): seq<PhraseBlock> {
    Sort(DueBefore, Keep(Due(user, now, states), rows))
  }

  /** ListDueBlocks: a limit that is not positive means no limit. */
  function Cut(queue: seq<PhraseBlock>, limit: int): seq<PhraseBlock> {
    if limit > 0 then Take(queue, limit) else queue
  }

  function ListDue(rows: seq<PhraseBlock>, user: string, now: int, states: set<State>, limit: int): seq<PhraseBlock> {
    Cut(Queue(rows, user, now, states), limit)
  }

  function PrimaryStates(includeNew: bool): set<State> { if includeNew then {New, Training} else {Training} }

  /** SelectBlocksForRound, over the two due queues. */
  function Deal(primary: seq<PhraseBlock>, automated: seq<PhraseBlock>, size: int): seq<PhraseBlock> {
    if size <= 0 then []
    else
      var first := Cut(primary, size);
      if |first| >= size then first[..size]
      else Take(Sort(DueBefore, first + Cut(automated, size - |first|)), size)
  }

  function SelectBlocksForRound(rows: seq<PhraseBlock>, user: string, now: int, size: int,
                                includeNew: bool): seq<PhraseBlock> {
    Deal(Queue(rows, user, now, PrimaryStates(includeNew)), Queue(rows, user, now, {Automated}), size)
  }

  /** The round out of what the two ListDueBlocks calls return. */
  lemma DealtFromListings(rows: seq<PhraseBlock>, user: string, now: int, size: nat, includeNew: bool,
                          primary: seq<PhraseBlock>, extra: seq<PhraseBlock>)
    requires size > 0 && primary == ListDue(rows, user, now, PrimaryStates(includeNew), size)
    requires |primary| < size ==> extra == ListDue(rows, user, now, {Automated}, size - |primary|)
    ensures SelectBlocksForRound(rows, user, now, size, includeNew) ==
            if |primary| >= size then primary[..size] else Take(Sort(DueBefore, primary + extra), size)
  {
  }

  lemma DueOrderLists()
    ensures ListingOrder(DueBefore)
  {
    StrLessOrder();
    forall x, y, z | DueBefore(x, y) && DueBefore(y, z) ensures DueBefore(x, z) {}
    forall x, y, z | DueBefore(x, z) ensures DueBefore(x, y) || DueBefore(y, z) {}
    forall x: PhraseBlock, y: PhraseBlock | x.id != y.id
      ensures DueBefore(x, y) || DueBefore(y, x)
    {
      StrLessTotal(x.id, y.id);
    }
  }

  lemma QueueIsSorted(rows: seq<PhraseBlock>, user: string, now: int, states: set<State>)
    requires OneRowPerId(rows)
    ensures StrictlySorted(DueBefore, Queue(rows, user, now, states))
    ensures forall b :: b in Queue(rows, user, now, states) <==> b in rows && IsDue(b, user, now, states)
  {
    var p := Due(user, now, states);
    DueOrderLists();
    KeepIsAFilter(p, rows);
    KeepKeepsIdsApart(p, rows);
    ListingIsStrict(DueBefore, Keep(p, rows));
  }

  lemma SortedStaysPut(s: seq<PhraseBlock>)
    requires StrictlySorted(DueBefore, s)
    ensures Sort(DueBefore, s) == s
  {
    if s != [] {
      assert forall i, j | 0 <= i < j < |s[1..]| :: s[1..][i] == s[i + 1] && s[1..][j] == s[j + 1];
      SortedStaysPut(s[1..]);
      DueOrderLists();
      assert forall i | 0 < i < |s| :: DueBefore(s[0], s[i]) && !DueBefore(s[i], s[0]);
    }
  }

  /**
   A round is the first `size` cards of the deck (due primary cards, then due automated ones), re-sorted
   by due time and id. In particular it is as large as the deck and the size allow.
   */
  lemma RoundDealsFromTheDeck(primary: seq<PhraseBlock>, automated: seq<PhraseBlock>, size: nat)
    requires StrictlySorted(DueBefore, primary)
    ensures Deal(primary, automated, size) == Sort(DueBefore, Take(primary + automated, size))
    ensures forall b :: b in Deal(primary, automated, size) <==> b in Take(primary + automated, size)
  {
    DueOrderLists();
    DealIsTheSortedPrefix(primary, automated, size);
    SortSorts(DueBefore, Take(primary + automated, size));
  }

  lemma DealIsTheSortedPrefix(primary: seq<PhraseBlock>, automated: seq<PhraseBlock>, size: nat)
    requires StrictlySorted(DueBefore, primary)
    ensures Deal(primary, automated, size) == Sort(DueBefore, Take(primary + automated, size))
  {
    TakeOfBoth(primary, automated, size);
    if |primary| >= size {
      SortedStaysPut(primary[..size]);
    }
  }

  /** A dealt card comes from one of the queues; if not from the primary one, all of that was dealt. */
  lemma DealtCard(primary: seq<PhraseBlock>, automated: seq<PhraseBlock>, size: nat, card: PhraseBlock)
    requires StrictlySorted(DueBefore, primary) && card in Deal(primary, automated, size)
    ensures card in primary || card in automated
    ensures card !in primary ==> forall b | b in primary :: b in Deal(primary, automated, size)
    ensures card in primary ==> forall b | b in primary && DueBefore(b, card) :: b in Deal(primary, automated, size)
  {
    RoundDealsFromTheDeck(primary, automated, size);
    TakenFromEither(primary, automated, size, card);
    DueOrderLists();
    forall b | b in primary && (card in primary ==> DueBefore(b, card)) ensures b in Take(primary + automated, size) {
      TakenInOrder(DueBefore, primary, automated, size, card, b);
    }
  }

  lemma TakenFromEither(primary: seq<PhraseBlock>, automated: seq<PhraseBlock>, size: nat, card: PhraseBlock)
    requires card in Take(primary + automated, size)
    ensures card in primary || card in automated
  {
  }

  /** No automated card displaces a due new or training one, and every card dealt is due. */
  lemma NoAutomatedCardDisplacesAPrimaryOne(rows: seq<PhraseBlock>, user: string, now: int, size: nat,
                                            includeNew: bool, card: PhraseBlock, left: PhraseBlock)
    requires OneRowPerId(rows)
    requires card in SelectBlocksForRound(rows, user, now, size, includeNew)
    requires left in rows && IsDue(left, user, now, PrimaryStates(includeNew))
    ensures card in rows && IsDue(card, user, now, PrimaryStates(includeNew) + {Automated})
    ensures card.ladder.state == Automated ==> left in SelectBlocksForRound(rows, user, now, size, includeNew)
  {
    QueueIsSorted(rows, user, now, PrimaryStates(includeNew));
    QueueIsSorted(rows, user, now, {Automated});
    DealtCard(Queue(rows, user, now, PrimaryStates(includeNew)), Queue(rows, user, now, {Automated}), size, card);
  }

  /** Within the primary cards, the ones dealt are the longest due. */
  lemma EarlierDuePrimaryCardsComeFirst(rows: seq<PhraseBlock>, user: string, now: int, size: nat, includeNew: bool,
                                        card: PhraseBlock, earlier: PhraseBlock)
    requires OneRowPerId(rows)
    requires card in SelectBlocksForRound(rows, user, now, size, includeNew)
    requires card.ladder.state in PrimaryStates(includeNew)
    requires earlier in rows && IsDue(earlier, user, now, PrimaryStates(includeNew)) && DueBefore(earlier, card)
    ensures earlier in SelectBlocksForRound(rows, user, now, size, includeNew)
  {
    QueueIsSorted(rows, user, now, PrimaryStates(includeNew));
    QueueIsSorted(rows, user, now, {Automated});
    DealtCard(Queue(rows, user, now, PrimaryStates(includeNew)), Queue(rows, user, now, {Automated}), size, card);
  }

  /** The sweep horizon of a round; a window that is not positive switches the sweep off. */
  function SweptCorpus(c: Corpus, user: string, now: int, window: int): Corpus {
    if window <= 0 then c else SweepOverdue(c, user, now - window, now)
  }

  /**
   The sweep moves due times but never changes which blocks are due in which state: a row is queued
   after the sweep exactly when it was queued before. Afterwards none of the learner's live blocks is
   overdue by more than the window.
   */
  lemma SweepKeepsWhatIsDue(rows: seq<PhraseBlock>, swept: seq<PhraseBlock>, user: string, now: int, window: nat,
                            states: set<State>, i: nat)
    requires OneRowPerId(rows) && |swept| == |rows|
    requires forall k | 0 <= k < |rows| :: swept[k] == Swept(rows[k], user, now - window, now)
    requires i < |rows|
    ensures OneRowPerId(swept)
    ensures rows[i] in Queue(rows, user, now, states) <==> swept[i] in Queue(swept, user, now, states)
    ensures rows[i].userId == user && rows[i].deletedAt.None? ==> now - window <= swept[i].ladder.due
  {
    forall j, k | 0 <= j < k < |swept| ensures swept[j].id != swept[k].id {
      assert rows[j].id != rows[k].id;
    }
    QueueIsSorted(rows, user, now, states);
    QueueIsSorted(swept, user, now, states);
    assert IsDue(rows[i], user, now, states) <==> IsDue(swept[i], user, now, states);
  }

  /** The size a request asks for, as Round reads it. */
  function RoundSize(requested: int, configured: int): int {
    var size := if requested > 0 then requested else if configured > 0 then configured else DEFAULT_ROUND_SIZE;
    if size > MAX_ROUND_SIZE then MAX_ROUND_SIZE else size
  }

  /** The block is waiting for the learner in one of these states. */
  predicate Waiting(b: PhraseBlock, user: string, now: int, states: set<State>) {
    b.userId == user && b.deletedAt.None? && b.ladder.due <= now && b.ladder.state in states
  }

  predicate DueEarlier(x: PhraseBlock, y: PhraseBlock) {
    x.ladder.due < y.ladder.due || (x.ladder.due == y.ladder.due && StrLess(x.id, y.id))
  }

  /** The due list: exactly the blocks that wait in the states, earliest due first and by id among equals. */
  lemma DueListMeans(rows: seq<PhraseBlock>, user: string, now: int, states: set<State>)
    requires OneRowPerId(rows)
    ensures forall b :: b in Queue(rows, user, now, states) <==> b in rows && Waiting(b, user, now, states)
    ensures StrictlySorted(DueEarlier, Queue(rows, user, now, states))
  {
    QueueIsSorted(rows, user, now, states);
    var queue := Queue(rows, user, now, states);
    forall i, j | 0 <= i < j < |queue| ensures DueEarlier(queue[i], queue[j]) { assert DueBefore(queue[i], queue[j]); }
  }

  /** New blocks are primary only while the day's budget lasts; training ones always, automated ones never. */
  lemma PrimaryStatesMean(includeNew: bool, s: State)
    ensures s in PrimaryStates(includeNew) <==> s == Training || (s == New && includeNew)
  {
  }

  /** A round is as large as was asked for, else as configured, else ten; never larger than twenty. */
  lemma RoundSizeMeans(requested: int, configured: int)
    ensures var size := RoundSize(requested, configured);
            && 0 < size <= 20
            && (0 < requested <= 20 ==> size == requested) && (requested > 20 ==> size == 20)
            && (requested <= 0 && 0 < configured <= 20 ==> size == configured)
            && (requested <= 0 && configured > 20 ==> size == 20)
            && (requested <= 0 && configured <= 0 ==> size == 10)
  {
  }
}
