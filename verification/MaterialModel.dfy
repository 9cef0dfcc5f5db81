/** The refine lease of submitted materials (internal/materials/memory_store.go, model.go, refiner.go). */
module MaterialModel {
  import opened Wrappers
  import opened Text
  import opened Ordering
  import opened Schedule

  const MAX_REFINE_ATTEMPTS := 2
  const DEFAULT_REFINE_LEASE := 2 * MINUTE
  const REFINE_JOB_TIMEOUT := 40 * SECOND
  const RECLAIM_INTERVAL := 30 * SECOND

  datatype RefineStatus = Queued | Processing | Ready | Failed

  datatype RefineError = NoError | LlmTimeout | ParseError | DbError | NoChunks | LeaseExpired

  datatype Material = Material(
    id: string,
    userId: string,
    status: RefineStatus,
    blockCount: nat,
    errorCode: RefineError,
    deletedAt: Option<int>,
    attempts: nat,
    lockedAt: Option<int>,
    updatedAt: int)

  type Table = map<string, Material>

  function NewMaterial(id: string, user: string, at: int): Material {
    Material(id, user, Queued, 0, NoError, None, 0, None, at)
  }

  function InsertMaterial(t: Table, m: Material): (Table, Result<()>) {
    if m.id in t then (t, Err(Duplicate)) else (t[m.id := m], Ok(()))
  }

  function Claimed(m: Material, at: int): Material {
    m.(status := Processing, attempts := m.attempts + 1, lockedAt := Some(at), updatedAt := at)
  }

  function MarkProcessing(t: Table, id: string, at: int): (Table, Result<()>) {
    if id !in t then (t, Err(NotFound))
    else if t[id].status != Queued then (t, Err(Conflict))
    else (t[id := Claimed(t[id], at)], Ok(()))
  }

  /** How a refine ends: with a number of blocks, or with an error code. */
  datatype Settlement = Refined(blocks: nat, note: RefineError) | Gave(code: RefineError)

  function Settled(m: Material, s: Settlement, at: int): Material {
    match s
    case Refined(n, note) => m.(status := Ready, blockCount := n, errorCode := note, lockedAt := None, updatedAt := at)
    case Gave(code) => m.(status := Failed, errorCode := code, lockedAt := None, updatedAt := at)
  }

  /** MarkRefined and MarkRefineFailed: only a processing row can be settled. */
  function Settle(t: Table, id: string, s: Settlement, at: int): (Table, Result<()>) {
    if id !in t then (t, Err(NotFound))
    else if t[id].status != Processing then (t, Err(Conflict))
    else (t[id := Settled(t[id], s, at)], Ok(()))
  }

  /** The lease has run out on a live row. */
  predicate Abandoned(m: Material, at: int) {
    m.status == Processing && m.lockedAt.Some? && m.deletedAt.None? && m.lockedAt.value <= at - DEFAULT_REFINE_LEASE
  }

  predicate Requeues(m: Material, at: int) { Abandoned(m, at) && m.attempts < MAX_REFINE_ATTEMPTS }

  predicate Expires(m: Material, at: int) { Abandoned(m, at) && m.attempts >= MAX_REFINE_ATTEMPTS }

  function Reclaimed(m: Material, at: int): Material {
    if Expires(m, at) then m.(status := Failed, errorCode := LeaseExpired, lockedAt := None, updatedAt := at)
    else if Requeues(m, at) then m.(status := Queued, lockedAt := None, updatedAt := at)
    else m
  }

  /** One lease sweep: every row for itself. */
  function ReclaimAll(t: Table, at: int): Table { map id | id in t :: Reclaimed(t[id], at) }

  function Deleted(m: Material, user: string, at: int): Material {
    if m.userId == user && m.deletedAt.None? then m.(deletedAt := Some(at), updatedAt := at) else m
  }

  function DeleteAll(t: Table, user: string, at: int): Table { map id | id in t :: Deleted(t[id], user, at) }

  function Restored(m: Material, user: string): Material {
    if m.userId == user && m.deletedAt.Some? then m.(deletedAt := None) else m
  }

  function RestoreAll(t: Table, user: string): Table { map id | id in t :: Restored(t[id], user) }

  /** What the language model came back with: no client, a failed call, text that is not JSON, or expressions. */
  datatype Reply = NoClient | CallFailed | Unparsed | Blocks(expressions: seq<string>)

  /** The phrase-block writer: missing, failing or working. */
  datatype Writer = NoWriter | Broken | Working

  /** Blocks without an expression are dropped before they are written. */
  function Usable(expressions: seq<string>): seq<string> { Keep(Worded, expressions) }

  predicate Worded(s: string) { !Blank(s) }

  /** How Refine settles its claim. */
  function Verdict(reply: Reply, writer: Writer): Settlement {
    match reply
    case NoClient => Gave(LlmTimeout)
    case CallFailed => Gave(LlmTimeout)
    case Unparsed => Gave(ParseError)
    case Blocks(expressions) =>
      if |expressions| == 0 then Refined(0, NoChunks)
      else if writer != Working then Gave(DbError)
      else Refined(|Usable(expressions)|, NoError)
  }

  /** Refine: a live queued row is claimed, and settled by the verdict; any other row is left alone. */
  function RefineStep(t: Table, materialId: string, reply: Reply, writer: Writer, at: int,
                      doneAt: int): (Table, Result<()>) {
    var id := TrimSpace(materialId);
    if id == "" then (t, Ok(()))
    else if id !in t then (t, Err(NotFound))
    else if t[id].deletedAt.Some? || t[id].status != Queued then (t, Ok(()))
    else Settle(MarkProcessing(t, id, at).0, id, Verdict(reply, writer), doneAt)
  }

  /**
   A refine that finds nothing usable should be ready with the note that nothing was extracted. The note is
   there exactly when no block is written, if and only if the model returned no block at all or a usable one.
   */
  lemma NoChunksIsNotedIff(expressions: seq<string>)
    ensures var s := Verdict(Blocks(expressions), Working);
            && s.Refined?
            && ((s.blocks == 0 <==> s.note == NoChunks) <==>
                (expressions == [] || exists e | e in expressions :: !Blank(e)))
  {
    KeepIsAFilter(Worded, expressions);
    var usable := Usable(expressions);
    if usable != [] {
      assert usable[0] in usable;
    } else {
      assert forall e | e in expressions :: e !in usable;
    }
  }

  /** One blank block is enough to be ready with nothing written and nothing noted. */
  lemma BlankBlocksGoUnnoted()
    ensures Verdict(Blocks([" "]), Working) == Refined(0, NoError)
  {
    assert Blank(" ") by {
      assert " "[1..] == "";
      assert TrimLeft(" ") == "";
    }
    assert [" "][1..] == [] && !Worded(" ");
    assert Keep(Worded, []) == [];
    assert Usable([" "]) == [] + [];
  }
}
