/**
 Hash-chained audit rows (security/hashchain.py). SHA-256 is a parameter `sha`:
 any function with 64-character results. No result assumes that it is injective
 everywhere, which no such function is; where collisions matter a result names
 the finite set of texts on which it needs them to be absent.
 */
module HashChain {
  import opened Ordering
  import opened Canonical
  import opened JsonText

  type Sha = string -> string

  datatype Table = LineageRecords | WorkflowJournal | ReasoningTraces

  /** One persisted row: its key columns, its other columns and its two hashes. */
  datatype Row = Row(
    pk: string,
    clock: int,
    version: int,
    columns: seq<Field>,
    prevHash: string,
    selfHash: string)

  const GENESIS := "GENESIS"
  const CANONICALIZATION_VERSION := 1

  function OrderColumn(t: Table): string
  {
    match t
    case LineageRecords => "created_at"
    case WorkflowJournal => "ts"
    case ReasoningTraces => "ts"
  }

  function PkColumn(t: Table): string
  {
    match t
    case LineageRecords => "lineage_id"
    case WorkflowJournal => "id"
    case ReasoningTraces => "trace_id"
  }

  function GenesisHash(sha: Sha): string
  {
    sha(GENESIS)
  }

  /** The dictionary whose canonical JSON is hashed: every column but `self_hash`. */
  function Presented(t: Table, row: Row, prevHash: string): Value
  {
    Dict([
      Field("prev_hash", Text(prevHash)),
      Field("canonicalization_version", Int(row.version)),
      Field(OrderColumn(t), Int(row.clock)),
      Field(PkColumn(t), Uuid(row.pk))
    ] + row.columns)
  }

  /** The text that is hashed: the previous hash, then the canonical JSON. */
  function Preimage(t: Table, row: Row, prevHash: string): string
  {
    prevHash + CanonicalJson(Presented(t, row, prevHash))
  }

  function ChainPair(sha: Sha, t: Table, row: Row, prevHash: string): (string, string)
  {
    (prevHash, sha(Preimage(t, row, prevHash)))
  }

  /** Chain order: the write clock, then the primary key. */
  predicate Precedes(a: Row, b: Row)
  {
    a.clock < b.clock || (a.clock == b.clock && Below(a.pk, b.pk))
  }

  predicate SameKey(a: Row, b: Row)
  {
    a.clock == b.clock && a.pk == b.pk
  }

  /** The later clock stands behind, and of two keys with one clock the one that is greater where they first differ. */
  ghost predicate StandsBefore(a: Row, b: Row)
  {
    a.clock < b.clock || (a.clock == b.clock && FirstDifference(a.pk, b.pk))
  }

  lemma PrecedesExactly(a: Row, b: Row)
    ensures Precedes(a, b) <==> StandsBefore(a, b)
  {
    BelowExactly(a.pk, b.pk);
  }

  lemma PrecedesIsTotal(a: Row, b: Row)
    ensures SameKey(a, b) || Precedes(a, b) || Precedes(b, a)
  {
    BelowIsTotal(a.pk, b.pk);
  }

  lemma PrecedesIsStrict(a: Row, b: Row)
    requires Precedes(a, b)
    ensures !Precedes(b, a) && !SameKey(a, b)
  {
    BelowIsIrreflexive(a.pk);
    if a.clock == b.clock && Below(b.pk, a.pk) { BelowIsTransitive(a.pk, b.pk, a.pk); }
  }

  lemma PrecedesIsTransitive(a: Row, b: Row, c: Row)
    requires Precedes(a, b) && Precedes(b, c)
    ensures Precedes(a, c)
  {
    if a.clock == b.clock && b.clock == c.clock { BelowIsTransitive(a.pk, b.pk, c.pk); }
  }

  /** The chain head of a table read in chain order; an empty table yields the genesis hash. */
  function LastHash(sha: Sha, rows: seq<Row>): string
  {
    if rows == [] then GenesisHash(sha) else rows[|rows| - 1].selfHash
  }

  /** The last stored hash, or the digest of the word GENESIS. */
  ghost predicate IsHead(sha: Sha, rows: seq<Row>, head: string)
  {
    && (rows == [] ==> head == sha("GENESIS"))
    && (rows != [] ==> head == rows[|rows| - 1].selfHash)
  }

  /** The row a writer stores when it read `prevHash` as the head. */
  function Chained(sha: Sha, t: Table, draft: Row, prevHash: string): Row
  {
    var (prev, self) := ChainPair(sha, t, draft, prevHash);
    draft.(prevHash := prev, selfHash := self)
  }

  // ------------------------------------------------ what is asked of the hash

  ghost predicate FixedWidth(sha: Sha)
  {
    forall x :: |sha(x)| == 64
  }

  /** No two of the named texts share a digest. */
  ghost predicate CollisionFree(sha: Sha, texts: set<string>)
  {
    forall x, y :: x in texts && y in texts && sha(x) == sha(y) ==> x == y
  }

  /** Every text that verifying `rows` hashes. */
  ghost function Hashed(t: Table, rows: seq<Row>): set<string>
  {
    {GENESIS} + set i | 0 <= i < |rows| :: Preimage(t, rows[i], rows[i].prevHash)
  }

  lemma HashedOfPart(t: Table, part: seq<Row>, rows: seq<Row>)
    requires forall i :: 0 <= i < |part| ==> part[i] in rows
    ensures Hashed(t, part) <= Hashed(t, rows)
  {
    forall i | 0 <= i < |part|
      ensures Preimage(t, part[i], part[i].prevHash) in Hashed(t, rows)
    {
      var j :| 0 <= j < |rows| && rows[j] == part[i];
    }
  }
}
