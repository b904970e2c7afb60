/**
 Replay of an audit chain (security/verifier.py, verify_rows) and what its
 verdict means: the head fixes the whole history, and every edit or deletion is
 reported exactly where it happened.
 */
module Verifier {
  import opened Canonical
  import opened JsonText
  import opened DecimalNotation
  import opened HashChain

  /** Positions count from one, as in the reports. */
  datatype Failure =
    | UnsupportedVersion(position: nat, version: int)
    | OrderingViolation(position: nat)
    | PrevMismatch(position: nat, expected: string, got: string)
    | SelfMismatch(position: nat, expected: string, got: string)

  datatype Head = NoHead | Head(hash: string)

  datatype Previous = NoRow | Seen(row: Row)

  datatype VerificationResult = VerificationResult(rowCount: nat, head: Head, failures: seq<Failure>)

  /** The hash row `i` must continue from. */
  function Expected(sha: Sha, rows: seq<Row>, i: nat): string
    requires i < |rows|
  {
    if i == 0 then GenesisHash(sha) else rows[i - 1].selfHash
  }

  function VersionReport(row: Row, i: nat): seq<Failure>
  {
    if row.version != CANONICALIZATION_VERSION then [UnsupportedVersion(i + 1, row.version)] else []
  }

  function OrderReport(before: Previous, row: Row, i: nat): seq<Failure>
  {
    if before.Seen? && !Precedes(before.row, row) then [OrderingViolation(i + 1)] else []
  }

  function LinkReport(expected: string, row: Row, i: nat): seq<Failure>
  {
    if row.prevHash != expected then [PrevMismatch(i + 1, expected, row.prevHash)] else []
  }

  function HashReport(expected: string, row: Row, i: nat): seq<Failure>
  {
    if row.selfHash != expected then [SelfMismatch(i + 1, expected, row.selfHash)] else []
  }

  function Predecessor(rows: seq<Row>, i: nat): Previous
    requires i <= |rows|
  {
    if i == 0 then NoRow else Seen(rows[i - 1])
  }

  /** The reports about row `i`, which depend on that row and its predecessor alone. */
  function RowFailures(sha: Sha, t: Table, rows: seq<Row>, i: nat): seq<Failure>
    requires i < |rows|
  {
    var r := rows[i];
    VersionReport(r, i) + OrderReport(Predecessor(rows, i), r, i)
    + LinkReport(Expected(sha, rows, i), r, i) + HashReport(sha(Preimage(t, r, r.prevHash)), r, i)
  }

  function Failures(sha: Sha, t: Table, rows: seq<Row>, n: nat): seq<Failure>
    requires n <= |rows|
  {
    if n == 0 then [] else Failures(sha, t, rows, n - 1) + RowFailures(sha, t, rows, n - 1)
  }

  /** Replays the rows with one running hash and one running key. */
  method VerifyRows(sha: Sha, t: Table, rows: seq<Row>) returns (result: VerificationResult)
    ensures result.rowCount == |rows|
    ensures result.failures == Failures(sha, t, rows, |rows|)
    ensures result.head == if rows == [] then NoHead else Head(LastHash(sha, rows))
  {
    hide Preimage;
    hide VersionReport;
    hide OrderReport;
    hide LinkReport;
    hide HashReport;
    hide Failures;
    hide RowFailures;
    NoRowsNoFailures(sha, t, rows);
    var previous := GenesisHash(sha);
    var failures: seq<Failure> := [];
    var head := NoHead;
    var previousRow := NoRow;
    var i := 0;
    while i < |rows|
      invariant 0 <= i <= |rows|
      invariant failures == Failures(sha, t, rows, i)
      invariant previous == if i == 0 then GenesisHash(sha) else rows[i - 1].selfHash
      invariant head == if i == 0 then NoHead else Head(rows[i - 1].selfHash)
      invariant previousRow == Predecessor(rows, i)
    {
      var row := rows[i];
      var found := VersionReport(row, i);
      found := found + OrderReport(previousRow, row, i);
      previousRow := Seen(row);
      found := found + LinkReport(previous, row, i);
      var (_, expectedSelf) := ChainPair(sha, t, row, row.prevHash);
      found := found + HashReport(expectedSelf, row, i);
      NextRow(sha, t, rows, i, found);
      failures := failures + found;
      previous := row.selfHash;
      head := Head(row.selfHash);
      i := i + 1;
    }
    result := VerificationResult(|rows|, head, failures);
  }

  lemma NoRowsNoFailures(sha: Sha, t: Table, rows: seq<Row>)
    ensures Failures(sha, t, rows, 0) == []
  {
  }

  lemma NextRow(sha: Sha, t: Table, rows: seq<Row>, i: nat, found: seq<Failure>)
    requires i < |rows|
    requires found == VersionReport(rows[i], i) + OrderReport(Predecessor(rows, i), rows[i], i)
                      + LinkReport(Expected(sha, rows, i), rows[i], i)
                      + HashReport(ChainPair(sha, t, rows[i], rows[i].prevHash).1, rows[i], i)
    ensures Failures(sha, t, rows, i + 1) == Failures(sha, t, rows, i) + found
  {
    hide Preimage;
  }

  // ------------------------------------------------------------ valid chains

  /** The row continues its predecessor and carries its own hash. */
  ghost predicate GoodRow(sha: Sha, t: Table, rows: seq<Row>, i: nat)
    requires i < |rows|
  {
    var r := rows[i];
    && r.version == CANONICALIZATION_VERSION
    && (i > 0 ==> Precedes(rows[i - 1], r))
    && r.prevHash == Expected(sha, rows, i)
    && r.selfHash == sha(Preimage(t, r, r.prevHash))
  }

  ghost predicate ValidChain(sha: Sha, t: Table, rows: seq<Row>)
  {
    forall i :: 0 <= i < |rows| ==> GoodRow(sha, t, rows, i)
  }

  lemma {:induction false} NoFailuresUpTo(sha: Sha, t: Table, rows: seq<Row>, n: nat)
    requires n <= |rows|
    ensures Failures(sha, t, rows, n) == [] <==> forall i :: 0 <= i < n ==> GoodRow(sha, t, rows, i)
  {
    hide RowFailures;
    hide GoodRow;
    if n > 0 {
      NoFailuresUpTo(sha, t, rows, n - 1);
      SilentMeansGood(sha, t, rows, n - 1);
      var earlier, last := Failures(sha, t, rows, n - 1), RowFailures(sha, t, rows, n - 1);
      assert earlier + last == [] <==> earlier == [] && last == [];
    }
  }

  lemma SilentMeansGood(sha: Sha, t: Table, rows: seq<Row>, i: nat)
    requires i < |rows|
    ensures RowFailures(sha, t, rows, i) == [] <==> GoodRow(sha, t, rows, i)
  {
  }

  /** The verifier accepts exactly the chains in which every row is good. */
  lemma AcceptedMeansValid(sha: Sha, t: Table, rows: seq<Row>)
    ensures Failures(sha, t, rows, |rows|) == [] <==> ValidChain(sha, t, rows)
  {
    NoFailuresUpTo(sha, t, rows, |rows|);
  }

  lemma PrefixIsValid(sha: Sha, t: Table, rows: seq<Row>, n: nat)
    requires n <= |rows| && ValidChain(sha, t, rows)
    ensures ValidChain(sha, t, rows[..n])
  {
    forall i | 0 <= i < n ensures GoodRow(sha, t, rows[..n], i) {
      assert GoodRow(sha, t, rows, i);
    }
  }

  lemma {:induction false} ValidIsOrdered(sha: Sha, t: Table, rows: seq<Row>, i: nat, j: nat)
    requires ValidChain(sha, t, rows) && i < j < |rows|
    ensures Precedes(rows[i], rows[j])
    decreases j
  {
    assert GoodRow(sha, t, rows, j);
    if i < j - 1 {
      ValidIsOrdered(sha, t, rows, i, j - 1);
      PrecedesIsTransitive(rows[i], rows[j - 1], rows[j]);
    }
  }

  // ------------------------------------------- the head determines the history

  lemma PrevHashWidth(sha: Sha, t: Table, rows: seq<Row>, i: nat)
    requires FixedWidth(sha) && ValidChain(sha, t, rows) && i < |rows|
    ensures |rows[i].prevHash| == 64
  {
    assert GoodRow(sha, t, rows, i);
    if i > 0 { assert GoodRow(sha, t, rows, i - 1); }
  }

  /** Equal digests of two good rows give equal links and equal canonical bytes. */
  lemma EqualDigests(sha: Sha, t: Table, a: seq<Row>, i: nat, b: seq<Row>, j: nat)
    requires FixedWidth(sha) && ValidChain(sha, t, a) && ValidChain(sha, t, b)
    requires CollisionFree(sha, Hashed(t, a) + Hashed(t, b))
    requires i < |a| && j < |b| && a[i].selfHash == b[j].selfHash
    ensures a[i].prevHash == b[j].prevHash
    ensures CanonicalJson(Presented(t, a[i], a[i].prevHash)) == CanonicalJson(Presented(t, b[j], b[j].prevHash))
  {
    assert GoodRow(sha, t, a, i) && GoodRow(sha, t, b, j);
    var x, y := Preimage(t, a[i], a[i].prevHash), Preimage(t, b[j], b[j].prevHash);
    assert x in Hashed(t, a) && y in Hashed(t, b);
    PrevHashWidth(sha, t, a, i);
    PrevHashWidth(sha, t, b, j);
    SplitAgrees(a[i].prevHash, b[j].prevHash,
                CanonicalJson(Presented(t, a[i], a[i].prevHash)),
                CanonicalJson(Presented(t, b[j], b[j].prevHash)));
  }

  /** No row of a chain hashes to the genesis marker. */
  lemma NeverGenesis(sha: Sha, t: Table, rows: seq<Row>, i: nat)
    requires FixedWidth(sha) && ValidChain(sha, t, rows) && i < |rows|
    requires CollisionFree(sha, Hashed(t, rows))
    ensures rows[i].selfHash != GenesisHash(sha)
  {
    assert GoodRow(sha, t, rows, i);
    PrevHashWidth(sha, t, rows, i);
    assert Preimage(t, rows[i], rows[i].prevHash) in Hashed(t, rows);
  }

  lemma HashedParts(sha: Sha, t: Table, a: seq<Row>, b: seq<Row>)
    requires CollisionFree(sha, Hashed(t, a) + Hashed(t, b))
    ensures CollisionFree(sha, Hashed(t, a)) && CollisionFree(sha, Hashed(t, b))
  {
    hide Hashed;
  }

  lemma {:induction false} EqualHeads(sha: Sha, t: Table, a: seq<Row>, i: nat, b: seq<Row>, j: nat)
    requires FixedWidth(sha) && ValidChain(sha, t, a) && ValidChain(sha, t, b)
    requires CollisionFree(sha, Hashed(t, a) + Hashed(t, b))
    requires i < |a| && j < |b| && a[i].selfHash == b[j].selfHash
    ensures i == j
    ensures forall k :: 0 <= k <= i ==>
              && a[k].prevHash == b[k].prevHash && a[k].selfHash == b[k].selfHash
              && CanonicalJson(Presented(t, a[k], a[k].prevHash)) == CanonicalJson(Presented(t, b[k], b[k].prevHash))
    decreases i
  {
    hide CollisionFree;
    hide Hashed;
    hide Presented;
    hide CanonicalJson;
    hide FixedWidth;
    HashedParts(sha, t, a, b);
    EqualDigests(sha, t, a, i, b, j);
    assert GoodRow(sha, t, a, i) && GoodRow(sha, t, b, j);
    if i == 0 && j > 0 {
      NeverGenesis(sha, t, b, j - 1);
    } else if i > 0 && j == 0 {
      NeverGenesis(sha, t, a, i - 1);
    } else if i > 0 {
      EqualHeads(sha, t, a, i - 1, b, j - 1);
    }
  }

  ghost predicate RowsWellFormed(t: Table, rows: seq<Row>)
  {
    forall i :: 0 <= i < |rows| ==> WellFormed(Presented(t, rows[i], rows[i].prevHash))
  }

  /**
   Two non-empty chains that the verifier accepts and that end in the same head
   have the same length and, row by row, the same hashes and the same content.
   */
  lemma HeadDeterminesHistory(sha: Sha, t: Table, a: seq<Row>, b: seq<Row>)
    requires FixedWidth(sha) && CollisionFree(sha, Hashed(t, a) + Hashed(t, b))
    requires Failures(sha, t, a, |a|) == [] && Failures(sha, t, b, |b|) == []
    requires a != [] && b != [] && LastHash(sha, a) == LastHash(sha, b)
    requires RowsWellFormed(t, a) && RowsWellFormed(t, b)
    ensures |a| == |b|
    ensures forall k :: 0 <= k < |a| ==>
              && a[k].selfHash == b[k].selfHash
              && SameContent(Presented(t, a[k], a[k].prevHash), Presented(t, b[k], b[k].prevHash))
  {
    hide CollisionFree;
    hide Hashed;
    hide FixedWidth;
    hide Failures;
    hide ValidChain;
    hide RowsWellFormed;
    hide Presented;
    hide CanonicalJson;
    hide SameContent;
    AcceptedMeansValid(sha, t, a);
    AcceptedMeansValid(sha, t, b);
    EqualHeads(sha, t, a, |a| - 1, b, |b| - 1);
    forall k | 0 <= k < |a|
      ensures SameContent(Presented(t, a[k], a[k].prevHash), Presented(t, b[k], b[k].prevHash))
    {
      SameJsonSameContent(t, a, b, k);
    }
  }

  lemma SameJsonSameContent(t: Table, a: seq<Row>, b: seq<Row>, k: nat)
    requires k < |a| && k < |b| && RowsWellFormed(t, a) && RowsWellFormed(t, b)
    requires CanonicalJson(Presented(t, a[k], a[k].prevHash)) == CanonicalJson(Presented(t, b[k], b[k].prevHash))
    ensures SameContent(Presented(t, a[k], a[k].prevHash), Presented(t, b[k], b[k].prevHash))
  {
    CanonicalJsonDecidesContent(Presented(t, a[k], a[k].prevHash), Presented(t, b[k], b[k].prevHash));
  }

  /** The links of one chain are pairwise different. */
  lemma LinksAreDistinct(sha: Sha, t: Table, rows: seq<Row>, i: nat, j: nat)
    requires FixedWidth(sha) && ValidChain(sha, t, rows) && CollisionFree(sha, Hashed(t, rows))
    requires i < |rows| && j < |rows| && i != j
    ensures rows[i].selfHash != rows[j].selfHash && rows[i].prevHash != rows[j].prevHash
  {
    hide CollisionFree;
    hide Hashed;
    hide FixedWidth;
    hide Preimage;
    assert Hashed(t, rows) + Hashed(t, rows) == Hashed(t, rows);
    if rows[i].selfHash == rows[j].selfHash { EqualHeads(sha, t, rows, i, rows, j); }
    assert GoodRow(sha, t, rows, i) && GoodRow(sha, t, rows, j);
    if i == 0 {
      NeverGenesis(sha, t, rows, j - 1);
    } else if j == 0 {
      NeverGenesis(sha, t, rows, i - 1);
    } else if rows[i - 1].selfHash == rows[j - 1].selfHash {
      EqualHeads(sha, t, rows, i - 1, rows, j - 1);
    }
  }

  // ------------------------------------------------------------- localisation

  ghost predicate Increasing(keep: seq<nat>, bound: nat)
  {
    && (forall k :: 0 <= k < |keep| ==> keep[k] < bound)
    && (forall k, l :: 0 <= k < l < |keep| ==> keep[k] < keep[l])
  }

  /** Row `k` of what is left does not follow the row it followed before. */
  predicate GapBefore(keep: seq<nat>, k: nat)
    requires k < |keep|
  {
    if k == 0 then keep[0] != 0 else keep[k] != keep[k - 1] + 1
  }

  /** `now` keeps the key, version and stored hashes of `was`; only other columns may differ. */
  predicate SameButColumns(was: Row, now: Row)
  {
    now == was.(columns := now.columns)
  }

  ghost predicate Tampered(t: Table, was: Row, now: Row)
  {
    !SameContent(Presented(t, was, was.prevHash), Presented(t, now, now.prevHash))
  }

  /** `now` is what deleting and editing rows of `was` leaves behind. */
  ghost predicate Remains(was: seq<Row>, keep: seq<nat>, now: seq<Row>)
  {
    && |now| == |keep| && Increasing(keep, |was|)
    && forall k :: 0 <= k < |keep| ==> SameButColumns(was[keep[k]], now[k])
  }

  lemma GapIsReported(sha: Sha, t: Table, was: seq<Row>, keep: seq<nat>, now: seq<Row>, k: nat)
    requires FixedWidth(sha) && ValidChain(sha, t, was) && CollisionFree(sha, Hashed(t, was))
    requires Remains(was, keep, now) && k < |now|
    ensures now[k].prevHash != Expected(sha, now, k) <==> GapBefore(keep, k)
  {
    var i := keep[k];
    assert SameButColumns(was[i], now[k]) && GoodRow(sha, t, was, i);
    if k == 0 {
      if i != 0 { NeverGenesis(sha, t, was, i - 1); }
    } else {
      var j := keep[k - 1];
      assert SameButColumns(was[j], now[k - 1]);
      if i != j + 1 { LinksAreDistinct(sha, t, was, i - 1, j); }
    }
  }

  lemma EditIsReported(sha: Sha, t: Table, was: seq<Row>, keep: seq<nat>, now: seq<Row>, k: nat)
    requires ValidChain(sha, t, was) && CollisionFree(sha, Hashed(t, was) + Hashed(t, now))
    requires RowsWellFormed(t, was) && RowsWellFormed(t, now)
    requires Remains(was, keep, now) && k < |now|
    ensures now[k].selfHash != sha(Preimage(t, now[k], now[k].prevHash)) <==> Tampered(t, was[keep[k]], now[k])
  {
    var w, r := was[keep[k]], now[k];
    assert SameButColumns(w, r) && GoodRow(sha, t, was, keep[k]);
    var x, y := Preimage(t, w, w.prevHash), Preimage(t, r, r.prevHash);
    assert x in Hashed(t, was) && y in Hashed(t, now);
    CanonicalJsonDecidesContent(Presented(t, w, w.prevHash), Presented(t, r, r.prevHash));
    if x == y {
      SplitAgrees(w.prevHash, r.prevHash, CanonicalJson(Presented(t, w, w.prevHash)),
                  CanonicalJson(Presented(t, r, r.prevHash)));
    }
  }

  /**
   Whatever rows are deleted from an accepted table and whatever columns are
   edited in the others, the verifier reports one `prev_hash` failure at each row
   that lost its predecessor, one `self_hash` failure at each edited row, and
   nothing else. Deleting a tail leaves no gap and is not reported.
   */
  lemma TamperingIsLocalised(sha: Sha, t: Table, was: seq<Row>, keep: seq<nat>, now: seq<Row>, k: nat)
    requires FixedWidth(sha) && ValidChain(sha, t, was)
    requires CollisionFree(sha, Hashed(t, was) + Hashed(t, now))
    requires RowsWellFormed(t, was) && RowsWellFormed(t, now)
    requires Remains(was, keep, now) && k < |now|
    ensures RowFailures(sha, t, now, k)
         == (if GapBefore(keep, k) then [PrevMismatch(k + 1, Expected(sha, now, k), now[k].prevHash)] else [])
          + (if Tampered(t, was[keep[k]], now[k])
             then [SelfMismatch(k + 1, sha(Preimage(t, now[k], now[k].prevHash)), now[k].selfHash)] else [])
  {
    hide Hashed;
    hide FixedWidth;
    hide WellFormed;
    hide SameContent;
    GapIsReported(sha, t, was, keep, now, k);
    EditIsReported(sha, t, was, keep, now, k);
    OrderSurvives(sha, t, was, keep, now, k);
  }

  lemma OrderSurvives(sha: Sha, t: Table, was: seq<Row>, keep: seq<nat>, now: seq<Row>, k: nat)
    requires ValidChain(sha, t, was) && Remains(was, keep, now) && k < |now|
    ensures VersionReport(now[k], k) == [] && OrderReport(Predecessor(now, k), now[k], k) == []
  {
    assert SameButColumns(was[keep[k]], now[k]) && GoodRow(sha, t, was, keep[k]);
    if k > 0 {
      assert SameButColumns(was[keep[k - 1]], now[k - 1]);
      ValidIsOrdered(sha, t, was, keep[k - 1], keep[k]);
    }
  }

  /** A truncated table is accepted: only the head, compared with an anchor, shows the loss. */
  lemma TruncationIsInvisible(sha: Sha, t: Table, rows: seq<Row>, n: nat)
    requires n <= |rows| && Failures(sha, t, rows, |rows|) == []
    ensures Failures(sha, t, rows[..n], n) == []
  {
    AcceptedMeansValid(sha, t, rows);
    PrefixIsValid(sha, t, rows, n);
    AcceptedMeansValid(sha, t, rows[..n]);
  }

  ghost predicate HasHash(rows: seq<Row>, hash: string)
  {
    exists i :: 0 <= i < |rows| && rows[i].selfHash == hash
  }

  /** `now` begins with the rows of `past`, hash by hash and content by content. */
  ghost predicate BeginsWith(t: Table, now: seq<Row>, past: seq<Row>)
  {
    && |past| <= |now|
    && forall k :: 0 <= k < |past| ==>
         && past[k].selfHash == now[k].selfHash
         && SameContent(Presented(t, past[k], past[k].prevHash), Presented(t, now[k], now[k].prevHash))
  }

  /**
   What an anchored head is worth: an accepted table still holds the anchored hash
   exactly when it still begins with the whole history that was anchored.
   */
  lemma AnchoredHeadPinsHistory(sha: Sha, t: Table, past: seq<Row>, now: seq<Row>)
    requires FixedWidth(sha) && CollisionFree(sha, Hashed(t, past) + Hashed(t, now))
    requires Failures(sha, t, past, |past|) == [] && Failures(sha, t, now, |now|) == []
    requires past != [] && RowsWellFormed(t, past) && RowsWellFormed(t, now)
    ensures HasHash(now, LastHash(sha, past)) <==> BeginsWith(t, now, past)
  {
    hide Failures;
    hide CollisionFree;
    hide SameContent;
    hide Presented;
    if HasHash(now, LastHash(sha, past)) {
      var i :| 0 <= i < |now| && now[i].selfHash == LastHash(sha, past);
      SameHashSamePast(sha, t, past, now, i);
    }
    if BeginsWith(t, now, past) {
      assert now[|past| - 1].selfHash == LastHash(sha, past);
    }
  }

  lemma SameHashSamePast(sha: Sha, t: Table, past: seq<Row>, now: seq<Row>, i: nat)
    requires FixedWidth(sha) && CollisionFree(sha, Hashed(t, past) + Hashed(t, now))
    requires Failures(sha, t, past, |past|) == [] && Failures(sha, t, now, |now|) == []
    requires past != [] && RowsWellFormed(t, past) && RowsWellFormed(t, now)
    requires i < |now| && now[i].selfHash == LastHash(sha, past)
    ensures BeginsWith(t, now, past)
  {
    hide Failures;
    hide CollisionFree;
    hide SameContent;
    hide Presented;
    hide Hashed;
    hide FixedWidth;
    hide RowsWellFormed;
    hide LastHash;
    var kept := now[..i + 1];
    TruncationIsInvisible(sha, t, now, i + 1);
    FewerHashed(sha, t, past, kept, now);
    PrefixFacts(sha, t, now, i);
    HeadDeterminesHistory(sha, t, past, kept);
    forall k | 0 <= k < |past| ensures kept[k] == now[k] { }
  }

  lemma PrefixFacts(sha: Sha, t: Table, rows: seq<Row>, i: nat)
    requires i < |rows| && RowsWellFormed(t, rows)
    ensures RowsWellFormed(t, rows[..i + 1])
    ensures LastHash(sha, rows[..i + 1]) == rows[i].selfHash
  {
    hide WellFormed;
    hide Presented;
  }

  lemma FewerHashed(sha: Sha, t: Table, past: seq<Row>, kept: seq<Row>, now: seq<Row>)
    requires CollisionFree(sha, Hashed(t, past) + Hashed(t, now)) && kept <= now
    ensures CollisionFree(sha, Hashed(t, past) + Hashed(t, kept))
  {
    hide Hashed;
    HashedOfPart(t, kept, now);
    assert Hashed(t, past) + Hashed(t, kept) <= Hashed(t, past) + Hashed(t, now);
  }

  // -------------------------------------- a column that differs from what was hashed

  predicate IsScalar(v: Value)
  {
    !v.Dict? && !v.List?
  }

  /** A row with the scalar in column `c` replaced. */
  function WithColumn(row: Row, c: nat, v: Value): Row
    requires c < |row.columns|
  {
    row.(columns := row.columns[c := Field(row.columns[c].key, v)])
  }

  lemma ReplacedField(t: Table, row: Row, c: nat, v: Value)
    requires c < |row.columns|
    ensures Presented(t, WithColumn(row, c, v), row.prevHash).entries
            == Presented(t, row, row.prevHash).entries[c + 4 := Field(row.columns[c].key, v)]
    ensures Presented(t, row, row.prevHash).entries[c + 4] == row.columns[c]
  {
  }

  /** Replacing one scalar of a dictionary keeps it a dictionary. */
  lemma ReplacedIsWellFormed(e: seq<Field>, i: nat, v: Value)
    requires i < |e| && WellFormed(Dict(e)) && IsScalar(v)
    ensures WellFormed(Dict(e[i := Field(e[i].key, v)]))
  {
    var f := e[i := Field(e[i].key, v)];
    assert forall j :: 0 <= j < |f| ==> f[j].key == e[j].key;
  }

  /** Its content is the same exactly when the scalars print alike. */
  lemma ReplacedIsSameExactly(e: seq<Field>, i: nat, v: Value)
    requires i < |e| && WellFormed(Dict(e)) && IsScalar(v) && IsScalar(e[i].value)
    ensures SameContent(Dict(e), Dict(e[i := Field(e[i].key, v)])) <==> Canonicalize(e[i].value) == Canonicalize(v)
  {
    var f := e[i := Field(e[i].key, v)];
    ReplacedIsWellFormed(e, i, v);
    if Canonicalize(e[i].value) == Canonicalize(v) {
      forall j | 0 <= j < |e| ensures CanonicalizeEntries(e)[j] == CanonicalizeEntries(f)[j] {
        CanonicalizeEntriesAt(e, j);
        CanonicalizeEntriesAt(f, j);
      }
      assert CanonicalizeEntries(e) == CanonicalizeEntries(f);
      CanonicalizeIsFaithful(Dict(e), Dict(f));
    } else {
      forall j | 0 <= j < |f| && f[j].key == e[i].key ensures j == i { assert f[j].key == e[j].key; }
      assert !HasEqual(e[i], f);
    }
  }

  lemma ReplacedIsTamperedExactly(t: Table, row: Row, c: nat, v: Value)
    requires c < |row.columns| && IsScalar(row.columns[c].value) && IsScalar(v)
    requires WellFormed(Presented(t, row, row.prevHash))
    ensures var now := WithColumn(row, c, v);
      && WellFormed(Presented(t, now, now.prevHash)) && SameButColumns(row, now)
      && (Tampered(t, row, now) <==> Canonicalize(row.columns[c].value) != Canonicalize(v))
  {
    hide WellFormed;
    hide SameContent;
    ReplacedField(t, row, c, v);
    var e := Presented(t, row, row.prevHash).entries;
    assert Presented(t, row, row.prevHash) == Dict(e);
    assert Presented(t, WithColumn(row, c, v), row.prevHash) == Dict(e[c + 4 := Field(e[c + 4].key, v)]);
    ReplacedIsWellFormed(e, c + 4, v);
    ReplacedIsSameExactly(e, c + 4, v);
  }

  /** `now` is the table as it is read back, with the scalars `values` in column `c` instead of those that were hashed. */
  ghost predicate ReadBack(was: seq<Row>, now: seq<Row>, c: nat, values: seq<Value>)
  {
    && |now| == |was| == |values|
    && forall i :: 0 <= i < |was| ==>
         && c < |was[i].columns| && IsScalar(was[i].columns[c].value) && IsScalar(values[i])
         && now[i] == WithColumn(was[i], c, values[i])
  }

  /** Row `k` reads back with another value than the one it was hashed with. */
  predicate Differs(was: seq<Row>, c: nat, values: seq<Value>, k: nat)
    requires k < |was| && k < |values|
  {
    c < |was[k].columns| && Canonicalize(was[k].columns[c].value) != Canonicalize(values[k])
  }

  /** The replay reports exactly the rows whose column differs from what was hashed, with one `self_hash` failure each. */
  lemma DifferenceIsReported(sha: Sha, t: Table, was: seq<Row>, now: seq<Row>, c: nat, values: seq<Value>, k: nat)
    requires FixedWidth(sha) && ValidChain(sha, t, was) && RowsWellFormed(t, was)
    requires CollisionFree(sha, Hashed(t, was) + Hashed(t, now))
    requires ReadBack(was, now, c, values) && k < |now|
    ensures RowFailures(sha, t, now, k)
         == if Differs(was, c, values, k)
            then [SelfMismatch(k + 1, sha(Preimage(t, now[k], now[k].prevHash)), now[k].selfHash)]
            else []
  {
    hide CollisionFree;
    hide Hashed;
    hide FixedWidth;
    hide ValidChain;
    hide Presented;
    hide SameContent;
    hide WellFormed;
    hide Tampered;
    hide Canonicalize;
    var keep := seq(|was|, (i: nat) => i);
    forall i | 0 <= i < |now|
      ensures WellFormed(Presented(t, now[i], now[i].prevHash)) && SameButColumns(was[i], now[i])
      ensures Tampered(t, was[i], now[i]) <==> Differs(was, c, values, i)
    {
      ReplacedIsTamperedExactly(t, was[i], c, values[i]);
    }
    hide Preimage;
    hide Differs;
    hide WithColumn;
    TamperingIsLocalised(sha, t, was, keep, now, k);
  }

  // ------------------------------------------------------ the lineage backfill

  /** The column holds no lineage or the id of one. */
  predicate HasLink(row: Row, c: nat)
  {
    && c < |row.columns| && row.columns[c].key == "lineage_id"
    && (row.columns[c].value.Null? || row.columns[c].value.Uuid?)
  }

  /** A row after any number of backfills, of which `links[i]`, if any, was the last. */
  ghost predicate Backfilled(was: seq<Row>, now: seq<Row>, links: map<nat, string>, c: nat)
  {
    |now| == |was|
    && forall i :: 0 <= i < |was| ==>
         HasLink(was[i], c) && now[i] == if i in links then WithColumn(was[i], c, Uuid(links[i])) else was[i]
  }

  /** The backfill gives row `k` another lineage id than the one it was hashed with. */
  predicate Relinked(was: seq<Row>, links: map<nat, string>, c: nat, k: nat)
    requires k < |was|
  {
    k in links && c < |was[k].columns| && was[k].columns[c].value != Uuid(links[k])
  }

  /** The ids that the column shows after the backfills. */
  function LinksRead(was: seq<Row>, links: map<nat, string>, c: nat): (values: seq<Value>)
    ensures |values| == |was|
    ensures forall i :: 0 <= i < |was| ==>
              values[i] == if i in links then Uuid(links[i]) else if c < |was[i].columns| then was[i].columns[c].value else Null
  {
    seq(|was|, i requires 0 <= i < |was| =>
      if i in links then Uuid(links[i]) else if c < |was[i].columns| then was[i].columns[c].value else Null)
  }

  lemma KeptColumn(row: Row, c: nat)
    requires c < |row.columns|
    ensures WithColumn(row, c, row.columns[c].value) == row
  {
    assert row.columns[c := row.columns[c]] == row.columns;
  }

  lemma IdsPrintApart(a: Value, b: Value)
    requires (a.Null? || a.Uuid?) && (b.Null? || b.Uuid?)
    ensures Canonicalize(a) == Canonicalize(b) <==> a == b
  {
  }

  /**
   The orchestrator links already hashed trace and journal rows to lineage rows,
   and overwrites links that are there.  From then on the verifier reports exactly
   one `self_hash` failure at each row whose id is no longer the one it was hashed
   with, and no other failure.
   */
  lemma BackfillFailsEveryRelinkedRow(sha: Sha, t: Table, was: seq<Row>, now: seq<Row>, links: map<nat, string>, c: nat, k: nat)
    requires FixedWidth(sha) && ValidChain(sha, t, was) && RowsWellFormed(t, was)
    requires CollisionFree(sha, Hashed(t, was) + Hashed(t, now))
    requires Backfilled(was, now, links, c) && k < |now|
    ensures RowFailures(sha, t, now, k)
         == if Relinked(was, links, c, k)
            then [SelfMismatch(k + 1, sha(Preimage(t, now[k], now[k].prevHash)), now[k].selfHash)]
            else []
  {
    hide CollisionFree;
    hide Hashed;
    hide FixedWidth;
    hide ValidChain;
    hide Preimage;
    hide RowFailures;
    hide Canonicalize;
    hide WithColumn;
    hide RowsWellFormed;
    var values := LinksRead(was, links, c);
    forall i | 0 <= i < |was|
      ensures now[i] == WithColumn(was[i], c, values[i])
    {
      KeptColumn(was[i], c);
    }
    IdsPrintApart(was[k].columns[c].value, values[k]);
    DifferenceIsReported(sha, t, was, now, c, values, k);
  }

  // ---------------------------------------------------- a number the column rounds

  /** Column `c` holds numbers, or nothing, and reads back with `stored` in place of what was hashed. */
  ghost predicate Rounded(was: seq<Row>, now: seq<Row>, c: nat, stored: seq<Value>)
  {
    && ReadBack(was, now, c, stored)
    && forall i :: 0 <= i < |was| ==>
         if was[i].columns[c].value.Dec? then stored[i].Dec? else stored[i] == was[i].columns[c].value
  }

  /** The database has changed the number of row `k`, or the sign of its zero. */
  predicate RoundedAway(was: seq<Row>, c: nat, stored: seq<Value>, k: nat)
    requires k < |was| && k < |stored|
  {
    && c < |was[k].columns| && was[k].columns[c].value.Dec? && stored[k].Dec?
    && var a, b := was[k].columns[c].value.d, stored[k].d;
       !NumericallyEqual(a, b) || (a.digits == 0 && b.digits == 0 && a.negative != b.negative)
  }

  lemma NumbersPrintApart(a: Decimal, b: Decimal)
    ensures Canonicalize(Dec(a)) == Canonicalize(Dec(b))
            <==> NumericallyEqual(a, b) && !(a.digits == 0 && b.digits == 0 && a.negative != b.negative)
  {
    hide DecimalText;
    hide NumericallyEqual;
    hide Normalize;
    TextDecidesNumber(a, b);
  }

  /**
   A row is hashed with the number it is given and read back with the number its
   column keeps: the replay reports exactly the rows whose number the column rounded.
   */
  lemma RoundingFailsExactly(sha: Sha, t: Table, was: seq<Row>, now: seq<Row>, c: nat, stored: seq<Value>, k: nat)
    requires FixedWidth(sha) && ValidChain(sha, t, was) && RowsWellFormed(t, was)
    requires CollisionFree(sha, Hashed(t, was) + Hashed(t, now))
    requires Rounded(was, now, c, stored) && k < |now|
    ensures RowFailures(sha, t, now, k)
         == if RoundedAway(was, c, stored, k)
            then [SelfMismatch(k + 1, sha(Preimage(t, now[k], now[k].prevHash)), now[k].selfHash)]
            else []
  {
    hide CollisionFree;
    hide Hashed;
    hide FixedWidth;
    hide ValidChain;
    hide Preimage;
    hide RowFailures;
    hide Canonicalize;
    hide NumericallyEqual;
    if was[k].columns[c].value.Dec? { NumbersPrintApart(was[k].columns[c].value.d, stored[k].d); }
    DifferenceIsReported(sha, t, was, now, c, stored, k);
  }

  // ------------------------------------------------------ the documented link

  /** What the documentation says of row `i`: its link is the digest of the previous row's JSON alone. */
  ghost predicate LinkAsDocumented(sha: Sha, t: Table, rows: seq<Row>, i: nat)
    requires 0 < i < |rows|
  {
    rows[i].prevHash == sha(CanonicalJson(Presented(t, rows[i - 1], rows[i - 1].prevHash)))
  }

  /** The JSON texts that the documented rule would hash. */
  ghost function Documented(t: Table, rows: seq<Row>): set<string>
  {
    set i | 0 <= i < |rows| :: CanonicalJson(Presented(t, rows[i], rows[i].prevHash))
  }

  lemma DocumentedLinkFails(sha: Sha, t: Table, rows: seq<Row>, i: nat)
    requires FixedWidth(sha) && ValidChain(sha, t, rows) && 0 < i < |rows|
    requires CollisionFree(sha, Hashed(t, rows) + Documented(t, rows))
    ensures !LinkAsDocumented(sha, t, rows, i)
  {
    var row := rows[i - 1];
    assert GoodRow(sha, t, rows, i) && GoodRow(sha, t, rows, i - 1);
    hide GoodRow;
    hide Presented;
    hide CanonicalJson;
    PrevHashWidth(sha, t, rows, i - 1);
    hide ValidChain;
    LongerText(t, rows, i - 1);
  }

  lemma LongerText(t: Table, rows: seq<Row>, i: nat)
    requires i < |rows| && |rows[i].prevHash| == 64
    ensures var text, json := Preimage(t, rows[i], rows[i].prevHash), CanonicalJson(Presented(t, rows[i], rows[i].prevHash));
      text != json && text in Hashed(t, rows) && json in Documented(t, rows)
  {
    hide Presented;
    hide CanonicalJson;
    assert |Preimage(t, rows[i], rows[i].prevHash)| == 64 + |CanonicalJson(Presented(t, rows[i], rows[i].prevHash))|;
  }

  /** An accepted table keeps the documented rule exactly when it has no link between two rows at all. */
  lemma DocumentedLinkHoldsExactly(sha: Sha, t: Table, rows: seq<Row>)
    requires FixedWidth(sha) && Failures(sha, t, rows, |rows|) == []
    requires CollisionFree(sha, Hashed(t, rows) + Documented(t, rows))
    ensures (forall i :: 0 < i < |rows| ==> LinkAsDocumented(sha, t, rows, i)) <==> |rows| <= 1
  {
    AcceptedMeansValid(sha, t, rows);
    if |rows| > 1 { DocumentedLinkFails(sha, t, rows, 1); }
  }
}
