/**
 A chained table and its anchors together (data/lineage.py, security/anchoring.py):
 one transaction appends the row, reads the head, stores the object and stages the
 anchor, and commits or rolls back all of it.
 */
module AnchoredChain {
  import opened HashChain
  import opened Verifier
  import opened ChainWriters
  import Anchoring

  const LINEAGE := "lineage_records"

  datatype Books = Books(rows: seq<Row>, audit: Anchoring.State)

  const NOTHING := Books([], Anchoring.EMPTY)

  /** One append: whether the head query sees the transaction's own row, can be read at all, and how the transaction ends. */
  datatype Append = Append(draft: Row, call: Anchoring.Call, seesOwn: bool, readable: bool, commits: bool)

  function HeadOf(rows: seq<Row>): Anchoring.HeadRead
  {
    if rows == [] then Anchoring.EmptyChain
    else Anchoring.Found(rows[|rows| - 1].selfHash, rows[|rows| - 1].pk)
  }

  function NewRow(sha: Sha, b: Books, a: Append): Row
  {
    Chained(sha, LineageRecords, a.draft, LastHash(sha, b.rows))
  }

  /** The anchoring call with the head that its query finds. */
  function CallWithHead(sha: Sha, b: Books, a: Append): Anchoring.Call
  {
    a.call.(head := if !a.readable then Anchoring.Unreadable
                    else HeadOf(if a.seesOwn then Place(b.rows, NewRow(sha, b, a)) else b.rows))
  }

  predicate MayBegin(b: Books, a: Append)
  {
    Anchoring.TransactionOf(b.audit, LINEAGE).Closed? && a.draft.version == CANONICALIZATION_VERSION
  }

  /** The audit tables with the append's transaction still open. */
  function Staged(sha: Sha, keyOf: Anchoring.KeyFn, b: Books, a: Append): Anchoring.State
    requires MayBegin(b, a)
  {
    var begun := Anchoring.Apply(keyOf, b.audit, Anchoring.Begin(LINEAGE));
    Anchoring.Apply(keyOf, begun, Anchoring.MaybeAnchor(LINEAGE, CallWithHead(sha, b, a)))
  }

  predicate Enabled(sha: Sha, keyOf: Anchoring.KeyFn, b: Books, a: Append)
  {
    && MayBegin(b, a)
    && (a.commits ==> PkFree(b.rows, a.draft.pk)
                      && !Anchoring.TransactionOf(Staged(sha, keyOf, b, a), LINEAGE).Doomed?)
  }

  lemma StagedIsOpen(sha: Sha, keyOf: Anchoring.KeyFn, b: Books, a: Append)
    requires MayBegin(b, a)
    ensures !Anchoring.TransactionOf(Staged(sha, keyOf, b, a), LINEAGE).Closed?
    ensures Anchoring.AnchorsOf(Staged(sha, keyOf, b, a), LINEAGE) == Anchoring.AnchorsOf(b.audit, LINEAGE)
  {
    hide CallWithHead;
  }

  function Apply(sha: Sha, keyOf: Anchoring.KeyFn, b: Books, a: Append): Books
    requires Enabled(sha, keyOf, b, a)
  {
    StagedIsOpen(sha, keyOf, b, a);
    var staged := Staged(sha, keyOf, b, a);
    if a.commits then Books(Place(b.rows, NewRow(sha, b, a)), Anchoring.Apply(keyOf, staged, Anchoring.Commit(LINEAGE)))
    else Books(b.rows, Anchoring.Apply(keyOf, staged, Anchoring.Rollback(LINEAGE)))
  }

  /** `guard` says whether committed rows follow all earlier ones. */
  ghost predicate Run(sha: Sha, keyOf: Anchoring.KeyFn, from: Books, appends: seq<Append>, to: Books, guard: bool)
    decreases |appends|
  {
    if appends == [] then from == to
    else
      && Enabled(sha, keyOf, from, appends[0])
      && (guard && appends[0].commits ==> InOrder(from.rows, NewRow(sha, from, appends[0])))
      && Run(sha, keyOf, Apply(sha, keyOf, from, appends[0]), appends[1..], to, guard)
  }

  // ------------------------------------------------------ one append, written out

  /** The head that a query of these rows finds. */
  ghost predicate IsHeadRead(rows: seq<Row>, head: Anchoring.HeadRead)
  {
    && (rows == [] ==> head == Anchoring.EmptyChain)
    && (rows != [] ==> head == Anchoring.Found(rows[|rows| - 1].selfHash, rows[|rows| - 1].pk))
  }

  /**
   The anchoring call is told the head of the table, with the transaction's own row
   if it sees it, or that it cannot be read; the table has one row more exactly when
   the append commits.
   */
  lemma AppendExactly(sha: Sha, keyOf: Anchoring.KeyFn, b: Books, a: Append)
    requires Enabled(sha, keyOf, b, a)
    ensures
      var call, now := CallWithHead(sha, b, a), Apply(sha, keyOf, b, a).rows;
      && call == a.call.(head := call.head)
      && (!a.readable ==> call.head == Anchoring.Unreadable)
      && (a.readable && !a.seesOwn ==> IsHeadRead(b.rows, call.head))
      && (a.readable && a.seesOwn ==>
            exists seen :: IsAppended(sha, LineageRecords, b.rows, a.draft, seen) && IsHeadRead(seen, call.head))
      && (a.commits ==> IsAppended(sha, LineageRecords, b.rows, a.draft, now))
      && (!a.commits ==> now == b.rows)
  {
    hide IsAppended;
    hide Enabled;
    hide Chained;
    AppendedExactly(sha, LineageRecords, b.rows, a.draft);
    var seen := Place(b.rows, NewRow(sha, b, a));
    assert IsHeadRead(seen, HeadOf(seen));
  }

  // ----------------------------------------------------- what an anchor stands for

  ghost predicate IsHeadOf(rows: seq<Row>, a: Anchoring.Anchor, i: nat)
  {
    i < |rows| && rows[i].selfHash == a.hash && rows[i].pk == a.rowId
  }

  /** The anchor names the hash and the key of a committed row. */
  ghost predicate NamesARow(rows: seq<Row>, a: Anchoring.Anchor)
  {
    exists i: nat :: IsHeadOf(rows, a, i)
  }

  ghost predicate AnchorsNameRows(b: Books)
  {
    && Anchoring.TransactionOf(b.audit, LINEAGE).Closed?
    && forall i :: 0 <= i < |Anchoring.AnchorsOf(b.audit, LINEAGE)| ==> NamesARow(b.rows, Anchoring.AnchorsOf(b.audit, LINEAGE)[i])
  }

  lemma NameStays(rows: seq<Row>, row: Row, a: Anchoring.Anchor)
    requires NamesARow(rows, a)
    ensures NamesARow(Place(rows, row), a)
  {
    var i: nat :| IsHeadOf(rows, a, i);
    PlaceKeepsRows(rows, row);
    assert rows[i] in Place(rows, row);
    var j :| 0 <= j < |Place(rows, row)| && Place(rows, row)[j] == rows[i];
    assert IsHeadOf(Place(rows, row), a, j);
  }

  /** A staged anchor carries the head that its query found. */
  lemma StagedNamesHead(sha: Sha, keyOf: Anchoring.KeyFn, b: Books, a: Append)
    requires MayBegin(b, a)
    ensures
      var tx, head := Anchoring.TransactionOf(Staged(sha, keyOf, b, a), LINEAGE), CallWithHead(sha, b, a).head;
      tx.Anchored? ==> head.Found? && tx.anchor.hash == head.hash && tx.anchor.rowId == head.rowId
  {
    hide CallWithHead;
  }

  lemma HeadIsARow(rows: seq<Row>, a: Anchoring.Anchor)
    requires HeadOf(rows).Found? && a.hash == HeadOf(rows).hash && a.rowId == HeadOf(rows).rowId
    ensures NamesARow(rows, a)
  {
    assert IsHeadOf(rows, a, |rows| - 1);
  }

  lemma StagedNamesARow(sha: Sha, keyOf: Anchoring.KeyFn, b: Books, a: Append)
    requires MayBegin(b, a)
    ensures var tx := Anchoring.TransactionOf(Staged(sha, keyOf, b, a), LINEAGE);
      tx.Anchored? ==> NamesARow(Place(b.rows, NewRow(sha, b, a)), tx.anchor)
  {
    hide Staged;
    hide NewRow;
    hide NamesARow;
    StagedNamesHead(sha, keyOf, b, a);
    var tx := Anchoring.TransactionOf(Staged(sha, keyOf, b, a), LINEAGE);
    if tx.Anchored? {
      var seen := if a.seesOwn then Place(b.rows, NewRow(sha, b, a)) else b.rows;
      HeadIsARow(seen, tx.anchor);
      if !a.seesOwn { NameStays(b.rows, NewRow(sha, b, a), tx.anchor); }
    }
  }

  lemma EndOfTransaction(keyOf: Anchoring.KeyFn, staged: Anchoring.State, commits: bool)
    requires !Anchoring.TransactionOf(staged, LINEAGE).Closed?
    requires commits ==> !Anchoring.TransactionOf(staged, LINEAGE).Doomed?
    ensures
      var tx := Anchoring.TransactionOf(staged, LINEAGE);
      var ended := Anchoring.Apply(keyOf, staged, if commits then Anchoring.Commit(LINEAGE) else Anchoring.Rollback(LINEAGE));
      && Anchoring.TransactionOf(ended, LINEAGE).Closed?
      && Anchoring.AnchorsOf(ended, LINEAGE)
         == Anchoring.AnchorsOf(staged, LINEAGE) + if commits && tx.Anchored? then [tx.anchor] else []
  {
  }

  lemma AppendKeepsNames(sha: Sha, keyOf: Anchoring.KeyFn, b: Books, a: Append)
    requires AnchorsNameRows(b) && Enabled(sha, keyOf, b, a)
    ensures AnchorsNameRows(Apply(sha, keyOf, b, a))
  {
    hide Staged;
    hide NewRow;
    hide NamesARow;
    hide Place;
    var staged, row := Staged(sha, keyOf, b, a), NewRow(sha, b, a);
    StagedIsOpen(sha, keyOf, b, a);
    StagedNamesARow(sha, keyOf, b, a);
    EndOfTransaction(keyOf, staged, a.commits);
    forall i | 0 <= i < |Anchoring.AnchorsOf(b.audit, LINEAGE)|
      ensures NamesARow(Place(b.rows, row), Anchoring.AnchorsOf(b.audit, LINEAGE)[i])
    {
      NameStays(b.rows, row, Anchoring.AnchorsOf(b.audit, LINEAGE)[i]);
    }
  }

  /** Over every run, in order or not, each committed anchor holds the hash and key of a committed row. */
  lemma {:induction false} AnchorsHoldHeads(sha: Sha, keyOf: Anchoring.KeyFn, from: Books, appends: seq<Append>, to: Books, guard: bool)
    requires Run(sha, keyOf, from, appends, to, guard) && AnchorsNameRows(from)
    ensures AnchorsNameRows(to)
    decreases |appends|
  {
    hide Apply;
    hide Enabled;
    hide AnchorsNameRows;
    if appends != [] {
      AppendKeepsNames(sha, keyOf, from, appends[0]);
      AnchorsHoldHeads(sha, keyOf, Apply(sha, keyOf, from, appends[0]), appends[1..], to, guard);
    }
  }

  lemma AppendKeepsChain(sha: Sha, keyOf: Anchoring.KeyFn, b: Books, a: Append)
    requires ValidChain(sha, LineageRecords, b.rows) && Enabled(sha, keyOf, b, a)
    requires a.commits ==> InOrder(b.rows, NewRow(sha, b, a))
    ensures ValidChain(sha, LineageRecords, Apply(sha, keyOf, b, a).rows)
  {
    hide Staged;
    hide ValidChain;
    hide Preimage;
    if a.commits {
      var row := NewRow(sha, b, a);
      ChainedTwice(sha, LineageRecords, a.draft, LastHash(sha, b.rows));
      InOrderIsLast(sha, LineageRecords, b.rows, row);
      AppendKeepsValid(sha, LineageRecords, b.rows, row);
    }
  }

  lemma {:induction false} GuardedAppendsStayValid(sha: Sha, keyOf: Anchoring.KeyFn, from: Books, appends: seq<Append>, to: Books)
    requires Run(sha, keyOf, from, appends, to, true) && ValidChain(sha, LineageRecords, from.rows)
    ensures ValidChain(sha, LineageRecords, to.rows)
    decreases |appends|
  {
    hide Apply;
    hide Enabled;
    hide ValidChain;
    hide NewRow;
    hide InOrder;
    if appends != [] {
      AppendKeepsChain(sha, keyOf, from, appends[0]);
      GuardedAppendsStayValid(sha, keyOf, Apply(sha, keyOf, from, appends[0]), appends[1..], to);
    }
  }

  /** The table up to row `i`, of which the anchor holds the head. */
  ghost predicate Pins(sha: Sha, past: seq<Row>, a: Anchoring.Anchor, now: seq<Row>)
  {
    && past != [] && LastHash(sha, past) == a.hash
    && Failures(sha, LineageRecords, past, |past|) == []
    && (HasHash(now, a.hash) <==> BeginsWith(LineageRecords, now, past))
  }

  /**
   Every committed anchor of a guarded run pins a history: it holds the head of an
   accepted beginning of the table, and any table accepted later still holds the
   anchored hash exactly when it still begins with that history.
   */
  lemma AnchorsPinHistory(sha: Sha, keyOf: Anchoring.KeyFn, appends: seq<Append>, to: Books, n: nat, now: seq<Row>)
    returns (past: seq<Row>)
    requires Run(sha, keyOf, NOTHING, appends, to, true) && n < |Anchoring.AnchorsOf(to.audit, LINEAGE)|
    requires FixedWidth(sha) && CollisionFree(sha, Hashed(LineageRecords, to.rows) + Hashed(LineageRecords, now))
    requires RowsWellFormed(LineageRecords, to.rows) && RowsWellFormed(LineageRecords, now)
    requires Failures(sha, LineageRecords, now, |now|) == []
    ensures past <= to.rows && Pins(sha, past, Anchoring.AnchorsOf(to.audit, LINEAGE)[n], now)
  {
    hide Run;
    hide FixedWidth;
    hide CollisionFree;
    hide Hashed;
    hide Failures;
    hide ValidChain;
    hide RowsWellFormed;
    hide HasHash;
    hide BeginsWith;
    var a := Anchoring.AnchorsOf(to.audit, LINEAGE)[n];
    NothingIsValid(sha);
    AnchorsHoldHeads(sha, keyOf, NOTHING, appends, to, true);
    GuardedAppendsStayValid(sha, keyOf, NOTHING, appends, to);
    assert NamesARow(to.rows, a);
    var i: nat :| IsHeadOf(to.rows, a, i);
    past := to.rows[..i + 1];
    AcceptedMeansValid(sha, LineageRecords, to.rows);
    TruncationIsInvisible(sha, LineageRecords, to.rows, i + 1);
    PrefixFacts(sha, LineageRecords, to.rows, i);
    FewerPast(sha, past, to.rows, now);
    AnchoredHeadPinsHistory(sha, LineageRecords, past, now);
  }

  lemma NothingIsValid(sha: Sha)
    ensures ValidChain(sha, LineageRecords, NOTHING.rows) && AnchorsNameRows(NOTHING)
  {
  }

  lemma FewerPast(sha: Sha, past: seq<Row>, rows: seq<Row>, now: seq<Row>)
    requires CollisionFree(sha, Hashed(LineageRecords, rows) + Hashed(LineageRecords, now)) && past <= rows
    ensures CollisionFree(sha, Hashed(LineageRecords, past) + Hashed(LineageRecords, now))
  {
    hide Hashed;
    HashedOfPart(LineageRecords, past, rows);
    assert Hashed(LineageRecords, past) + Hashed(LineageRecords, now)
           <= Hashed(LineageRecords, rows) + Hashed(LineageRecords, now);
  }
}
