/**
 What the audit replay says about the tables that decision cycles write: rows are
 hashed before the database has touched them (orchestrator.py, data/lineage.py) and
 replayed as it keeps them (security/verifier.py).
 */
module AuditOfCycles {
  import opened Canonical
  import opened DecimalNotation
  import opened HashChain
  import opened Verifier
  import opened Orchestrator
  import opened DecisionSafety

  // ------------------------------------------------------- the journal and the traces

  /** A lineage id as the identifier column shows it. */
  type Naming = LineageId -> string

  ghost predicate IsNaming(uuid: Naming)
  {
    forall a, b :: uuid(a) == uuid(b) ==> a == b
  }

  function LinkValue(uuid: Naming, link: Link): Value
  {
    match link
    case Unlinked => Null
    case Linked(id) => Uuid(uuid(id))
  }

  function LinkValues(uuid: Naming, links: seq<Link>): (values: seq<Value>)
    ensures |values| == |links| && forall i :: 0 <= i < |links| ==> values[i] == LinkValue(uuid, links[i])
  {
    seq(|links|, i requires 0 <= i < |links| => LinkValue(uuid, links[i]))
  }

  /** Column `c` of the rows held these links when they were hashed. */
  ghost predicate HashedWith(rows: seq<Row>, c: nat, uuid: Naming, links: seq<Link>)
  {
    && |rows| == |links|
    && forall i :: 0 <= i < |rows| ==>
         c < |rows[i].columns| && rows[i].columns[c] == Field("lineage_id", LinkValue(uuid, links[i]))
  }

  lemma LinksPrintApart(uuid: Naming, a: Link, b: Link)
    requires IsNaming(uuid)
    ensures Canonicalize(LinkValue(uuid, a)) == Canonicalize(LinkValue(uuid, b)) <==> a == b
  {
  }

  /** The replay reports exactly the rows whose link is no longer the one they were hashed with. */
  lemma ChangedLinkIsReported(sha: Sha, t: Table, hashed: seq<Row>, stored: seq<Row>, c: nat, uuid: Naming,
                              written: seq<Link>, current: seq<Link>, k: nat)
    requires FixedWidth(sha) && ValidChain(sha, t, hashed) && RowsWellFormed(t, hashed)
    requires CollisionFree(sha, Hashed(t, hashed) + Hashed(t, stored))
    requires IsNaming(uuid) && HashedWith(hashed, c, uuid, written)
    requires |current| == |written| && ReadBack(hashed, stored, c, LinkValues(uuid, current)) && k < |stored|
    ensures RowFailures(sha, t, stored, k)
         == if written[k] != current[k]
            then [SelfMismatch(k + 1, sha(Preimage(t, stored[k], stored[k].prevHash)), stored[k].selfHash)]
            else []
  {
    hide CollisionFree;
    hide Hashed;
    hide FixedWidth;
    hide ValidChain;
    hide Preimage;
    hide RowFailures;
    hide Canonicalize;
    hide LinkValue;
    hide IsNaming;
    LinksPrintApart(uuid, written[k], current[k]);
    DifferenceIsReported(sha, t, hashed, stored, c, LinkValues(uuid, current), k);
  }

  function LinksOf(journal: seq<JournalRow>): (links: seq<Link>)
    ensures |links| == |journal| && forall i :: 0 <= i < |journal| ==> links[i] == journal[i].link
  {
    seq(|journal|, i requires 0 <= i < |journal| => journal[i].link)
  }

  /** The journal rows that stand when the lineage transaction of a cycle runs. */
  function Standing(desk: Desk, c: Cycle): seq<JournalRow>
  {
    Prepared(desk, c).desk.journal
  }

  /** The links with which the rows of the journal were hashed, if earlier rows still show theirs. */
  function WrittenLinks(desk: Desk, c: Cycle): seq<Link>
  {
    var after, standing := After(desk, c).desk.journal, Standing(desk, c);
    seq(|after|, i requires 0 <= i < |after| =>
      if i < |standing| then standing[i].link else after[i].link)
  }

  /** The row stood when the cycle committed its lineage row, and belongs to its workflow. */
  ghost predicate RelinkedByCycle(desk: Desk, c: Cycle, k: nat)
  {
    Recordable(desk, c) && k < |Standing(desk, c)| && Standing(desk, c)[k].workflow == c.workflow
  }

  /** A cycle changes the link of a journal row exactly when its lineage transaction relinks it. */
  lemma JournalLinkChangesExactly(desk: Desk, c: Cycle, k: nat)
    requires NoDangling(desk) && k < |After(desk, c).desk.journal|
    ensures |WrittenLinks(desk, c)| == |After(desk, c).desk.journal|
    ensures WrittenLinks(desk, c)[k] != After(desk, c).desk.journal[k].link <==> RelinkedByCycle(desk, c, k)
  {
    hide StagesPass;
    hide AdvicePasses;
    hide Prepared;
    hide RecordOf;
    hide After;
    hide LastStep;
    JournalIsStanding(desk, c);
    PreparedExtends(desk, c);
    StandingIsUnlinked(desk, c);
    TablesAfter(desk, c);
  }

  /** No standing row is linked to the lineage the cycle is about to write. */
  lemma StandingIsUnlinked(desk: Desk, c: Cycle)
    requires NoDangling(desk)
    ensures Recordable(desk, c) ==> forall i :: 0 <= i < |Standing(desk, c)| ==> Standing(desk, c)[i].link != Linked(c.id)
  {
    hide StagesPass;
    hide AdvicePasses;
    hide Prepared;
    PreparedExtends(desk, c);
  }

  /** Without a lineage row the journal only grows behind what stood. */
  lemma JournalIsStanding(desk: Desk, c: Cycle)
    ensures |Standing(desk, c)| <= |After(desk, c).desk.journal|
    ensures !Recordable(desk, c) ==>
              forall i :: 0 <= i < |Standing(desk, c)| ==> After(desk, c).desk.journal[i] == Standing(desk, c)[i]
  {
    hide StagesPass;
    hide AdvicePasses;
    hide Prepared;
    hide RecordOf;
    hide CommandOf;
    hide ResultOf;
    hide Linking;
    AfterShape(desk, c);
    WrittenExactly(desk, c);
    ClosingKeepsTables(LineageWritten(Prepared(desk, c), c, RecordOf(c)), c);
    hide Closing;
    hide LineageWritten;
  }

  /**
   After a cycle the replay of the journal reports exactly the rows of its workflow
   that stood when it committed its lineage row: its own checkpoints and every
   earlier row of the workflow, but not its closing row.
   */
  lemma ReplayReportsRelinkedJournal(sha: Sha, hashed: seq<Row>, stored: seq<Row>, column: nat, uuid: Naming,
                                     desk: Desk, c: Cycle, k: nat)
    requires FixedWidth(sha) && ValidChain(sha, WorkflowJournal, hashed) && RowsWellFormed(WorkflowJournal, hashed)
    requires CollisionFree(sha, Hashed(WorkflowJournal, hashed) + Hashed(WorkflowJournal, stored))
    requires IsNaming(uuid) && NoDangling(desk) && HashedWith(hashed, column, uuid, WrittenLinks(desk, c))
    requires ReadBack(hashed, stored, column, LinkValues(uuid, LinksOf(After(desk, c).desk.journal))) && k < |stored|
    ensures RowFailures(sha, WorkflowJournal, stored, k)
         == if RelinkedByCycle(desk, c, k)
            then [SelfMismatch(k + 1, sha(Preimage(WorkflowJournal, stored[k], stored[k].prevHash)), stored[k].selfHash)]
            else []
  {
    hide CollisionFree;
    hide Hashed;
    hide FixedWidth;
    hide ValidChain;
    hide Preimage;
    hide RowFailures;
    hide RowsWellFormed;
    hide IsNaming;
    hide After;
    hide NoDangling;
    hide RelinkedByCycle;
    var current := LinksOf(After(desk, c).desk.journal);
    assert k < |After(desk, c).desk.journal|;
    JournalLinkChangesExactly(desk, c, k);
    hide WrittenLinks;
    ChangedLinkIsReported(sha, WorkflowJournal, hashed, stored, column, uuid, WrittenLinks(desk, c), current, k);
  }

  /** The link with which trace `t` was hashed, if earlier traces still show theirs. */
  function WrittenTrace(desk: Desk, t: TraceId): Link
  {
    if t in desk.traces then desk.traces[t] else Unlinked
  }

  function TraceLinks(traces: map<TraceId, Link>, table: seq<TraceId>): (links: seq<Link>)
    ensures |links| == |table|
    ensures forall i :: 0 <= i < |table| ==> links[i] == if table[i] in traces then traces[table[i]] else Unlinked
  {
    seq(|table|, i requires 0 <= i < |table| => if table[i] in traces then traces[table[i]] else Unlinked)
  }

  /** With new trace ids, a cycle changes the link of exactly the traces of its evidence, and only with a lineage row. */
  lemma TraceLinkChangesExactly(desk: Desk, c: Cycle, t: TraceId)
    requires NoDangling(desk) && Fresh(desk, c) && c.id !in desk.lineage && t in After(desk, c).desk.traces
    ensures WrittenTrace(desk, t) != After(desk, c).desk.traces[t] <==> Recordable(desk, c) && t in EvidenceOf(c)
  {
    hide StagesPass;
    hide AdvicePasses;
    hide Prepared;
    hide RecordOf;
    hide After;
    hide EvidenceOf;
    LinksCommitTogether(desk, c, t);
    TablesAfter(desk, c);
    PreparedExtends(desk, c);
    RecordNamesCycle(c);
    PreparedExactly(desk, c);
  }

  /** After a cycle the replay of the traces reports exactly the traces that its lineage transaction linked. */
  lemma ReplayReportsLinkedTraces(sha: Sha, hashed: seq<Row>, stored: seq<Row>, column: nat, uuid: Naming,
                                  desk: Desk, c: Cycle, table: seq<TraceId>, k: nat)
    requires FixedWidth(sha) && ValidChain(sha, ReasoningTraces, hashed) && RowsWellFormed(ReasoningTraces, hashed)
    requires CollisionFree(sha, Hashed(ReasoningTraces, hashed) + Hashed(ReasoningTraces, stored))
    requires IsNaming(uuid) && NoDangling(desk) && Fresh(desk, c) && c.id !in desk.lineage
    requires forall i :: 0 <= i < |table| ==> table[i] in After(desk, c).desk.traces
    requires HashedWith(hashed, column, uuid, TraceLinks(desk.traces, table))
    requires ReadBack(hashed, stored, column, LinkValues(uuid, TraceLinks(After(desk, c).desk.traces, table))) && k < |stored|
    ensures RowFailures(sha, ReasoningTraces, stored, k)
         == if Recordable(desk, c) && table[k] in EvidenceOf(c)
            then [SelfMismatch(k + 1, sha(Preimage(ReasoningTraces, stored[k], stored[k].prevHash)), stored[k].selfHash)]
            else []
  {
    hide CollisionFree;
    hide Hashed;
    hide FixedWidth;
    hide ValidChain;
    hide Preimage;
    hide RowFailures;
    hide RowsWellFormed;
    hide IsNaming;
    hide After;
    hide NoDangling;
    hide Fresh;
    hide Recordable;
    hide EvidenceOf;
    TraceLinkChangesExactly(desk, c, table[k]);
    ChangedLinkIsReported(sha, ReasoningTraces, hashed, stored, column, uuid,
                          TraceLinks(desk.traces, table), TraceLinks(After(desk, c).desk.traces, table), k);
  }

  // ------------------------------------------------------------ the size of a row

  const PLACES := 4

  /** A number as a column of four places keeps it: rounded half away from zero, without a negative zero. */
  function StoredNumber(d: Decimal): Decimal
  {
    var digits := if d.exponent >= -PLACES then Shift(d.digits, d.exponent + PLACES)
                  else Nearest(d.digits, TenTo(-PLACES - d.exponent));
    Decimal(d.negative && digits > 0, if digits < 0 then 0 else digits, -PLACES)
  }

  /** The number is a whole number of ten-thousandths, however it is written. */
  predicate HasFourPlaces(d: Decimal)
  {
    d.exponent >= -PLACES || d.digits % TenTo(-PLACES - d.exponent) == 0
  }

  lemma {:induction false} ShiftIsTimes(n: int, k: nat)
    ensures Shift(n, k) == n * TenTo(k)
  {
    if k > 0 { ShiftIsTimes(n, k - 1); }
  }

  lemma RoundedIsWholeExactly(n: nat, q: nat)
    requires q > 0
    ensures Nearest(n, q) * q == n <==> n % q == 0
  {
    var m := (n + q / 2) / q;
    var r := (n + q / 2) % q;
    assert n + q / 2 == q * m + r;
    if n % q == 0 {
      var p := n / q;
      assert n == q * p;
      QuotientIs(n + q / 2, q, p, q / 2);
    }
    if m * q == n { RemainderIs(n, q, m, 0); }
  }

  lemma QuotientIs(n: nat, q: nat, p: nat, r: nat)
    requires q > 0 && r < q && n == q * p + r
    ensures n / q == p
  {
    RemainderIs(n, q, p, r);
    var m := n / q;
    assert n == q * m + r;
    assert q * (m - p) == 0;
    ZeroProduct(q, m - p);
  }

  lemma ZeroProduct(q: nat, z: int)
    requires q > 0 && q * z == 0
    ensures z == 0
  {
  }

  lemma FineNumber(d: Decimal)
    requires d.exponent >= -PLACES
    ensures NumericallyEqual(d, StoredNumber(d))
  {
    var k := d.exponent + PLACES;
    ShiftIsTimes(Signed(d), k);
    ShiftIsTimes(d.digits, k);
    assert Shift(d.digits, k) >= 0;
    ShiftCancels(d.digits, 0, k);
  }

  lemma CoarseNumber(d: Decimal)
    requires d.exponent < -PLACES
    ensures NumericallyEqual(d, StoredNumber(d)) <==> d.digits % TenTo(-PLACES - d.exponent) == 0
  {
    hide TenTo;
    hide Nearest;
    var q := TenTo(-PLACES - d.exponent);
    var m := Nearest(d.digits, q);
    assert StoredNumber(d) == Decimal(d.negative && m > 0, m, -PLACES);
    CoarseEquality(d, StoredNumber(d));
    hide StoredNumber;
    hide NumericallyEqual;
    RoundedIsWholeExactly(d.digits, q);
    SignsAgree(d.negative, m, d.digits, q);
  }

  lemma CoarseEquality(d: Decimal, s: Decimal)
    requires d.exponent < s.exponent
    ensures NumericallyEqual(d, s) <==> Signed(d) == Signed(s) * TenTo(s.exponent - d.exponent)
  {
    ShiftIsTimes(Signed(s), s.exponent - d.exponent);
    assert Shift(Signed(d), 0) == Signed(d);
  }

  lemma SignsAgree(negative: bool, m: nat, n: nat, q: nat)
    ensures (if negative then -(n as int) else n) == (if negative && m > 0 then -(m as int) else m) * q <==> m * q == n
  {
    assert -(m as int) * q == -(m * q as int);
  }

  /** A magnitude divided by `q`, to the nearest whole number, halves upward. */
  function Nearest(n: nat, q: nat): nat
    requires q > 0
  {
    (n + q / 2) / q
  }

  /** The column keeps exactly the whole numbers of ten-thousandths. */
  lemma StoredNumberKeepsExactly(d: Decimal)
    ensures NumericallyEqual(d, StoredNumber(d)) <==> HasFourPlaces(d)
  {
    if d.exponent >= -PLACES { FineNumber(d); } else { CoarseNumber(d); }
  }

  /** The size column of every row as the database keeps it. */
  function StoredSizes(was: seq<Row>, c: nat): (values: seq<Value>)
    ensures |values| == |was|
  {
    seq(|was|, i requires 0 <= i < |was| =>
      if c >= |was[i].columns| then Null
      else match was[i].columns[c].value case Dec(d) => Dec(StoredNumber(d)) case v => v)
  }

  /** The size of row `k` has more places than its column, or is a negative zero. */
  predicate LosesPlaces(was: seq<Row>, c: nat, k: nat)
    requires k < |was|
  {
    && c < |was[k].columns| && was[k].columns[c].value.Dec?
    && var d := was[k].columns[c].value.d;
       !HasFourPlaces(d) || (d.digits == 0 && d.negative)
  }

  lemma ZeroStaysZero(d: Decimal)
    ensures d.digits == 0 ==> StoredNumber(d).digits == 0 && !StoredNumber(d).negative
    ensures d.digits == 0 ==> HasFourPlaces(d)
  {
    if d.digits == 0 {
      if d.exponent >= -PLACES { ShiftCancels(0, 0, d.exponent + PLACES); }
    }
  }

  /**
   A lineage row is hashed with the size it is given: it fails its own replay
   exactly when that size has more than four places.
   */
  lemma LongSizesFailExactly(sha: Sha, hashed: seq<Row>, stored: seq<Row>, c: nat, k: nat)
    requires FixedWidth(sha) && ValidChain(sha, LineageRecords, hashed) && RowsWellFormed(LineageRecords, hashed)
    requires CollisionFree(sha, Hashed(LineageRecords, hashed) + Hashed(LineageRecords, stored))
    requires ReadBack(hashed, stored, c, StoredSizes(hashed, c)) && k < |stored|
    ensures RowFailures(sha, LineageRecords, stored, k)
         == if LosesPlaces(hashed, c, k)
            then [SelfMismatch(k + 1, sha(Preimage(LineageRecords, stored[k], stored[k].prevHash)), stored[k].selfHash)]
            else []
  {
    hide CollisionFree;
    hide Hashed;
    hide FixedWidth;
    hide ValidChain;
    hide Preimage;
    hide RowFailures;
    hide RowsWellFormed;
    hide StoredNumber;
    hide NumericallyEqual;
    hide HasFourPlaces;
    if hashed[k].columns[c].value.Dec? {
      StoredNumberKeepsExactly(hashed[k].columns[c].value.d);
      ZeroStaysZero(hashed[k].columns[c].value.d);
    }
    RoundingFailsExactly(sha, LineageRecords, hashed, stored, c, StoredSizes(hashed, c), k);
  }

  /** The input: 0.12625 lots are kept as 0.1263, and 0.1250 as they are. */
  lemma LongSizeInput()
    ensures StoredNumber(Decimal(false, 12625, -5)) == Decimal(false, 1263, -4) && !HasFourPlaces(Decimal(false, 12625, -5))
    ensures StoredNumber(Decimal(false, 12500, -5)) == Decimal(false, 1250, -4) && HasFourPlaces(Decimal(false, 12500, -5))
  {
    assert Shift(1, 1) == 10 * Shift(1, 0) == 10;
    assert TenTo(1) == 10;
  }
}
