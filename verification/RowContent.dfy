/**
 What of a row its hash covers (security/hashchain.py, orm_payload to
 compute_self_hash): the write clock under its column's name, the primary key, the
 version, the link and every other column.
 */
module RowContent {
  import opened Ordering
  import opened Sorting
  import opened Canonical
  import opened JsonText
  import opened HashChain
  import opened Verifier

  // -------------------------------------------------------- the named members

  /** What the four fixed columns of a row give. */
  ghost predicate IsFixedMember(t: Table, row: Row, prevHash: string, x: Member)
  {
    || x == Member("prev_hash", JText(prevHash))
    || x == Member("canonicalization_version", JInt(row.version))
    || (t.LineageRecords? && (x == Member("created_at", JInt(row.clock)) || x == Member("lineage_id", JText(row.pk))))
    || (t.WorkflowJournal? && (x == Member("ts", JInt(row.clock)) || x == Member("id", JText(row.pk))))
    || (t.ReasoningTraces? && (x == Member("ts", JInt(row.clock)) || x == Member("trace_id", JText(row.pk))))
  }

  /** The payload of a row as JSON members, in no particular order. */
  ghost predicate IsMember(t: Table, row: Row, prevHash: string, x: Member)
  {
    IsFixedMember(t, row, prevHash, x) || x in CanonicalizeEntries(row.columns)
  }

  function ClockName(t: Table): string
  {
    if t.LineageRecords? then "created_at" else "ts"
  }

  function KeyName(t: Table): string
  {
    match t
    case LineageRecords => "lineage_id"
    case WorkflowJournal => "id"
    case ReasoningTraces => "trace_id"
  }

  /** The names that the four fixed columns of a table take. */
  predicate IsFixedName(t: Table, key: string)
  {
    || key == "prev_hash" || key == "canonicalization_version"
    || (t.LineageRecords? && (key == "created_at" || key == "lineage_id"))
    || (t.WorkflowJournal? && (key == "ts" || key == "id"))
    || (t.ReasoningTraces? && (key == "ts" || key == "trace_id"))
  }

  /** The other columns are a dictionary, under names of their own. */
  ghost predicate IsProper(t: Table, row: Row)
  {
    && WellFormed(Dict(row.columns))
    && forall i :: 0 <= i < |row.columns| ==> !IsFixedName(t, row.columns[i].key)
  }

  ghost predicate AllProper(t: Table, rows: seq<Row>)
  {
    forall i :: 0 <= i < |rows| ==> IsProper(t, rows[i])
  }

  /** The entries of the payload, the fixed ones first. */
  function Fixed(t: Table, row: Row, prevHash: string): seq<Field>
  {
    [Field("prev_hash", Text(prevHash)),
     Field("canonicalization_version", Int(row.version)),
     Field(ClockName(t), Int(row.clock)),
     Field(KeyName(t), Uuid(row.pk))]
  }

  lemma PresentedIsFixedAndColumns(t: Table, row: Row, prevHash: string)
    ensures Presented(t, row, prevHash) == Dict(Fixed(t, row, prevHash) + row.columns)
  {
  }

  lemma NamesDiffer()
    ensures "prev_hash" != "canonicalization_version"
    ensures "prev_hash" != "created_at" && "prev_hash" != "lineage_id" && "prev_hash" != "ts"
    ensures "prev_hash" != "id" && "prev_hash" != "trace_id"
    ensures "canonicalization_version" != "created_at" && "canonicalization_version" != "lineage_id"
    ensures "canonicalization_version" != "ts" && "canonicalization_version" != "id" && "canonicalization_version" != "trace_id"
    ensures "created_at" != "lineage_id" && "ts" != "id" && "ts" != "trace_id"
  {
    assert "prev_hash"[0] == 'p' && "canonicalization_version"[0] == 'c' && "created_at"[0] == 'c';
    assert "canonicalization_version"[1] == 'a' && "created_at"[1] == 'r' && "lineage_id"[0] == 'l';
    assert "ts"[0] == 't' && "id"[0] == 'i' && "trace_id"[0] == 't' && "ts"[1] == 's' && "trace_id"[1] == 'r';
  }

  lemma ProperIsWellFormed(t: Table, row: Row, prevHash: string)
    requires IsProper(t, row)
    ensures WellFormed(Presented(t, row, prevHash))
  {
    var fixed := Fixed(t, row, prevHash);
    var e := fixed + row.columns;
    PresentedIsFixedAndColumns(t, row, prevHash);
    NamesDiffer();
    assert forall i :: 0 <= i < 4 ==> IsFixedName(t, fixed[i].key);
    forall i, j | 0 <= i < j < |e| ensures e[i].key != e[j].key {
      if i >= 4 { assert e[i] == row.columns[i - 4] && e[j] == row.columns[j - 4]; }
      else if j >= 4 { assert e[j] == row.columns[j - 4]; }
    }
    forall i | 0 <= i < |e| ensures WellFormed(e[i].value) {
      if i >= 4 { assert e[i] == row.columns[i - 4]; }
    }
  }

  lemma {:induction false} EntriesOfConcat(a: seq<Field>, b: seq<Field>)
    ensures CanonicalizeEntries(a + b) == CanonicalizeEntries(a) + CanonicalizeEntries(b)
    decreases |a|
  {
    if a == [] {
      assert a + b == b;
    } else {
      assert (a + b)[1..] == a[1..] + b;
      EntriesOfConcat(a[1..], b);
    }
  }

  lemma FixedMembers(t: Table, row: Row, prevHash: string)
    ensures forall x :: x in CanonicalizeEntries(Fixed(t, row, prevHash)) || x in CanonicalizeEntries(row.columns)
                        <==> IsMember(t, row, prevHash, x)
  {
    var f := Fixed(t, row, prevHash);
    CanonicalizeEntriesAt(f, 0);
    CanonicalizeEntriesAt(f, 1);
    CanonicalizeEntriesAt(f, 2);
    CanonicalizeEntriesAt(f, 3);
    assert CanonicalizeEntries(f)
           == [Member(f[0].key, JText(prevHash)), Member(f[1].key, JInt(row.version)),
               Member(f[2].key, JInt(row.clock)), Member(f[3].key, JText(row.pk))];
  }

  /** The canonical payload of a row holds exactly the named members. */
  lemma PayloadMembers(t: Table, row: Row, prevHash: string)
    ensures Presented(t, row, prevHash).Dict?
    ensures forall x :: x in CanonicalizeEntries(Presented(t, row, prevHash).entries) <==> IsMember(t, row, prevHash, x)
  {
    PresentedIsFixedAndColumns(t, row, prevHash);
    EntriesOfConcat(Fixed(t, row, prevHash), row.columns);
    FixedMembers(t, row, prevHash);
  }

  /** The hashed text of a row: the link, then the JSON object of exactly its members in key order. */
  ghost predicate IsHashedText(t: Table, row: Row, prevHash: string, text: string, members: seq<Member>)
  {
    && text == prevHash + Dump(JObject(members))
    && IsSorted(members, KeyBelow)
    && forall x :: x in members <==> IsMember(t, row, prevHash, x)
  }

  /**
   What a self hash is the digest of: the clock under `created_at` for lineage rows
   and `ts` for the journal and the traces, the key, the version, the link and the
   columns, and nothing else.
   */
  lemma HashCoversTheRow(sha: Sha, t: Table, row: Row, prevHash: string)
    ensures exists text, members :: ChainPair(sha, t, row, prevHash) == (prevHash, sha(text)) && IsHashedText(t, row, prevHash, text, members)
  {
    var entries := Presented(t, row, prevHash).entries;
    PayloadMembers(t, row, prevHash);
    SortKeepsElements(CanonicalizeEntries(entries));
    var members := SortByKey(CanonicalizeEntries(entries));
    hide IsMember;
    assert Canonicalize(Presented(t, row, prevHash)) == JObject(members);
    assert IsHashedText(t, row, prevHash, Preimage(t, row, prevHash), members);
  }

  /** What the replay has to say of row `i`, whose link should be `link` and whose hashed text is `text`. */
  ghost predicate IsReport(sha: Sha, rows: seq<Row>, i: nat, link: string, text: string, report: seq<Failure>)
    requires i < |rows|
  {
    var r := rows[i];
    report == (if r.version != 1 then [UnsupportedVersion(i + 1, r.version)] else [])
            + (if i > 0 && !StandsBefore(rows[i - 1], r) then [OrderingViolation(i + 1)] else [])
            + (if r.prevHash != link then [PrevMismatch(i + 1, link, r.prevHash)] else [])
            + (if r.selfHash != sha(text) then [SelfMismatch(i + 1, sha(text), r.selfHash)] else [])
  }

  /** The reports about one row, written out: version, order, link and hash, each with its position and the two values. */
  lemma ReportExactly(sha: Sha, t: Table, rows: seq<Row>, i: nat)
    requires i < |rows|
    ensures exists link, text, members ::
              && IsHead(sha, rows[..i], link) && IsHashedText(t, rows[i], rows[i].prevHash, text, members)
              && IsReport(sha, rows, i, link, text, RowFailures(sha, t, rows, i))
  {
    hide IsHashedText;
    hide Preimage;
    if i > 0 { PrecedesExactly(rows[i - 1], rows[i]); }
    hide StandsBefore;
    hide Precedes;
    HashCoversTheRow(sha, t, rows[i], rows[i].prevHash);
    var text, members :|
      ChainPair(sha, t, rows[i], rows[i].prevHash) == (rows[i].prevHash, sha(text)) && IsHashedText(t, rows[i], rows[i].prevHash, text, members);
    var link := Expected(sha, rows, i);
    assert IsHead(sha, rows[..i], link);
    assert IsReport(sha, rows, i, link, text, RowFailures(sha, t, rows, i));
  }

  /** Positions do not fall and do not exceed `n`. */
  ghost predicate InOrderUpTo(failures: seq<Failure>, n: nat)
  {
    && (forall a :: 0 <= a < |failures| ==> failures[a].position <= n)
    && forall a, b :: 0 <= a < b < |failures| ==> failures[a].position <= failures[b].position
  }

  lemma ReportsJoin(earlier: seq<Failure>, last: seq<Failure>, n: nat)
    requires InOrderUpTo(earlier, n) && forall f :: f in last ==> f.position == n + 1
    ensures InOrderUpTo(earlier + last, n + 1)
  {
    var all := earlier + last;
    forall a | 0 <= a < |all| ensures all[a].position <= n + 1 && (a >= |earlier| ==> all[a].position == n + 1) {
      if a >= |earlier| { assert all[a] == last[a - |earlier|] && last[a - |earlier|] in last; }
    }
    forall a, b | 0 <= a < b < |all| ensures all[a].position <= all[b].position {
      if b < |earlier| { assert earlier[a].position <= earlier[b].position; }
    }
  }

  /** The report of a table is that of its rows, one after the other. */
  lemma {:induction false} ReportsInOrder(sha: Sha, t: Table, rows: seq<Row>, n: nat)
    requires n <= |rows|
    ensures forall f :: f in Failures(sha, t, rows, n) <==> exists i :: 0 <= i < n && f in RowFailures(sha, t, rows, i)
    ensures InOrderUpTo(Failures(sha, t, rows, n), n)
  {
    hide RowFailures;
    hide InOrderUpTo;
    if n == 0 {
      NothingInOrder();
    } else {
      ReportsInOrder(sha, t, rows, n - 1);
      PositionOfReport(sha, t, rows, n - 1);
      var earlier, last := Failures(sha, t, rows, n - 1), RowFailures(sha, t, rows, n - 1);
      ReportsJoin(earlier, last, n - 1);
      assert Failures(sha, t, rows, n) == earlier + last;
      hide Failures;
      forall f ensures f in earlier + last <==> exists i :: 0 <= i < n && f in RowFailures(sha, t, rows, i) {
        if f in earlier {
          var i :| 0 <= i < n - 1 && f in RowFailures(sha, t, rows, i);
        }
      }
    }
  }

  lemma NothingInOrder()
    ensures InOrderUpTo([], 0)
  {
  }

  lemma PositionOfReport(sha: Sha, t: Table, rows: seq<Row>, i: nat)
    requires i < |rows|
    ensures forall f :: f in RowFailures(sha, t, rows, i) ==> f.position == i + 1
  {
    hide Preimage;
    hide Precedes;
  }

  // ------------------------------------------------------ equal payloads, equal rows

  /** The rows agree in key, clock, version, link and, as nested maps, in every other column. */
  ghost predicate SameRow(a: Row, b: Row)
  {
    && a.pk == b.pk && a.clock == b.clock && a.version == b.version && a.prevHash == b.prevHash
    && SameContent(Dict(a.columns), Dict(b.columns))
  }

  lemma SameContentIsSameTree(v: Value, w: Value)
    requires WellFormed(v) && WellFormed(w)
    ensures SameContent(v, w) <==> Canonicalize(v) == Canonicalize(w)
  {
    if SameContent(v, w) { SameContentCanonicalizes(v, w); }
    if Canonicalize(v) == Canonicalize(w) { CanonicalizeIsFaithful(v, w); }
  }

  ghost predicate SameEntries(e: seq<Field>, f: seq<Field>)
  {
    forall x :: x in CanonicalizeEntries(e) <==> x in CanonicalizeEntries(f)
  }

  ghost predicate SamePayload(t: Table, a: Row, b: Row)
  {
    forall x :: IsMember(t, a, a.prevHash, x) <==> IsMember(t, b, b.prevHash, x)
  }

  /** Dictionaries have equal content exactly when they hold the same members. */
  lemma SameMembersDecide(e: seq<Field>, f: seq<Field>)
    requires WellFormed(Dict(e)) && WellFormed(Dict(f))
    ensures SameContent(Dict(e), Dict(f)) <==> SameEntries(e, f)
  {
    SameContentIsSameTree(Dict(e), Dict(f));
    DictsAgree(e, f);
    hide Canonicalize;
    if Canonicalize(Dict(e)) == Canonicalize(Dict(f)) {
      forall x ensures x in CanonicalizeEntries(e) <==> x in CanonicalizeEntries(f) { }
    }
    if SameEntries(e, f) {
      forall x ensures x in CanonicalizeEntries(e) <==> x in CanonicalizeEntries(f) { }
    }
  }

  lemma ColumnKeys(t: Table, row: Row, x: Member)
    requires IsProper(t, row) && x in CanonicalizeEntries(row.columns)
    ensures !IsFixedName(t, x.key)
  {
    var j := EntryOf(row.columns, x);
  }

  /** The members fix the row. */
  lemma MembersDecideRow(t: Table, a: Row, b: Row)
    requires IsProper(t, a) && IsProper(t, b)
    ensures SamePayload(t, a, b)
            <==> && a.pk == b.pk && a.clock == b.clock && a.version == b.version && a.prevHash == b.prevHash
                 && SameEntries(a.columns, b.columns)
  {
    hide IsProper;
    if forall x :: IsMember(t, a, a.prevHash, x) <==> IsMember(t, b, b.prevHash, x) {
      FixedMembersAgree(t, a, b);
      forall x ensures x in CanonicalizeEntries(a.columns) <==> x in CanonicalizeEntries(b.columns) {
        if x in CanonicalizeEntries(a.columns) { ColumnKeys(t, a, x); assert IsMember(t, b, b.prevHash, x); }
        if x in CanonicalizeEntries(b.columns) { ColumnKeys(t, b, x); assert IsMember(t, a, a.prevHash, x); }
      }
    }
  }

  lemma FixedMembersAgree(t: Table, a: Row, b: Row)
    requires IsProper(t, a) && IsProper(t, b)
    requires forall x :: IsMember(t, a, a.prevHash, x) <==> IsMember(t, b, b.prevHash, x)
    ensures a.pk == b.pk && a.clock == b.clock && a.version == b.version && a.prevHash == b.prevHash
  {
    hide *;
    OneMember(t, a, b, Member("prev_hash", JText(a.prevHash)));
    OneMember(t, a, b, Member("canonicalization_version", JInt(a.version)));
    OneMember(t, a, b, Member(ClockName(t), JInt(a.clock)));
    OneMember(t, a, b, Member(KeyName(t), JText(a.pk)));
    FixedMembersDecide(t, a, b);
  }

  /** A fixed member of `a` is a fixed member of `b`. */
  lemma OneMember(t: Table, a: Row, b: Row, x: Member)
    requires IsProper(t, b) && (IsMember(t, a, a.prevHash, x) ==> IsMember(t, b, b.prevHash, x))
    ensures IsFixedMember(t, a, a.prevHash, x) ==> IsFixedMember(t, b, b.prevHash, x)
    ensures
      var named := {Member("prev_hash", JText(a.prevHash)), Member("canonicalization_version", JInt(a.version)),
                    Member(ClockName(t), JInt(a.clock)), Member(KeyName(t), JText(a.pk))};
      x in named ==> IsFixedMember(t, a, a.prevHash, x)
  {
    hide IsProper;
    hide CanonicalizeEntries;
    if IsFixedMember(t, a, a.prevHash, x) && x in CanonicalizeEntries(b.columns) { ColumnKeys(t, b, x); }
  }

  lemma FixedMembersDecide(t: Table, a: Row, b: Row)
    requires IsFixedMember(t, b, b.prevHash, Member("prev_hash", JText(a.prevHash)))
    requires IsFixedMember(t, b, b.prevHash, Member("canonicalization_version", JInt(a.version)))
    requires IsFixedMember(t, b, b.prevHash, Member(ClockName(t), JInt(a.clock))) && IsFixedMember(t, b, b.prevHash, Member(KeyName(t), JText(a.pk)))
    ensures a.pk == b.pk && a.clock == b.clock && a.version == b.version && a.prevHash == b.prevHash
  {
    NamesDiffer();
  }

  lemma PayloadsAreEntries(t: Table, a: Row, b: Row)
    ensures Presented(t, a, a.prevHash).Dict? && Presented(t, b, b.prevHash).Dict?
    ensures SameEntries(Presented(t, a, a.prevHash).entries, Presented(t, b, b.prevHash).entries) <==> SamePayload(t, a, b)
  {
    PayloadMembers(t, a, a.prevHash);
    PayloadMembers(t, b, b.prevHash);
    hide IsMember;
    hide Presented;
    hide CanonicalizeEntries;
    var v, w := Presented(t, a, a.prevHash), Presented(t, b, b.prevHash);
    if SameEntries(v.entries, w.entries) {
      forall x ensures IsMember(t, a, a.prevHash, x) <==> IsMember(t, b, b.prevHash, x) {
        assert x in CanonicalizeEntries(v.entries) <==> x in CanonicalizeEntries(w.entries);
      }
    }
    if SamePayload(t, a, b) {
      forall x ensures x in CanonicalizeEntries(v.entries) <==> x in CanonicalizeEntries(w.entries) {
        assert IsMember(t, a, a.prevHash, x) <==> IsMember(t, b, b.prevHash, x);
      }
    }
  }

  lemma PayloadDecidesRow(t: Table, a: Row, b: Row)
    requires IsProper(t, a) && IsProper(t, b)
    ensures SameContent(Presented(t, a, a.prevHash), Presented(t, b, b.prevHash)) <==> SameRow(a, b)
  {
    hide IsFixedName;
    hide Presented;
    hide SamePayload;
    hide SameEntries;
    ProperIsWellFormed(t, a, a.prevHash);
    ProperIsWellFormed(t, b, b.prevHash);
    PayloadsAreEntries(t, a, b);
    MembersDecideRow(t, a, b);
    SameMembersDecide(Presented(t, a, a.prevHash).entries, Presented(t, b, b.prevHash).entries);
    SameMembersDecide(a.columns, b.columns);
  }

  lemma ProperRows(t: Table, rows: seq<Row>)
    requires AllProper(t, rows)
    ensures RowsWellFormed(t, rows)
  {
    forall i | 0 <= i < |rows| ensures WellFormed(Presented(t, rows[i], rows[i].prevHash)) {
      ProperIsWellFormed(t, rows[i], rows[i].prevHash);
    }
  }

  /** Two accepted tables with one head have the same rows: keys, clocks, versions, hashes and columns. */
  lemma HeadDeterminesRows(sha: Sha, t: Table, a: seq<Row>, b: seq<Row>)
    requires FixedWidth(sha) && CollisionFree(sha, Hashed(t, a) + Hashed(t, b))
    requires Failures(sha, t, a, |a|) == [] && Failures(sha, t, b, |b|) == []
    requires a != [] && b != [] && LastHash(sha, a) == LastHash(sha, b)
    requires AllProper(t, a) && AllProper(t, b)
    ensures |a| == |b|
    ensures forall k :: 0 <= k < |a| ==> a[k].selfHash == b[k].selfHash && SameRow(a[k], b[k])
  {
    hide CollisionFree;
    hide Hashed;
    hide FixedWidth;
    hide Failures;
    hide SameContent;
    hide Presented;
    hide LastHash;
    ProperRows(t, a);
    ProperRows(t, b);
    HeadDeterminesHistory(sha, t, a, b);
    hide SameRow;
    forall k | 0 <= k < |a| ensures SameRow(a[k], b[k]) { PayloadDecidesRow(t, a[k], b[k]); }
  }

  // ------------------------------------------------------------ edits of any column

  /** Anything may be edited but the stored hashes, as long as the rows stay in order. */
  ghost predicate EditedInOrder(was: seq<Row>, now: seq<Row>)
  {
    && |now| == |was|
    && (forall i :: 0 <= i < |was| ==> now[i].prevHash == was[i].prevHash && now[i].selfHash == was[i].selfHash)
    && forall i :: 0 < i < |now| ==> Precedes(now[i - 1], now[i])
  }

  lemma EditedHashFails(sha: Sha, t: Table, was: seq<Row>, now: seq<Row>, k: nat)
    requires FixedWidth(sha) && ValidChain(sha, t, was) && AllProper(t, was) && AllProper(t, now)
    requires CollisionFree(sha, Hashed(t, was) + Hashed(t, now)) && EditedInOrder(was, now) && k < |now|
    ensures now[k].selfHash == sha(Preimage(t, now[k], now[k].prevHash)) <==> SameRow(was[k], now[k])
  {
    hide Presented;
    hide SameContent;
    hide CanonicalJson;
    hide SameRow;
    var w, r := was[k], now[k];
    assert GoodRow(sha, t, was, k);
    var x, y := Preimage(t, w, w.prevHash), Preimage(t, r, r.prevHash);
    assert x in Hashed(t, was) && y in Hashed(t, now);
    ProperIsWellFormed(t, w, w.prevHash);
    ProperIsWellFormed(t, r, r.prevHash);
    CanonicalJsonDecidesContent(Presented(t, w, w.prevHash), Presented(t, r, r.prevHash));
    PayloadDecidesRow(t, w, r);
    if x == y {
      SplitAgrees(w.prevHash, r.prevHash, CanonicalJson(Presented(t, w, w.prevHash)), CanonicalJson(Presented(t, r, r.prevHash)));
    }
  }

  /** One `self_hash` failure at row `k`, behind an unsupported version if it has one. */
  predicate IsEditReport(failures: seq<Failure>, row: Row, k: nat)
  {
    && |failures| == (if row.version != 1 then 2 else 1)
    && (row.version != 1 ==> failures[0] == UnsupportedVersion(k + 1, row.version))
    && var last := failures[|failures| - 1];
       last.SelfMismatch? && last.position == k + 1 && last.got == row.selfHash
  }

  /**
   Whatever columns of an accepted table are edited, the clock, the key and the
   version included, as long as the order is kept: the replay reports one
   `self_hash` failure at each edited row, an unsupported version where it was
   edited to one, and nothing else.
   */
  lemma EveryEditIsReported(sha: Sha, t: Table, was: seq<Row>, now: seq<Row>, k: nat)
    requires FixedWidth(sha) && ValidChain(sha, t, was) && AllProper(t, was) && AllProper(t, now)
    requires CollisionFree(sha, Hashed(t, was) + Hashed(t, now)) && EditedInOrder(was, now) && k < |now|
    ensures
      && (SameRow(was[k], now[k]) ==> RowFailures(sha, t, now, k) == [])
      && (!SameRow(was[k], now[k]) ==> IsEditReport(RowFailures(sha, t, now, k), now[k], k))
  {
    hide Preimage;
    hide CollisionFree;
    hide Hashed;
    hide FixedWidth;
    hide SameRow;
    EditedHashFails(sha, t, was, now, k);
    assert GoodRow(sha, t, was, k);
    VersionStays(was[k], now[k]);
    var expected := sha(Preimage(t, now[k], now[k].prevHash));
    assert !SameRow(was[k], now[k]) ==>
             RowFailures(sha, t, now, k)
             == (if now[k].version != 1 then [UnsupportedVersion(k + 1, now[k].version)] else [])
                + [SelfMismatch(k + 1, expected, now[k].selfHash)];
  }

  lemma VersionStays(a: Row, b: Row)
    ensures SameRow(a, b) ==> a.version == b.version
  {
  }

  /** The input: a second row moved from clock 2 to clock 9 is reported, its stored hashes untouched. */
  lemma EditedClockInput(sha: Sha, t: Table, was: seq<Row>, now: seq<Row>)
    requires FixedWidth(sha) && ValidChain(sha, t, was) && AllProper(t, was) && |was| == 2 && was[1].clock < 9
    requires now == [was[0], was[1].(clock := 9)] && CollisionFree(sha, Hashed(t, was) + Hashed(t, now))
    ensures |RowFailures(sha, t, now, 1)| == 1 && RowFailures(sha, t, now, 1)[0].SelfMismatch?
    ensures RowFailures(sha, t, now, 0) == []
  {
    hide CollisionFree;
    hide Hashed;
    hide FixedWidth;
    hide RowFailures;
    hide SameContent;
    assert GoodRow(sha, t, was, 0) && GoodRow(sha, t, was, 1);
    assert EditedInOrder(was, now) by { SecondIsLater(was, now); }
    hide ValidChain;
    hide GoodRow;
    UneditedIsSame(t, was[0]);
    EveryEditIsReported(sha, t, was, now, 0);
    EveryEditIsReported(sha, t, was, now, 1);
  }

  lemma SecondIsLater(was: seq<Row>, now: seq<Row>)
    requires |was| == 2 && Precedes(was[0], was[1]) && was[1].clock < 9 && now == [was[0], was[1].(clock := 9)]
    ensures Precedes(now[0], now[1])
  {
  }

  lemma UneditedIsSame(t: Table, row: Row)
    requires IsProper(t, row)
    ensures SameRow(row, row)
  {
    SameContentIsSameTree(Dict(row.columns), Dict(row.columns));
  }
}
