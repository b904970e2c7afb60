/**
 The byte-exact canonical form that feeds every row hash
 (security/hashchain.py): values are canonicalised recursively, object keys are
 sorted at every level, and the result is printed without spaces.
 */
module Canonical {
  import opened Ordering
  import opened Sorting

  /** A decimal number as Python stores it: sign, coefficient and exponent. */
  datatype Decimal = Decimal(negative: bool, digits: nat, exponent: int)

  /** Python's text of a float: what tells two floats apart, and never the text of an integer. */
  predicate IsFloatText(s: string)
  {
    s == "NaN" || s == "Infinity" || s == "-Infinity" || IsFiniteText(s)
  }

  predicate IsFiniteText(s: string)
  {
    && s != [] && (s[0] == '-' || '0' <= s[0] <= '9')
    && ('.' in s || 'e' in s)
    && forall i :: 0 <= i < |s| ==> '0' <= s[i] <= '9' || s[i] in {'.', 'e', '+', '-'}
  }

  type FloatText = s: string | IsFloatText(s) witness "0.0"

  /** The column values of a chained row. A dictionary keeps its insertion order. */
  datatype Value =
    | Null
    | Bool(b: bool)
    | Int(n: int)
    | Float(text: FloatText)
    | Dec(d: Decimal)
    | Uuid(lowercase: string)
    | Stamp(utc: string)
    | Text(s: string)
    | List(items: seq<Value>)
    | Dict(entries: seq<Field>)

  datatype Field = Field(key: string, value: Value)

  /** What is handed to the JSON printer. */
  datatype Json =
    | JNull
    | JBool(b: bool)
    | JInt(n: int)
    | JFloat(text: FloatText)
    | JText(s: string)
    | JList(items: seq<Json>)
    | JObject(entries: seq<Member>)

  datatype Member = Member(key: string, value: Json)

  // ---------------------------------------------------------------- decimals

  /** `n` shifted left by `k` decimal places. */
  function Shift(n: int, k: nat): int
  {
    if k == 0 then n else 10 * Shift(n, k - 1)
  }

  /** Drops trailing zeros of the coefficient; a zero gets exponent zero. */
  function Normalize(d: Decimal): Decimal
    decreases d.digits
  {
    if d.digits == 0 then d.(exponent := 0)
    else if d.digits % 10 == 0 then Normalize(Decimal(d.negative, d.digits / 10, d.exponent + 1))
    else d
  }

  function Signed(d: Decimal): int
  {
    if d.negative then -(d.digits as int) else d.digits
  }

  /** The coefficient `d` has when it is written with the lower exponent `e`. */
  function AtExponent(d: Decimal, e: int): int
    requires e <= d.exponent
  {
    Shift(Signed(d), d.exponent - e)
  }

  function Lower(i: int, j: int): int
  {
    if i <= j then i else j
  }

  /** The same number: equal signed coefficients once both exponents are aligned. */
  predicate NumericallyEqual(a: Decimal, b: Decimal)
  {
    var e := Lower(a.exponent, b.exponent);
    AtExponent(a, e) == AtExponent(b, e)
  }

  lemma {:induction false} ShiftAdds(n: int, i: nat, j: nat)
    ensures Shift(Shift(n, i), j) == Shift(n, i + j)
  {
    if j != 0 { ShiftAdds(n, i, j - 1); }
  }

  lemma {:induction false} ShiftCancels(a: int, b: int, k: nat)
    ensures Shift(a, k) == Shift(b, k) <==> a == b
    ensures Shift(0, k) == 0
  {
    if k != 0 { ShiftCancels(a, b, k - 1); }
  }

  lemma {:induction false} NormalizeShape(d: Decimal)
    ensures var n := Normalize(d);
      && n.negative == d.negative
      && (n.digits == 0 <==> d.digits == 0)
      && (d.digits == 0 ==> n.exponent == 0)
      && (d.digits != 0 ==>
            && n.digits % 10 != 0
            && n.exponent >= d.exponent
            && AtExponent(n, d.exponent) == Signed(d))
    decreases d.digits
  {
    if d.digits != 0 && d.digits % 10 == 0 {
      var r := Decimal(d.negative, d.digits / 10, d.exponent + 1);
      NormalizeShape(r);
      assert Signed(d) == 10 * Signed(r);
    }
  }

  /** A nonzero decimal and its normal form are the same number at every exponent. */
  lemma NormalizeKeepsValue(d: Decimal, e: int)
    requires e <= d.exponent && d.digits != 0
    ensures Normalize(d).exponent >= d.exponent
    ensures AtExponent(d, e) == AtExponent(Normalize(d), e)
  {
    NormalizeShape(d);
    var n := Normalize(d);
    ShiftAdds(Signed(n), n.exponent - d.exponent, d.exponent - e);
  }

  /** Shifting a coefficient with a nonzero last digit cannot give another such coefficient. */
  lemma NormalFormsDiffer(a: int, i: nat, b: int, j: nat)
    requires i <= j && a % 10 != 0 && b % 10 != 0
    requires Shift(a, i) == Shift(b, j)
    ensures a == b && i == j
  {
    ShiftAdds(b, j - i, i);
    ShiftCancels(a, Shift(b, j - i), i);
    ShiftEndsInZero(b, j - i);
  }

  lemma ShiftEndsInZero(n: int, k: nat)
    ensures k > 0 ==> Shift(n, k) % 10 == 0
    ensures k == 0 ==> Shift(n, k) == n
  {
  }

  lemma SignedHasLastDigit(d: Decimal)
    requires d.digits % 10 != 0
    ensures Signed(d) % 10 != 0
  {
  }

  lemma NormalFormsAgree(m: Decimal, n: Decimal, e: int)
    requires e <= m.exponent && e <= n.exponent
    requires m.digits % 10 != 0 && n.digits % 10 != 0
    requires AtExponent(m, e) == AtExponent(n, e)
    ensures m == n
  {
    SignedHasLastDigit(m);
    SignedHasLastDigit(n);
    if m.exponent <= n.exponent {
      NormalFormsDiffer(Signed(m), m.exponent - e, Signed(n), n.exponent - e);
    } else {
      NormalFormsDiffer(Signed(n), n.exponent - e, Signed(m), m.exponent - e);
    }
  }

  lemma NonzeroEquality(a: Decimal, b: Decimal)
    requires a.digits != 0 && b.digits != 0
    ensures Normalize(a) == Normalize(b) <==> NumericallyEqual(a, b)
  {
    var e := Lower(a.exponent, b.exponent);
    NormalizeKeepsValue(a, e);
    NormalizeKeepsValue(b, e);
    if NumericallyEqual(a, b) {
      NormalizeShape(a);
      NormalizeShape(b);
      NormalFormsAgree(Normalize(a), Normalize(b), e);
    }
  }

  /**
   Numerically equal decimals share a normal form, and only they do. The single
   exception is a pair of zeros with opposite signs: equal numbers that stay apart.
   */
  lemma NormalFormDecidesEquality(a: Decimal, b: Decimal)
    ensures Normalize(a) == Normalize(b)
        <==> NumericallyEqual(a, b) && !(a.digits == 0 && b.digits == 0 && a.negative != b.negative)
  {
    if a.digits != 0 && b.digits != 0 {
      NonzeroEquality(a, b);
    } else {
      var e := Lower(a.exponent, b.exponent);
      NormalizeShape(a);
      NormalizeShape(b);
      ShiftCancels(Signed(a), 0, a.exponent - e);
      ShiftCancels(Signed(b), 0, b.exponent - e);
    }
  }

  // ------------------------------------------------- key-sorted members

  ghost predicate UniqueKeys(s: seq<Member>)
  {
    forall i, j :: 0 <= i < j < |s| ==> s[i].key != s[j].key
  }

  predicate KeyBelow(a: Member, b: Member)
  {
    Below(a.key, b.key)
  }

  /** The entries in key order. */
  function SortByKey(s: seq<Member>): seq<Member>
  {
    Sorted(s, KeyBelow)
  }

  lemma KeyOrderIsStrict()
    ensures IsStrictOrder(KeyBelow)
  {
    hide Below;
    BelowIsAnOrder();
  }

  lemma UniqueKeysAreComparable(s: seq<Member>)
    requires UniqueKeys(s)
    ensures Distinct(s) && Comparable(s, KeyBelow)
  {
    hide Below;
    forall x, y | x in s && y in s ensures x == y || KeyBelow(x, y) || KeyBelow(y, x) {
      var i :| 0 <= i < |s| && s[i] == x;
      var j :| 0 <= j < |s| && s[j] == y;
      BelowIsTotal(x.key, y.key);
    }
  }

  lemma SortKeepsElements(s: seq<Member>)
    ensures IsSorted(SortByKey(s), KeyBelow) && multiset(SortByKey(s)) == multiset(s)
    ensures forall x :: x in SortByKey(s) <==> x in s
  {
    hide Sorted;
    hide KeyBelow;
    KeyOrderIsStrict();
    SortedSorts(s, KeyBelow);
    forall x ensures x in SortByKey(s) <==> x in s {
      assert x in s <==> x in multiset(s);
      assert x in SortByKey(s) <==> x in multiset(SortByKey(s));
    }
  }

  // ------------------------------------------------------ canonical JSON tree

  const DIGITS := "0123456789"

  function NatText(n: nat): string
  {
    if n < 10 then [DIGITS[n]] else NatText(n / 10) + [DIGITS[n % 10]]
  }

  function IntText(n: int): string
  {
    if n < 0 then "-" + NatText(-n) else NatText(n)
  }

  function Zeros(k: nat): string
  {
    if k == 0 then "" else "0" + Zeros(k - 1)
  }

  /** Python's `str` of a decimal: plain notation or, outside its range, scientific notation. */
  function DecimalText(d: Decimal): string
  {
    var body := NatText(d.digits);
    var point := d.exponent + |body|;
    var sign := if d.negative then "-" else "";
    if d.exponent <= 0 && point > -6 then
      if point <= 0 then sign + "0" + (if d.exponent == 0 then "" else "." + Zeros(-point) + body)
      else sign + body[..point] + (if point == |body| then "" else "." + body[point..])
    else
      var exponent := "E" + (if point - 1 < 0 then "" else "+") + IntText(point - 1);
      sign + body[..1] + (if |body| == 1 then "" else "." + body[1..]) + exponent
  }

  /** A value as it is handed to the printer: decimals, identifiers and timestamps become text. */
  function Canonicalize(v: Value): Json
    decreases v
  {
    match v
    case Null => JNull
    case Bool(b) => JBool(b)
    case Int(n) => JInt(n)
    case Float(text) => JFloat(text)
    case Dec(d) => JText(DecimalText(Normalize(d)))
    case Uuid(s) => JText(s)
    case Stamp(s) => JText(s)
    case Text(s) => JText(s)
    case List(items) => JList(CanonicalizeAll(items))
    case Dict(entries) => JObject(SortByKey(CanonicalizeEntries(entries)))
  }

  function CanonicalizeAll(items: seq<Value>): (r: seq<Json>)
    ensures |r| == |items|
    decreases items
  {
    if items == [] then [] else [Canonicalize(items[0])] + CanonicalizeAll(items[1..])
  }

  function CanonicalizeEntries(entries: seq<Field>): (r: seq<Member>)
    ensures |r| == |entries|
    decreases entries
  {
    if entries == [] then []
    else
      [Member(entries[0].key, Canonicalize(entries[0].value))] + CanonicalizeEntries(entries[1..])
  }

  ghost predicate DistinctKeys(entries: seq<Field>)
  {
    forall i, j :: 0 <= i < j < |entries| ==> entries[i].key != entries[j].key
  }

  /** A dictionary never holds a key twice, at any level. */
  ghost predicate WellFormed(v: Value)
    decreases v
  {
    match v
    case List(items) => forall i :: 0 <= i < |items| ==> WellFormed(items[i])
    case Dict(entries) =>
      && DistinctKeys(entries)
      && forall i :: 0 <= i < |entries| ==> WellFormed(entries[i].value)
    case _ => true
  }

  /**
   Equality of values as nested maps: dictionaries are compared key by key,
   whatever their insertion order, and scalars by the text or literal they print as.
   */
  ghost predicate SameContent(v: Value, w: Value)
    decreases v
  {
    if v.Dict? then
      && w.Dict?
      && (forall i :: 0 <= i < |v.entries| ==> HasEqual(v.entries[i], w.entries))
      && (forall j :: 0 <= j < |w.entries| ==> HasKey(v.entries, w.entries[j].key))
    else if v.List? then
      w.List? && |v.items| == |w.items|
      && forall i :: 0 <= i < |v.items| ==> SameContent(v.items[i], w.items[i])
    else
      !w.Dict? && !w.List? && Canonicalize(v) == Canonicalize(w)
  }

  /** `entries` holds the key of `x` with equal content. */
  ghost predicate HasEqual(x: Field, entries: seq<Field>)
    decreases x
  {
    exists j :: 0 <= j < |entries| && entries[j].key == x.key && SameContent(x.value, entries[j].value)
  }

  ghost predicate HasKey(entries: seq<Field>, key: string)
  {
    exists i :: 0 <= i < |entries| && entries[i].key == key
  }

  lemma {:induction false} CanonicalizeAllAt(items: seq<Value>, i: nat)
    requires i < |items|
    ensures CanonicalizeAll(items)[i] == Canonicalize(items[i])
  {
    if i > 0 { CanonicalizeAllAt(items[1..], i - 1); }
  }

  lemma {:induction false} CanonicalizeEntriesAt(entries: seq<Field>, i: nat)
    requires i < |entries|
    ensures CanonicalizeEntries(entries)[i] == Member(entries[i].key, Canonicalize(entries[i].value))
  {
    if i > 0 { CanonicalizeEntriesAt(entries[1..], i - 1); }
  }

  lemma EntriesKeepKeys(entries: seq<Field>)
    requires DistinctKeys(entries)
    ensures UniqueKeys(CanonicalizeEntries(entries))
  {
    forall i, j | 0 <= i < j < |entries|
      ensures CanonicalizeEntries(entries)[i].key != CanonicalizeEntries(entries)[j].key
    {
      CanonicalizeEntriesAt(entries, i);
      CanonicalizeEntriesAt(entries, j);
    }
  }

  lemma SortDecides(s: seq<Member>, t: seq<Member>)
    requires UniqueKeys(s) && UniqueKeys(t)
    ensures SortByKey(s) == SortByKey(t) <==> forall x :: x in s <==> x in t
  {
    hide SortByKey;
    hide KeyBelow;
    SortKeepsElements(s);
    SortKeepsElements(t);
    if forall x :: x in s <==> x in t {
      SameEntriesSortAlike(s, t);
    }
  }

  lemma SameEntriesSortAlike(s: seq<Member>, t: seq<Member>)
    requires UniqueKeys(s) && UniqueKeys(t) && forall x :: x in s <==> x in t
    ensures SortByKey(s) == SortByKey(t)
  {
    hide SortByKey;
    hide KeyBelow;
    SortKeepsElements(s);
    SortKeepsElements(t);
    UniqueKeysAreComparable(s);
    UniqueKeysAreComparable(t);
    DistinctIsItsSet(s);
    DistinctIsItsSet(t);
    assert (set x | x in s) == (set x | x in t);
    KeyOrderIsStrict();
    assert Comparable(SortByKey(s), KeyBelow);
    SortedIsUnique(SortByKey(s), SortByKey(t), KeyBelow);
  }

  /** Two sorted dictionaries print alike exactly when they hold the same canonical entries. */
  lemma DictsAgree(e: seq<Field>, f: seq<Field>)
    requires DistinctKeys(e) && DistinctKeys(f)
    ensures Canonicalize(Dict(e)) == Canonicalize(Dict(f))
        <==> forall x :: x in CanonicalizeEntries(e) <==> x in CanonicalizeEntries(f)
  {
    hide SortByKey;
    hide CanonicalizeEntries;
    EntriesKeepKeys(e);
    EntriesKeepKeys(f);
    var ce, cf := CanonicalizeEntries(e), CanonicalizeEntries(f);
    SortDecides(ce, cf);
  }

  lemma EntryOf(f: seq<Field>, x: Member) returns (j: nat)
    requires x in CanonicalizeEntries(f)
    ensures j < |f| && f[j].key == x.key && Canonicalize(f[j].value) == x.value
  {
    j :| 0 <= j < |f| && CanonicalizeEntries(f)[j] == x;
    CanonicalizeEntriesAt(f, j);
  }

  function Canonical(x: Field): Member
    decreases x
  {
    Member(x.key, Canonicalize(x.value))
  }

  ghost predicate AllWellFormed(entries: seq<Field>)
  {
    DistinctKeys(entries) && forall i :: 0 <= i < |entries| ==> WellFormed(entries[i].value)
  }

  /** Equal content gives the same tree, whatever the key order at every level. */
  lemma {:induction false} SameContentCanonicalizes(v: Value, w: Value)
    requires WellFormed(v) && WellFormed(w) && SameContent(v, w)
    ensures Canonicalize(v) == Canonicalize(w)
    decreases v
  {
    if v.Dict? {
      var e, f := v.entries, w.entries;
      forall i | 0 <= i < |e| ensures Canonical(e[i]) in CanonicalizeEntries(f) {
        EqualFieldCanonicalizes(e[i], f);
      }
      SameMembers(e, f);
      DictsAgree(e, f);
    } else if v.List? {
      forall i | 0 <= i < |v.items| ensures CanonicalizeAll(v.items)[i] == CanonicalizeAll(w.items)[i] {
        SameContentCanonicalizes(v.items[i], w.items[i]);
        CanonicalizeAllAt(v.items, i);
        CanonicalizeAllAt(w.items, i);
      }
      assert CanonicalizeAll(v.items) == CanonicalizeAll(w.items);
    }
  }

  lemma {:induction false} EqualFieldCanonicalizes(x: Field, f: seq<Field>)
    requires WellFormed(x.value) && AllWellFormed(f) && HasEqual(x, f)
    ensures Canonical(x) in CanonicalizeEntries(f)
    decreases x
  {
    var j :| 0 <= j < |f| && f[j].key == x.key && SameContent(x.value, f[j].value);
    SameContentCanonicalizes(x.value, f[j].value);
    CanonicalizeEntriesAt(f, j);
  }

  lemma SameMembers(e: seq<Field>, f: seq<Field>)
    requires AllWellFormed(e) && AllWellFormed(f)
    requires forall i :: 0 <= i < |e| ==> Canonical(e[i]) in CanonicalizeEntries(f)
    requires forall j :: 0 <= j < |f| ==> HasKey(e, f[j].key)
    ensures forall x :: x in CanonicalizeEntries(e) <==> x in CanonicalizeEntries(f)
  {
    forall x | x in CanonicalizeEntries(e) ensures x in CanonicalizeEntries(f) {
      var i := EntryOf(e, x);
      assert x == Canonical(e[i]);
    }
    forall x | x in CanonicalizeEntries(f) ensures x in CanonicalizeEntries(e) {
      var j := EntryOf(f, x);
      var i :| 0 <= i < |e| && e[i].key == f[j].key;
      var k := EntryOf(f, Canonical(e[i]));
      assert k == j;
      CanonicalizeEntriesAt(e, i);
    }
  }

  /** Different content never gives the same tree. */
  lemma {:induction false} CanonicalizeIsFaithful(v: Value, w: Value)
    requires WellFormed(v) && WellFormed(w) && Canonicalize(v) == Canonicalize(w)
    ensures SameContent(v, w)
    decreases v
  {
    if v.Dict? {
      var e, f := v.entries, w.entries;
      DictsAgree(e, f);
      forall i | 0 <= i < |e| ensures HasEqual(e[i], f) {
        CanonicalizeEntriesAt(e, i);
        FieldIsFaithful(e[i], f);
      }
      forall j | 0 <= j < |f| ensures HasKey(e, f[j].key) {
        CanonicalizeEntriesAt(f, j);
        var i := EntryOf(e, Canonical(f[j]));
      }
    } else if v.List? {
      forall i | 0 <= i < |v.items| ensures SameContent(v.items[i], w.items[i]) {
        CanonicalizeAllAt(v.items, i);
        CanonicalizeAllAt(w.items, i);
        CanonicalizeIsFaithful(v.items[i], w.items[i]);
      }
    }
  }

  lemma {:induction false} FieldIsFaithful(x: Field, f: seq<Field>)
    requires WellFormed(x.value) && AllWellFormed(f) && Canonical(x) in CanonicalizeEntries(f)
    ensures HasEqual(x, f)
    decreases x
  {
    var j := EntryOf(f, Canonical(x));
    CanonicalizeIsFaithful(x.value, f[j].value);
  }
}
