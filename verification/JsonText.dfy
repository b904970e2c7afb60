/**
 The printed form of a canonical tree: `json.dumps` with sorted keys, the
 separators "," and ":" and ASCII escapes. The main result is that the printed
 bytes determine the content: two rows print alike exactly when they are equal
 as nested maps.
 */
module JsonText {
  import opened Sorting
  import opened Canonical

  const HEX := "0123456789abcdef"

  /** The last `k` hexadecimal digits of `n`. */
  function HexText(n: nat, k: nat): (text: string)
    ensures |text| == k
  {
    if k == 0 then "" else HexText(n / 16, k - 1) + [HEX[n % 16]]
  }

  /** A numeric escape of one code unit. */
  function Unit(n: nat): string
    requires n < 0x10000
  {
    "\\u" + HexText(n, 4)
  }

  /** The letter of a two-character escape, and the character itself where there is none. */
  function ShortName(c: char): char
  {
    match c
    case '\n' => 'n'
    case '\r' => 'r'
    case '\t' => 't'
    case '\U{0c}' => 'f'
    case '\U{08}' => 'b'
    case _ => c
  }

  predicate IsShort(c: char)
  {
    c == '"' || c == '\\' || ShortName(c) != c
  }

  /** The surrogate pair of a character beyond the basic plane. */
  function High(c: char): nat
    requires c as int >= 0x10000
  {
    0xd800 + (c as int - 0x10000) / 1024
  }

  function Low(c: char): nat
    requires c as int >= 0x10000
  {
    0xdc00 + (c as int - 0x10000) % 1024
  }

  /** One character inside a quoted JSON text, as Python writes it in pure ASCII. */
  function Escape(c: char): string
  {
    if IsShort(c) then ['\\', ShortName(c)]
    else if ' ' <= c <= '~' then [c]
    else if c as int < 0x10000 then Unit(c as int)
    else Unit(High(c)) + Unit(Low(c))
  }

  function Escaped(s: string): string
  {
    if s == [] then [] else Escape(s[0]) + Escaped(s[1..])
  }

  function Quote(s: string): string
  {
    "\"" + Escaped(s) + "\""
  }

  function Dump(j: Json): string
    decreases j
  {
    match j
    case JNull => "null"
    case JBool(b) => if b then "true" else "false"
    case JInt(n) => IntText(n)
    case JFloat(text) => text
    case JText(s) => Quote(s)
    case JList(items) => "[" + DumpItems(items) + "]"
    case JObject(entries) => "{" + DumpMembers(entries) + "}"
  }

  function DumpItems(items: seq<Json>): string
    decreases items
  {
    if items == [] then ""
    else if |items| == 1 then Dump(items[0])
    else Dump(items[0]) + "," + DumpItems(items[1..])
  }

  function DumpMembers(entries: seq<Member>): string
    decreases entries
  {
    if entries == [] then ""
    else
      var head := Quote(entries[0].key) + ":" + Dump(entries[0].value);
      if |entries| == 1 then head else head + "," + DumpMembers(entries[1..])
  }

  /** Canonical JSON of a row (its keys sorted, `self_hash` already left out). */
  function CanonicalJson(v: Value): string
  {
    Dump(Canonicalize(v))
  }

  // ------------------------------------------------------- numbers read back

  predicate IsDigit(c: char)
  {
    '0' <= c <= '9'
  }

  function Read(s: string): int
  {
    if s == [] then 0 else 10 * Read(s[..|s| - 1]) + (s[|s| - 1] as int - '0' as int)
  }

  lemma {:induction false} NatTextReads(n: nat)
    ensures |NatText(n)| >= 1 && forall i :: 0 <= i < |NatText(n)| ==> IsDigit(NatText(n)[i])
    ensures Read(NatText(n)) == n
  {
    assert forall d :: 0 <= d < 10 ==> IsDigit(DIGITS[d]) && DIGITS[d] as int - '0' as int == d;
    if n < 10 {
      assert NatText(n)[..0] == [];
    } else {
      NatTextReads(n / 10);
      var s := NatText(n);
      assert s[..|s| - 1] == NatText(n / 10);
    }
  }

  /** The text that follows a value never continues a number. */
  ghost predicate Stops(x: string)
  {
    x == [] || !IsDigit(x[0])
  }

  lemma DigitRunEnds(a: string, b: string, x: string, y: string)
    requires a + x == b + y && Stops(x)
    requires forall i :: 0 <= i < |b| ==> IsDigit(b[i])
    ensures |b| <= |a|
  {
    assert x != [] ==> (a + x)[|a|] == x[0];
    assert forall i :: 0 <= i < |b| ==> (b + y)[i] == b[i];
    assert |a + x| == |b + y|;
  }

  lemma NatTextDecodes(m: nat, n: nat, x: string, y: string)
    requires NatText(m) + x == NatText(n) + y && Stops(x) && Stops(y)
    ensures m == n && x == y
  {
    NatTextReads(m);
    NatTextReads(n);
    DigitRunEnds(NatText(m), NatText(n), x, y);
    DigitRunEnds(NatText(n), NatText(m), y, x);
    SplitAgrees(NatText(m), NatText(n), x, y);
  }

  lemma SplitAgrees(a: string, b: string, x: string, y: string)
    requires a + x == b + y && |a| == |b|
    ensures a == b && x == y
  {
    assert a == (a + x)[..|a|] == (b + y)[..|b|] == b;
    assert x == (a + x)[|a|..];
    assert y == (b + y)[|b|..];
  }

  lemma HeadOf(a: string, x: string)
    requires |a| >= 1
    ensures (a + x)[0] == a[0] && (a + x)[1..] == a[1..] + x
  {
  }

  lemma IntTextHead(n: int)
    ensures |IntText(n)| >= 1
    ensures if n < 0 then IntText(n)[0] == '-' && IntText(n)[1..] == NatText(-n) else IsDigit(IntText(n)[0])
  {
    NatTextReads(if n < 0 then -n else n);
  }

  lemma IntTextDecodes(m: int, n: int, x: string, y: string)
    requires IntText(m) + x == IntText(n) + y && Stops(x) && Stops(y)
    ensures m == n && x == y
  {
    IntTextHead(m);
    IntTextHead(n);
    HeadOf(IntText(m), x);
    HeadOf(IntText(n), y);
    hide IntText;
    hide NatText;
    if m < 0 {
      NatTextDecodes(-m, -n, x, y);
    } else {
      NatTextDecodes(m, n, x, y);
    }
  }

  // ---------------------------------------------------------- texts read back

  /** Everything a text contributes after its opening quote. */
  function Tail(s: string, x: string): string
  {
    Escaped(s) + "\"" + x
  }

  lemma TailSteps(s: string, x: string)
    requires s != []
    ensures Tail(s, x) == Escape(s[0]) + Tail(s[1..], x)
    ensures Tail(s, x) != [] && Tail(s, x)[0] != '"'
  {
    EscapeOpens(s[0]);
    hide Escape;
    assert Tail(s, x) == Escape(s[0]) + Tail(s[1..], x);
  }

  lemma HexDigits(m: nat, n: nat)
    requires m < 16 && n < 16 && HEX[m] == HEX[n]
    ensures m == n
  {
    assert forall i :: 0 <= i < 10 ==> HEX[i] as int == '0' as int + i;
    assert forall i :: 10 <= i < 16 ==> HEX[i] as int == 'a' as int + (i - 10);
  }

  function Power16(k: nat): nat
  {
    if k == 0 then 1 else 16 * Power16(k - 1)
  }

  lemma {:induction false} HexTextDecodes(m: nat, n: nat, k: nat)
    requires m < Power16(k) && n < Power16(k) && HexText(m, k) == HexText(n, k)
    ensures m == n
  {
    if k > 0 {
      var s, t := HexText(m, k), HexText(n, k);
      assert s[..k - 1] == HexText(m / 16, k - 1) && t[..k - 1] == HexText(n / 16, k - 1);
      assert s[k - 1] == HEX[m % 16] && t[k - 1] == HEX[n % 16];
      HexDigits(m % 16, n % 16);
      HexTextDecodes(m / 16, n / 16, k - 1);
    }
  }

  lemma UnitDecodes(m: nat, n: nat, x: string, y: string)
    requires m < 0x10000 && n < 0x10000 && Unit(m) + x == Unit(n) + y
    ensures m == n && x == y
  {
    SplitAgrees(Unit(m), Unit(n), x, y);
    assert Unit(m)[2..] == HexText(m, 4) && Unit(n)[2..] == HexText(n, 4);
    assert Power16(4) == 0x10000;
    HexTextDecodes(m, n, 4);
  }

  /** A backslash opens every escape; a quote opens nothing. */
  lemma EscapeOpens(c: char)
    ensures |Escape(c)| >= 1 && Escape(c)[0] != '"'
    ensures Escape(c)[0] == '\\' <==> IsShort(c) || !(' ' <= c <= '~')
    ensures Escape(c)[0] == '\\' ==> |Escape(c)| >= 2 && (Escape(c)[1] == 'u' <==> !IsShort(c))
  {
  }

  lemma NumericDecodes(c: char, d: char, x: string, y: string)
    requires !IsShort(c) && !(' ' <= c <= '~') && !IsShort(d) && !(' ' <= d <= '~')
    requires Escape(c) + x == Escape(d) + y
    ensures c == d && x == y
  {
    hide Unit;
    hide IsShort;
    var cBasic, dBasic := c as int < 0x10000, d as int < 0x10000;
    var m := if cBasic then c as int else High(c);
    var n := if dBasic then d as int else High(d);
    var u := if cBasic then x else Unit(Low(c)) + x;
    var v := if dBasic then y else Unit(Low(d)) + y;
    assert Escape(c) + x == Unit(m) + u;
    assert Escape(d) + y == Unit(n) + v;
    UnitDecodes(m, n, u, v);
    if !cBasic { UnitDecodes(Low(c), Low(d), x, y); }
  }

  lemma EscapeDecodes(c: char, d: char, x: string, y: string)
    requires Escape(c) + x == Escape(d) + y
    ensures c == d && x == y
  {
    EscapeOpens(c);
    EscapeOpens(d);
    assert (Escape(c) + x)[0] == Escape(c)[0] && (Escape(d) + y)[0] == Escape(d)[0];
    if Escape(c)[0] == '\\' {
      assert (Escape(c) + x)[1] == Escape(c)[1] && (Escape(d) + y)[1] == Escape(d)[1];
      if IsShort(c) {
        SplitAgrees(Escape(c), Escape(d), x, y);
      } else {
        NumericDecodes(c, d, x, y);
      }
    } else {
      SplitAgrees(Escape(c), Escape(d), x, y);
    }
  }

  lemma {:induction false} TailDecodes(s: string, t: string, x: string, y: string)
    requires Tail(s, x) == Tail(t, y)
    ensures s == t && x == y
  {
    if s != [] { TailSteps(s, x); } else { assert Tail(s, x) == "\"" + x; }
    if t != [] { TailSteps(t, y); } else { assert Tail(t, y) == "\"" + y; }
    if s != [] {
      EscapeDecodes(s[0], t[0], Tail(s[1..], x), Tail(t[1..], y));
      TailDecodes(s[1..], t[1..], x, y);
      assert s == [s[0]] + s[1..] && t == [t[0]] + t[1..];
    } else {
      SplitAgrees("\"", "\"", x, y);
    }
  }

  lemma QuoteAsTail(s: string, x: string)
    ensures Quote(s) + x == "\"" + Tail(s, x)
  {
    hide Escaped;
  }

  lemma QuoteDecodes(s: string, t: string, x: string, y: string)
    requires Quote(s) + x == Quote(t) + y
    ensures s == t && x == y
  {
    QuoteAsTail(s, x);
    QuoteAsTail(t, y);
    hide *;
    SplitAgrees("\"", "\"", Tail(s, x), Tail(t, y));
    TailDecodes(s, t, x, y);
  }

  // ---------------------------------------------------------- trees read back

  /** What may follow a value inside a printed tree. */
  ghost predicate Follows(x: string)
  {
    x == [] || x[0] in {',', ']', '}'}
  }

  predicate IsNumber(j: Json)
  {
    j.JInt? || j.JFloat?
  }

  /** A character that can stand inside a printed number. */
  ghost predicate InNumber(c: char)
  {
    c !in {',', ']', '}'}
  }

  lemma NumberIsOneRun(j: Json)
    requires IsNumber(j)
    ensures forall i :: 0 <= i < |Dump(j)| ==> InNumber(Dump(j)[i])
    ensures j.JInt? <==> forall i :: 0 <= i < |Dump(j)| ==> Dump(j)[i] == '-' || IsDigit(Dump(j)[i])
  {
    if j.JInt? {
      NatTextReads(if j.n < 0 then -j.n else j.n);
    } else {
      FloatIsNoInt(j.text);
      assert Dump(j) == j.text;
    }
  }

  lemma FloatIsNoInt(text: string)
    requires IsFloatText(text)
    ensures forall i :: 0 <= i < |text| ==> InNumber(text[i])
    ensures exists i :: 0 <= i < |text| && !(text[i] == '-' || IsDigit(text[i]))
  {
    if IsFiniteText(text) {
      var c := if '.' in text then '.' else 'e';
      var i :| 0 <= i < |text| && text[i] == c;
    } else {
      assert text[1] in {'a', 'n', 'I'};
    }
  }

  lemma RunsAgree(a: string, b: string, x: string, y: string)
    requires a + x == b + y && Follows(x) && Follows(y)
    requires forall i :: 0 <= i < |a| ==> InNumber(a[i])
    requires forall i :: 0 <= i < |b| ==> InNumber(b[i])
    ensures a == b && x == y
  {
    RunIsLongest(a, b, x, y);
    RunIsLongest(b, a, y, x);
    SplitAgrees(a, b, x, y);
  }

  lemma RunIsLongest(a: string, b: string, x: string, y: string)
    requires a + x == b + y && Follows(x)
    requires forall i :: 0 <= i < |b| ==> InNumber(b[i])
    ensures |b| <= |a|
  {
    assert x != [] ==> (a + x)[|a|] == x[0];
    assert forall i :: 0 <= i < |b| ==> (b + y)[i] == b[i];
    assert |a + x| == |b + y|;
  }

  lemma NumbersDecode(v: Json, w: Json, x: string, y: string)
    requires IsNumber(v) && IsNumber(w)
    requires Dump(v) + x == Dump(w) + y && Follows(x) && Follows(y)
    ensures v == w && x == y
  {
    NumberIsOneRun(v);
    NumberIsOneRun(w);
    RunsAgree(Dump(v), Dump(w), x, y);
    if v.JInt? {
      assert IntText(v.n) + "" == IntText(w.n) + "";
      IntTextDecodes(v.n, w.n, "", "");
    }
  }

  /** The first character of a printed value names its constructor. */
  predicate Opens(j: Json, c: char)
  {
    match j
    case JNull => c == 'n'
    case JBool(b) => c == (if b then 't' else 'f')
    case JInt(n) => c == '-' || IsDigit(c)
    case JFloat(text) => c == '-' || IsDigit(c) || c == 'N' || c == 'I'
    case JText(s) => c == '"'
    case JList(items) => c == '['
    case JObject(entries) => c == '{'
  }

  lemma DumpOpens(j: Json)
    ensures |Dump(j)| >= 1 && Opens(j, Dump(j)[0])
  {
    if j.JInt? { IntTextHead(j.n); }
  }

  lemma OpensOnce(v: Json, w: Json, c: char)
    requires Opens(v, c) && Opens(w, c)
    ensures v.JNull? == w.JNull? && v.JBool? == w.JBool? && IsNumber(v) == IsNumber(w) && v.JText? == w.JText?
    ensures v.JList? == w.JList? && v.JObject? == w.JObject?
    ensures v.JBool? ==> v == w
  {
  }

  lemma StripBracket(open: string, body: string, close: string, x: string)
    requires |open| == 1
    ensures (open + body + close) + x == open + (body + (close + x))
  {
  }

  lemma {:induction false} DumpDecodes(v: Json, w: Json, x: string, y: string)
    requires Dump(v) + x == Dump(w) + y && Follows(x) && Follows(y)
    ensures v == w && x == y
    decreases v, 1
  {
    DumpOpens(v);
    DumpOpens(w);
    HeadOf(Dump(v), x);
    HeadOf(Dump(w), y);
    OpensOnce(v, w, Dump(v)[0]);
    match v
    case JNull => SplitAgrees(Dump(v), Dump(w), x, y);
    case JBool(b) => SplitAgrees(Dump(v), Dump(w), x, y);
    case JInt(n) => NumbersDecode(v, w, x, y);
    case JFloat(text) => NumbersDecode(v, w, x, y);
    case JText(s) => QuoteDecodes(s, w.s, x, y);
    case JList(items) => ListDecodes(v, w, x, y);
    case JObject(entries) => ObjectDecodes(v, w, x, y);
  }

  lemma {:induction false} ListDecodes(v: Json, w: Json, x: string, y: string)
    requires v.JList? && w.JList? && Dump(v) + x == Dump(w) + y
    ensures v == w && x == y
    decreases v, 0
  {
    StripBracket("[", DumpItems(v.items), "]", x);
    StripBracket("[", DumpItems(w.items), "]", y);
    SplitAgrees("[", "[", DumpItems(v.items) + ("]" + x), DumpItems(w.items) + ("]" + y));
    ItemsDecode(v.items, w.items, x, y);
  }

  lemma {:induction false} ObjectDecodes(v: Json, w: Json, x: string, y: string)
    requires v.JObject? && w.JObject? && Dump(v) + x == Dump(w) + y
    ensures v == w && x == y
    decreases v, 0
  {
    StripBracket("{", DumpMembers(v.entries), "}", x);
    StripBracket("{", DumpMembers(w.entries), "}", y);
    SplitAgrees("{", "{", DumpMembers(v.entries) + ("}" + x), DumpMembers(w.entries) + ("}" + y));
    MembersDecode(v.entries, w.entries, x, y);
  }

  /** What follows the first item of a non-empty list. */
  function ItemsRest(items: seq<Json>, x: string): string
    requires items != []
  {
    if |items| == 1 then "]" + x else "," + (DumpItems(items[1..]) + ("]" + x))
  }

  lemma Regroup(a: string, b: string, c: string, d: string)
    ensures (a + b + c) + d == a + (b + (c + d))
  {
  }

  lemma ItemsStep(items: seq<Json>, x: string)
    requires items != []
    ensures DumpItems(items) + ("]" + x) == Dump(items[0]) + ItemsRest(items, x)
    ensures DumpItems(items) != [] && DumpItems(items)[0] != ']' && Follows(ItemsRest(items, x))
  {
    DumpOpens(items[0]);
    if |items| > 1 {
      var head, tail := Dump(items[0]), DumpItems(items[1..]);
      assert DumpItems(items) == head + "," + tail;
      hide Dump;
      hide DumpItems;
      StripBracket(",", tail, "]", x);
      Regroup(head, ",", tail, "]" + x);
    }
  }

  lemma RestAgrees(a: seq<Json>, b: seq<Json>, x: string, y: string)
    requires a != [] && b != [] && ItemsRest(a, x) == ItemsRest(b, y)
    ensures |a| == 1 <==> |b| == 1
    ensures |a| == 1 ==> x == y
    ensures |a| > 1 ==> DumpItems(a[1..]) + ("]" + x) == DumpItems(b[1..]) + ("]" + y)
  {
    var r, t := ItemsRest(a, x), ItemsRest(b, y);
    assert r[0] == t[0] && r[1..] == t[1..];
  }

  lemma ItemsEmpty(a: seq<Json>, b: seq<Json>, x: string, y: string)
    requires DumpItems(a) + ("]" + x) == DumpItems(b) + ("]" + y)
    requires a == [] || b == []
    ensures a == b && x == y
  {
    hide Dump;
    hide Follows;
    if a != [] { ItemsStep(a, x); }
    if b != [] { ItemsStep(b, y); }
    EndDecodes(DumpItems(a), DumpItems(b), "]", x, y);
  }

  lemma ItemsHeads(a: seq<Json>, b: seq<Json>, x: string, y: string)
    requires a != [] && b != [] && DumpItems(a) + ("]" + x) == DumpItems(b) + ("]" + y)
    ensures Dump(a[0]) + ItemsRest(a, x) == Dump(b[0]) + ItemsRest(b, y)
    ensures Follows(ItemsRest(a, x)) && Follows(ItemsRest(b, y))
  {
    ItemsStep(a, x);
    ItemsStep(b, y);
  }

  lemma SameParts<T>(a: seq<T>, b: seq<T>)
    requires |a| > 0 && |b| > 0 && a[0] == b[0] && a[1..] == b[1..]
    ensures a == b
  {
    assert a == [a[0]] + a[1..] && b == [b[0]] + b[1..];
  }

  lemma {:induction false} ItemsDecode(a: seq<Json>, b: seq<Json>, x: string, y: string)
    requires DumpItems(a) + ("]" + x) == DumpItems(b) + ("]" + y)
    ensures a == b && x == y
    decreases a, 1
  {
    hide Dump;
    hide DumpItems;
    hide ItemsRest;
    hide Follows;
    if a == [] || b == [] {
      ItemsEmpty(a, b, x, y);
    } else {
      ItemsHeads(a, b, x, y);
      FirstItems(a, b, x, y);
      if |a| > 1 { ItemsDecode(a[1..], b[1..], x, y); }
      SameParts(a, b);
    }
  }

  lemma {:induction false} FirstItems(a: seq<Json>, b: seq<Json>, x: string, y: string)
    requires a != [] && b != []
    requires Dump(a[0]) + ItemsRest(a, x) == Dump(b[0]) + ItemsRest(b, y)
    requires Follows(ItemsRest(a, x)) && Follows(ItemsRest(b, y))
    ensures a[0] == b[0] && (|a| == 1 <==> |b| == 1)
    ensures |a| == 1 ==> x == y
    ensures |a| > 1 ==> DumpItems(a[1..]) + ("]" + x) == DumpItems(b[1..]) + ("]" + y)
    decreases a, 0
  {
    DumpDecodes(a[0], b[0], ItemsRest(a, x), ItemsRest(b, y));
    hide Dump;
    RestAgrees(a, b, x, y);
  }

  lemma FirstOf(a: string, rest: string)
    ensures a != [] ==> (a + rest)[0] == a[0]
    ensures a == [] ==> a + rest == rest
  {
  }

  /** An empty body and the closing bracket agree only with an empty body. */
  lemma EndDecodes(a: string, b: string, close: string, x: string, y: string)
    requires |close| == 1 && a + (close + x) == b + (close + y)
    requires a == [] || b == []
    requires a != [] ==> a[0] != close[0]
    requires b != [] ==> b[0] != close[0]
    ensures a == [] && b == [] && x == y
  {
    FirstOf(a, close + x);
    FirstOf(b, close + y);
    assert x == (a + (close + x))[1..];
    assert y == (b + (close + y))[1..];
  }

  function MembersRest(entries: seq<Member>, x: string): string
    requires entries != []
  {
    if |entries| == 1 then "}" + x else "," + (DumpMembers(entries[1..]) + ("}" + x))
  }

  lemma MembersStep(entries: seq<Member>, x: string)
    requires entries != []
    ensures DumpMembers(entries) + ("}" + x)
         == Quote(entries[0].key) + (":" + (Dump(entries[0].value) + MembersRest(entries, x)))
    ensures DumpMembers(entries) != [] && DumpMembers(entries)[0] != '}' && Follows(MembersRest(entries, x))
  {
    var key, value, rest := Quote(entries[0].key), Dump(entries[0].value), MembersRest(entries, x);
    MembersTail(entries, x);
    hide *;
    Regroup(key, ":", value, rest);
  }

  lemma QuoteHead(s: string)
    ensures |Quote(s)| >= 1 && Quote(s)[0] == '"'
  {
  }

  lemma MembersTail(entries: seq<Member>, x: string)
    requires entries != []
    ensures DumpMembers(entries) + ("}" + x)
         == (Quote(entries[0].key) + ":" + Dump(entries[0].value)) + MembersRest(entries, x)
    ensures DumpMembers(entries) != [] && DumpMembers(entries)[0] == '"' && Follows(MembersRest(entries, x))
  {
    QuoteHead(entries[0].key);
    hide Dump;
    hide Quote;
    var head := Quote(entries[0].key) + ":" + Dump(entries[0].value);
    var rest := DumpMembers(entries[1..]);
    assert DumpMembers(entries) == if |entries| == 1 then head else head + "," + rest;
    assert MembersRest(entries, x) == if |entries| == 1 then "}" + x else "," + (rest + ("}" + x));
    hide DumpMembers;
    hide MembersRest;
    assert head[0] == '"';
    HeadAndRest(head, rest, x);
  }

  lemma HeadAndRest(head: string, rest: string, x: string)
    ensures head + "," + rest + ("}" + x) == head + ("," + (rest + ("}" + x)))
  {
  }

  lemma {:induction false} MembersDecode(a: seq<Member>, b: seq<Member>, x: string, y: string)
    requires DumpMembers(a) + ("}" + x) == DumpMembers(b) + ("}" + y)
    ensures a == b && x == y
    decreases a
  {
    hide Dump;
    hide Follows;
    if a == [] || b == [] {
      if a != [] { MembersStep(a, x); }
      if b != [] { MembersStep(b, y); }
      EndDecodes(DumpMembers(a), DumpMembers(b), "}", x, y);
    } else {
      MembersStep(a, x);
      MembersStep(b, y);
      var r, t := MembersRest(a, x), MembersRest(b, y);
      var u, w := Dump(a[0].value) + r, Dump(b[0].value) + t;
      QuoteDecodes(a[0].key, b[0].key, ":" + u, ":" + w);
      SplitAgrees(":", ":", u, w);
      DumpDecodes(a[0].value, b[0].value, r, t);
      assert r[0] == t[0] && r[1..] == t[1..];
      if |a| > 1 { MembersDecode(a[1..], b[1..], x, y); }
      assert a == [a[0]] + a[1..] && b == [b[0]] + b[1..];
    }
  }

  /** The printed bytes are equal exactly when the rows are equal as nested maps. */
  lemma CanonicalJsonDecidesContent(v: Value, w: Value)
    requires WellFormed(v) && WellFormed(w)
    ensures CanonicalJson(v) == CanonicalJson(w) <==> SameContent(v, w)
  {
    if SameContent(v, w) {
      SameContentCanonicalizes(v, w);
    }
    if CanonicalJson(v) == CanonicalJson(w) {
      assert Dump(Canonicalize(v)) + "" == Dump(Canonicalize(w)) + "";
      DumpDecodes(Canonicalize(v), Canonicalize(w), "", "");
      CanonicalizeIsFaithful(v, w);
    }
  }

  // ---------------------------------------------------------------- the exact bytes

  /** The short escapes, and what stands for itself. */
  lemma EscapesExactly()
    ensures Escape('\n') == "\\n" && Escape('\r') == "\\r" && Escape('\t') == "\\t"
    ensures Escape('\U{0c}') == "\\f" && Escape('\U{08}') == "\\b"
    ensures Escape('"') == "\\\"" && Escape('\\') == "\\\\"
    ensures forall c :: ' ' <= c <= '~' && c != '"' && c != '\\' ==> Escape(c) == [c]
  {
    hide Unit;
  }

  /** One numeric escape, and the surrogate pair of a character beyond the basic plane. */
  lemma NumericEscapesInput()
    ensures Escape('\U{e9}') == "\\u00e9" && Escape('\U{1f600}') == "\\ud83d\\ude00"
  {
    hide Unit;
    var e, f := '\U{e9}', '\U{1f600}';
    assert !IsShort(e) && !IsShort(f);
    assert High(f) == 0xd83d && Low(f) == 0xde00 && e as int == 0xe9;
    Digits(0xe9, 0, 0, 14, 9);
    Digits(0xd83d, 13, 8, 3, 13);
    Digits(0xde00, 13, 14, 0, 0);
  }

  lemma Digits(n: nat, a: nat, b: nat, c: nat, d: nat)
    requires a < 16 && b < 16 && c < 16 && d < 16 && n == 16 * (16 * (16 * a + b) + c) + d
    ensures n < 0x10000 && Unit(n) == ['\\', 'u', HEX[a], HEX[b], HEX[c], HEX[d]]
  {
    hide HexText;
    var n1 := 16 * (16 * a + b) + c;
    var n2 := 16 * a + b;
    HexStep(n, n1, d, 3);
    HexStep(n1, n2, c, 2);
    HexStep(n2, a, b, 1);
    HexStep(a, 0, a, 0);
    assert HexText(n, 4) == [HEX[a], HEX[b], HEX[c], HEX[d]];
  }

  lemma HexStep(n: nat, rest: nat, digit: nat, k: nat)
    requires n == 16 * rest + digit && digit < 16
    ensures HexText(n, k + 1) == HexText(rest, k) + [HEX[digit]]
    ensures HexText(rest, 0) == ""
  {
    assert n / 16 == rest && n % 16 == digit;
  }

  lemma ThreeItems(x: Json, y: Json, z: Json)
    ensures Dump(JList([x, y, z])) == "[" + (Dump(x) + "," + (Dump(y) + "," + Dump(z))) + "]"
  {
    assert [x, y, z][1..] == [y, z] && [y, z][1..] == [z];
    assert DumpItems([z]) == Dump(z);
    assert DumpItems([y, z]) == Dump(y) + "," + DumpItems([z]);
  }

  function Shown(x: Member): string
  {
    Quote(x.key) + ":" + Dump(x.value)
  }

  lemma ThreeMembers(x: Member, y: Member, z: Member)
    ensures Dump(JObject([x, y, z])) == "{" + (Shown(x) + "," + (Shown(y) + "," + Shown(z))) + "}"
  {
    hide Quote;
    assert [x, y, z][1..] == [y, z] && [y, z][1..] == [z];
    assert DumpMembers([z]) == Shown(z);
    assert DumpMembers([y, z]) == Shown(y) + "," + DumpMembers([z]);
  }

  lemma ThreeValues(x: Value, y: Value, z: Value)
    ensures Canonicalize(List([x, y, z])) == JList([Canonicalize(x), Canonicalize(y), Canonicalize(z)])
  {
    assert [x, y, z][1..] == [y, z] && [y, z][1..] == [z];
    assert CanonicalizeAll([z]) == [Canonicalize(z)];
    assert CanonicalizeAll([y, z]) == [Canonicalize(y)] + CanonicalizeAll([z]);
  }

  lemma ThreeEntries(x: Field, y: Field, z: Field)
    ensures CanonicalizeEntries([x, y, z]) == [Canonical.Canonical(x), Canonical.Canonical(y), Canonical.Canonical(z)]
  {
    hide Canonicalize;
    assert [x, y, z][1..] == [y, z] && [y, z][1..] == [z] && [z][1..] == [];
    assert CanonicalizeEntries([z]) == [Canonical.Canonical(z)];
    assert CanonicalizeEntries([y, z]) == [Canonical.Canonical(y)] + CanonicalizeEntries([z]);
  }

  lemma Twelve()
    ensures IntText(-12) == "-12"
  {
    assert NatText(1) == "1" && NatText(12) == NatText(1) + "2";
  }

  lemma ListInput()
    ensures Canonicalize(List([Null, Bool(true), Int(-12)])) == JList([JNull, JBool(true), JInt(-12)])
    ensures Dump(JList([JNull, JBool(true), JInt(-12)])) == "[null,true,-12]"
  {
    ThreeValues(Null, Bool(true), Int(-12));
    ThreeItems(JNull, JBool(true), JInt(-12));
    Twelve();
    assert Canonicalize(Null) == JNull && Canonicalize(Bool(true)) == JBool(true) && Canonicalize(Int(-12)) == JInt(-12);
    hide Canonicalize;
    hide IntText;
    hide DumpItems;
    assert Dump(JNull) == "null" && Dump(JBool(true)) == "true" && Dump(JInt(-12)) == "-12";
  }

  lemma DecimalInput()
    ensures Canonicalize(Dec(Decimal(true, 150, -2))) == JText("-1.5")
  {
    var d := Decimal(true, 15, -1);
    assert Normalize(Decimal(true, 150, -2)) == Normalize(d) == d;
    assert NatText(15) == "15";
    assert DecimalText(d) == "-" + "1" + ("." + "5") == "-1.5";
  }

  lemma SortInput(v: Member, n: Member, a: Member)
    requires v.key == "v" && n.key == "n" && a.key == "a"
    ensures SortByKey([v, n, a]) == [a, n, v]
  {
    assert KeyBelow(n, v) && KeyBelow(a, n);
    hide KeyBelow;
    assert [v, n, a][..2] == [v, n] && [v, n][..1] == [v] && [v][..0] == [];
    assert Sorted([v], KeyBelow) == Insert([], v, KeyBelow) == [v];
    assert Sorted([v, n], KeyBelow) == Insert([v], n, KeyBelow) == [n, v];
    assert Sorted([v, n, a], KeyBelow) == Insert([n, v], a, KeyBelow) == [a, n, v];
  }

  lemma EscapedOne(c: char, s: string)
    ensures Escaped([c] + s) == Escape(c) + Escaped(s) && Escaped("") == ""
  {
    hide Escape;
    assert ([c] + s)[1..] == s;
  }

  lemma PlainOne(c: char)
    requires ' ' <= c <= '~' && c != '"' && c != '\\'
    ensures Quote([c]) == ['"', c, '"']
  {
    EscapesExactly();
    hide Escape;
    EscapedOne(c, "");
    assert [c] + "" == [c];
  }

  lemma TextInput()
    ensures Quote("x\n") == "\"x\\n\""
  {
    EscapesExactly();
    hide Escape;
    EscapedOne('\n', "");
    EscapedOne('x', "\n");
    assert ['\n'] + "" == "\n" && ['x'] + "\n" == "x\n";
  }

  lemma NumberInput()
    ensures Quote("-1.5") == "\"-1.5\""
  {
    EscapesExactly();
    hide Escape;
    EscapedOne('5', "");
    EscapedOne('.', "5");
    EscapedOne('1', ".5");
    EscapedOne('-', "1.5");
    assert ['5'] + "" == "5" && ['.'] + "5" == ".5" && ['1'] + ".5" == "1.5" && ['-'] + "1.5" == "-1.5";
  }

  /** A small row as it is printed: its members in key order, no spaces, numbers and flags bare, decimals as text. */
  lemma PrintedInput()
    ensures CanonicalJson(Dict([Field("v", List([Null, Bool(true), Int(-12)])),
                                Field("n", Dec(Decimal(true, 150, -2))),
                                Field("a", Text("x\n"))]))
            == "{" + ("\"a\":\"x\\n\"" + "," + ("\"n\":\"-1.5\"" + "," + "\"v\":[null,true,-12]")) + "}"
  {
    hide *;
    var jv := JList([JNull, JBool(true), JInt(-12)]);
    var fv, fn, fa := Field("v", List([Null, Bool(true), Int(-12)])), Field("n", Dec(Decimal(true, 150, -2))), Field("a", Text("x\n"));
    var v, n, a := Member("v", jv), Member("n", JText("-1.5")), Member("a", JText("x\n"));
    ListInput();
    DecimalInput();
    CanonicalFields(fv, fn, fa, jv);
    SortInput(v, n, a);
    ThreeMembers(a, n, v);
    CanonicalDict(fv, fn, fa, v, n, a);
    ShownInput(jv);
  }

  lemma CanonicalFields(fv: Field, fn: Field, fa: Field, jv: Json)
    requires fa.value == Text("x\n") && Canonicalize(fv.value) == jv && Canonicalize(fn.value) == JText("-1.5")
    ensures Canonical.Canonical(fv) == Member(fv.key, jv)
    ensures Canonical.Canonical(fn) == Member(fn.key, JText("-1.5"))
    ensures Canonical.Canonical(fa) == Member(fa.key, JText("x\n"))
  {
  }

  lemma CanonicalDict(fv: Field, fn: Field, fa: Field, v: Member, n: Member, a: Member)
    requires Canonical.Canonical(fv) == v && Canonical.Canonical(fn) == n && Canonical.Canonical(fa) == a
    requires SortByKey([v, n, a]) == [a, n, v]
    ensures CanonicalJson(Dict([fv, fn, fa])) == Dump(JObject([a, n, v]))
  {
    hide SortByKey;
    hide Dump;
    ThreeEntries(fv, fn, fa);
  }

  lemma ShownText(key: string, s: string)
    ensures Shown(Member(key, JText(s))) == Quote(key) + ":" + Quote(s)
  {
    hide Quote;
  }

  lemma ShownAs(key: string, j: Json)
    ensures Shown(Member(key, j)) == Quote(key) + ":" + Dump(j)
  {
    hide Quote;
    hide Dump;
  }

  lemma ShownInput(jv: Json)
    requires Dump(jv) == "[null,true,-12]"
    ensures Shown(Member("a", JText("x\n"))) == "\"a\":\"x\\n\""
    ensures Shown(Member("n", JText("-1.5"))) == "\"n\":\"-1.5\""
    ensures Shown(Member("v", jv)) == "\"v\":[null,true,-12]"
  {
    hide *;
    TextInput();
    NumberInput();
    PlainOne('a');
    PlainOne('n');
    PlainOne('v');
    ShownText("a", "x\n");
    ShownText("n", "-1.5");
    ShownAs("v", jv);
    assert "v" == ['v'] && "n" == ['n'] && "a" == ['a'];
  }
}
