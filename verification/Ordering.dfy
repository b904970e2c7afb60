/**
 Code-point order on strings, as Python's `sorted` and `sort_keys=True` use it.
 */
module Ordering {

  predicate Below(a: string, b: string)
  {
    if b == [] then false
    else if a == [] then true
    else a[0] < b[0] || (a[0] == b[0] && Below(a[1..], b[1..]))
  }

  lemma BelowIsTotal(a: string, b: string)
    ensures a == b || Below(a, b) || Below(b, a)
  {
    if a != [] && b != [] && a[0] == b[0] {
      BelowIsTotal(a[1..], b[1..]);
      if a[1..] == b[1..] {
        assert a == [a[0]] + a[1..] == [b[0]] + b[1..] == b;
      }
    }
  }

  lemma BelowIsIrreflexive(a: string)
    ensures !Below(a, a)
  {
    if a != [] { BelowIsIrreflexive(a[1..]); }
  }

  lemma BelowIsTransitive(a: string, b: string, c: string)
    requires Below(a, b) && Below(b, c)
    ensures Below(a, c)
  {
    if a != [] && a[0] == b[0] && b[0] == c[0] {
      BelowIsTransitive(a[1..], b[1..], c[1..]);
    }
  }

  /** At the first place where the strings part, `a` has ended or has the lesser character. */
  ghost predicate FirstDifference(a: string, b: string)
  {
    exists k ::
      && 0 <= k <= |a| && k < |b|
      && a[..k] == b[..k]
      && (k < |a| ==> a[k] < b[k])
  }

  lemma DifferenceInRest(a: string, b: string)
    requires a != [] && b != [] && a[0] == b[0] && FirstDifference(a, b)
    ensures FirstDifference(a[1..], b[1..])
  {
    var k :| 0 <= k <= |a| && k < |b| && a[..k] == b[..k] && (k < |a| ==> a[k] < b[k]);
    assert k > 0;
    assert a[1..][..k - 1] == a[..k][1..] == b[1..][..k - 1];
  }

  lemma DifferenceBehind(a: string, b: string)
    requires a != [] && b != [] && a[0] == b[0] && FirstDifference(a[1..], b[1..])
    ensures FirstDifference(a, b)
  {
    var s, t := a[1..], b[1..];
    var k :| 0 <= k <= |s| && k < |t| && s[..k] == t[..k] && (k < |s| ==> s[k] < t[k]);
    assert a[..k + 1] == [a[0]] + s[..k] == b[..k + 1];
  }

  lemma DifferenceAtStart(a: string, b: string)
    ensures a == [] && b != [] ==> FirstDifference(a, b)
    ensures b == [] ==> !FirstDifference(a, b)
    ensures a != [] && b != [] && a[0] < b[0] ==> FirstDifference(a, b)
    ensures a != [] && b != [] && b[0] < a[0] ==> !FirstDifference(a, b)
  {
    assert a[..0] == b[..0];
    if a != [] && b != [] && FirstDifference(a, b) {
      var k :| 0 <= k <= |a| && k < |b| && a[..k] == b[..k] && (k < |a| ==> a[k] < b[k]);
      assert k > 0 ==> a[..k][0] == b[..k][0];
    }
  }

  lemma {:induction false} BelowExactly(a: string, b: string)
    ensures Below(a, b) <==> FirstDifference(a, b)
  {
    hide FirstDifference;
    DifferenceAtStart(a, b);
    if a != [] && b != [] && a[0] == b[0] {
      BelowExactly(a[1..], b[1..]);
      if FirstDifference(a, b) { DifferenceInRest(a, b); }
      if FirstDifference(a[1..], b[1..]) { DifferenceBehind(a, b); }
    }
  }
}
