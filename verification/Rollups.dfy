/**
 Execution-quality rollups and slippage alerts (trade_core/tca_quality.py):
 what the groups conserve, what bounds the quantiles, which pages are raised.
 */
module Rollups {
  import opened Ordering
  import opened Sorting
  import opened Text

  datatype Observation = Observation(
    tcaId: string,
    fillId: string,
    strategy: string,
    symbol: string,
    broker: string,
    regime: string,
    source: string,
    date: int,
    bps: real,
    cost: real)

  datatype Dimension = Strategy | Broker | Symbol | Regime | Session

  const DIMENSIONS: seq<Dimension> := [Strategy, Broker, Symbol, Regime, Session]

  function NameOf(d: Dimension): string
  {
    match d
    case Strategy => "strategy"
    case Broker => "broker"
    case Symbol => "symbol"
    case Regime => "regime"
    case Session => "session"
  }

  datatype Key = Key(dimension: Dimension, value: string, date: int)

  function KeyOf(o: Observation, d: Dimension): Key
  {
    Key(d,
        match d
        case Strategy => o.strategy
        case Broker => o.broker
        case Symbol => o.symbol
        case Regime => o.regime
        case Session => o.source,
        o.date)
  }

  predicate Touches(o: Observation, k: Key)
  {
    KeyOf(o, k.dimension) == k
  }

  /** The observations of one key, in the order given. */
  function Group(rows: seq<Observation>, k: Key): seq<Observation>
  {
    if rows == [] then []
    else
      var front := Group(rows[..|rows| - 1], k);
      if Touches(rows[|rows| - 1], k) then front + [rows[|rows| - 1]] else front
  }

  lemma GroupOfAppend(rows: seq<Observation>, o: Observation, k: Key)
    ensures Group(rows + [o], k) == if Touches(o, k) then Group(rows, k) + [o] else Group(rows, k)
  {
    assert (rows + [o])[..|rows|] == rows;
  }

  // ------------------------------------------------------------------ key order

  predicate KeyBefore(a: Key, b: Key)
  {
    if a.dimension != b.dimension then Below(NameOf(a.dimension), NameOf(b.dimension))
    else if a.value != b.value then Below(a.value, b.value)
    else a.date < b.date
  }

  lemma NamesDiffer(a: Dimension, b: Dimension)
    ensures NameOf(a) == NameOf(b) ==> a == b
  {
    assert "strategy"[1] == 't' && "symbol"[1] == 'y' && "session"[1] == 'e';
    assert "broker"[0] == 'b' && "regime"[0] == 'r';
    assert "strategy"[0] == 's' && "symbol"[0] == 's' && "session"[0] == 's';
  }

  lemma KeysAreOrdered(a: Key, b: Key, c: Key)
    ensures !KeyBefore(a, a)
    ensures a == b || KeyBefore(a, b) || KeyBefore(b, a)
    ensures KeyBefore(a, b) && KeyBefore(b, c) ==> KeyBefore(a, c)
  {
    hide NameOf;
    NamesDiffer(a.dimension, b.dimension);
    var x, y, z := NameOf(a.dimension), NameOf(b.dimension), NameOf(c.dimension);
    BelowIsTotal(x, y);
    BelowIsTotal(a.value, b.value);
    BelowIsIrreflexive(x);
    BelowIsIrreflexive(a.value);
    if Below(x, y) && Below(y, z) { BelowIsTransitive(x, y, z); }
    if Below(a.value, b.value) && Below(b.value, c.value) { BelowIsTransitive(a.value, b.value, c.value); }
  }

  lemma KeyOrderIsStrict()
    ensures IsStrictOrder(KeyBefore) && IsTotal(KeyBefore)
  {
    hide KeyBefore;
    forall a, b, c
      ensures !KeyBefore(a, a)
      ensures a == b || KeyBefore(a, b) || KeyBefore(b, a)
      ensures KeyBefore(a, b) && KeyBefore(b, c) ==> KeyBefore(a, c)
      ensures KeyBefore(a, c) ==> KeyBefore(a, b) || KeyBefore(b, c)
    {
      KeysAreOrdered(a, b, c);
      KeysAreOrdered(a, c, b);
      KeysAreOrdered(b, c, a);
      KeysAreOrdered(b, a, c);
    }
  }

  predicate Less(x: real, y: real)
  {
    x < y
  }

  lemma LessIsStrict()
    ensures IsStrictOrder(Less) && IsTotal(Less)
  {
  }

  // ------------------------------------------------------------------ quantiles

  datatype Quantile = NoValues | Value(value: real)

  /** The value at a fractional position of an ordered list, between its two neighbours. */
  function Interpolated(ordered: seq<real>, position: real): real
    requires ordered != [] && 0.0 <= position <= (|ordered| - 1) as real
  {
    var lower := position.Floor;
    var upper := if lower + 1 < |ordered| - 1 then lower + 1 else |ordered| - 1;
    ordered[lower] + (ordered[upper] - ordered[lower]) * (position - lower as real)
  }

  /** How far along a list of `n` values the fraction `p` points. */
  function Position(n: nat, p: real): (x: real)
    requires n >= 1 && 0.0 <= p <= 1.0
    ensures 0.0 <= x <= (n - 1) as real
  {
    NonNegative((n - 1) as real, p);
    NonNegative((n - 1) as real, 1.0 - p);
    (n - 1) as real * p
  }

  lemma NonNegative(x: real, y: real)
    requires x >= 0.0 && y >= 0.0
    ensures x * y >= 0.0
  {
  }

  lemma PositionGrows(n: nat, p: real, q: real)
    requires n >= 1 && 0.0 <= p <= q <= 1.0
    ensures Position(n, p) <= Position(n, q)
    ensures Position(n, 0.0) == 0.0 && Position(n, 1.0) == (n - 1) as real
  {
    NonNegative((n - 1) as real, q - p);
  }

  function Percentile(values: seq<real>, p: real): Quantile
    requires 0.0 <= p <= 1.0
  {
    if values == [] then NoValues
    else
      SlippagesSort(values);
      var ordered := Sorted(values, Less);
      if |ordered| == 1 then Value(ordered[0])
      else Value(Interpolated(ordered, Position(|ordered|, p)))
  }

  lemma SlippagesSort(values: seq<real>)
    ensures |Sorted(values, Less)| == |values|
    ensures IsSorted(Sorted(values, Less), Less)
    ensures multiset(Sorted(values, Less)) == multiset(values)
  {
    LessIsStrict();
    SortedSorts(values, Less);
    assert |multiset(values)| == |values|;
    assert |multiset(Sorted(values, Less))| == |Sorted(values, Less)|;
  }

  lemma PercentileInterpolates(values: seq<real>, p: real)
    requires values != [] && 0.0 <= p <= 1.0
    ensures |Sorted(values, Less)| == |values|
    ensures Percentile(values, p) == Value(Interpolated(Sorted(values, Less), Position(|values|, p)))
  {
    SlippagesSort(values);
  }

  lemma BetweenNeighbours(a: real, b: real, f: real)
    requires a <= b && 0.0 <= f < 1.0
    ensures a <= a + (b - a) * f <= b
  {
    NonNegative(b - a, f);
    NonNegative(b - a, 1.0 - f);
  }

  lemma Slope(a: real, b: real, f: real, g: real)
    requires a <= b && f <= g
    ensures (b - a) * f <= (b - a) * g
  {
    NonNegative(b - a, g - f);
  }

  /** An interpolated value lies between the elements around its position. */
  lemma InterpolatedLocal(ordered: seq<real>, x: real)
    requires ordered != [] && IsSorted(ordered, Less) && 0.0 <= x <= (|ordered| - 1) as real
    ensures ordered[x.Floor] <= Interpolated(ordered, x)
    ensures x.Floor + 1 < |ordered| ==> Interpolated(ordered, x) <= ordered[x.Floor + 1]
  {
    var lower := x.Floor;
    var upper := if lower + 1 < |ordered| - 1 then lower + 1 else |ordered| - 1;
    assert lower < upper ==> !Less(ordered[upper], ordered[lower]);
    BetweenNeighbours(ordered[lower], ordered[upper], x - lower as real);
  }

  /** Further along an ordered list the interpolated value does not fall. */
  lemma InterpolatedGrows(ordered: seq<real>, x: real, y: real)
    requires ordered != [] && IsSorted(ordered, Less) && 0.0 <= x <= y <= (|ordered| - 1) as real
    ensures Interpolated(ordered, x) <= Interpolated(ordered, y)
  {
    if x.Floor == y.Floor {
      var lower := x.Floor;
      var upper := if lower + 1 < |ordered| - 1 then lower + 1 else |ordered| - 1;
      assert lower < upper ==> !Less(ordered[upper], ordered[lower]);
      Slope(ordered[lower], ordered[upper], x - lower as real, y - lower as real);
    } else {
      InterpolatedLocal(ordered, x);
      InterpolatedLocal(ordered, y);
      assert x.Floor + 1 < y.Floor ==> !Less(ordered[y.Floor], ordered[x.Floor + 1]);
    }
  }

  /** A higher percentile is never a smaller value, and every percentile lies between two observed values. */
  lemma PercentilesGrow(values: seq<real>, p: real, q: real)
    requires values != [] && 0.0 <= p <= q <= 1.0
    ensures Percentile(values, p).Value? && Percentile(values, q).Value?
    ensures Percentile(values, p).value <= Percentile(values, q).value
  {
    hide *;
    SlippagesSort(values);
    PercentileInterpolates(values, p);
    PercentileInterpolates(values, q);
    PositionGrows(|values|, p, q);
    InterpolatedGrows(Sorted(values, Less), Position(|values|, p), Position(|values|, q));
  }

  ghost predicate Bounds(low: real, values: seq<real>, high: real)
  {
    && (forall i :: 0 <= i < |values| ==> low <= values[i] <= high)
    && low in values && high in values
  }

  /** The percentiles at zero and one are the least and the greatest value. */
  lemma ExtremePercentiles(values: seq<real>)
    requires values != []
    ensures Percentile(values, 0.0).Value? && Percentile(values, 1.0).Value?
    ensures Bounds(Percentile(values, 0.0).value, values, Percentile(values, 1.0).value)
  {
    hide Percentile;
    hide Position;
    hide Sorted;
    SlippagesSort(values);
    PercentileInterpolates(values, 0.0);
    PercentileInterpolates(values, 1.0);
    PositionGrows(|values|, 0.0, 1.0);
    var ordered := Sorted(values, Less);
    Ends(ordered);
    forall i | 0 <= i < |values| ensures ordered[0] <= values[i] <= ordered[|ordered| - 1] {
      assert values[i] in multiset(values);
      assert values[i] in multiset(ordered);
      WithinEnds(ordered, values[i]);
    }
    assert ordered[0] in multiset(ordered) && ordered[|ordered| - 1] in multiset(ordered);
  }

  lemma Ends(ordered: seq<real>)
    requires ordered != []
    ensures Interpolated(ordered, 0.0) == ordered[0]
    ensures Interpolated(ordered, (|ordered| - 1) as real) == ordered[|ordered| - 1]
  {
  }

  lemma WithinEnds(ordered: seq<real>, x: real)
    requires IsSorted(ordered, Less) && x in ordered
    ensures ordered[0] <= x <= ordered[|ordered| - 1]
  {
    var j :| 0 <= j < |ordered| && ordered[j] == x;
    assert 0 < j ==> !Less(ordered[j], ordered[0]);
    assert j < |ordered| - 1 ==> !Less(ordered[|ordered| - 1], ordered[j]);
  }

  // -------------------------------------------------------------------- rollups

  function Total(rows: seq<Observation>, f: Observation -> real): real
  {
    if rows == [] then 0.0 else Total(rows[..|rows| - 1], f) + f(rows[|rows| - 1])
  }

  function Bps(o: Observation): real
  {
    o.bps
  }

  function Cost(o: Observation): real
  {
    o.cost
  }

  function One(o: Observation): real
  {
    1.0
  }

  function Slippages(rows: seq<Observation>): seq<real>
  {
    if rows == [] then [] else Slippages(rows[..|rows| - 1]) + [rows[|rows| - 1].bps]
  }

  function Mean(total: real, n: nat): real
    requires n > 0
  {
    total / (n as real)
  }

  datatype Rollup = Rollup(key: Key, avg: real, p50: real, p95: real, cost: real, count: nat)

  function Summary(k: Key, rows: seq<Observation>): Rollup
    requires rows != []
  {
    SlippagesLength(rows);
    Rollup(k, Mean(Total(rows, Bps), |rows|),
           Percentile(Slippages(rows), 0.5).value, Percentile(Slippages(rows), 0.95).value,
           Total(rows, Cost), |rows|)
  }

  lemma {:induction false} SlippagesLength(rows: seq<Observation>)
    ensures |Slippages(rows)| == |rows|
  {
    if rows != [] { SlippagesLength(rows[..|rows| - 1]); }
  }

  lemma TotalOfAppend(rows: seq<Observation>, o: Observation, f: Observation -> real)
    ensures Total(rows + [o], f) == Total(rows, f) + f(o)
  {
    assert (rows + [o])[..|rows|] == rows;
  }

  function KeysOf(rollups: seq<Rollup>): seq<Key>
  {
    seq(|rollups|, i requires 0 <= i < |rollups| => rollups[i].key)
  }

  /** One rollup per key that occurs, in key order, each summing up its group. */
  ghost predicate IsRollups(rows: seq<Observation>, rollups: seq<Rollup>)
  {
    && IsSorted(KeysOf(rollups), KeyBefore) && Distinct(KeysOf(rollups))
    && (forall k :: k in KeysOf(rollups) <==> Group(rows, k) != [])
    && forall i :: 0 <= i < |rollups| ==> IsSummary(rows, rollups[i])
  }

  ghost predicate IsSummary(rows: seq<Observation>, r: Rollup)
  {
    Group(rows, r.key) != [] && r == Summary(r.key, Group(rows, r.key))
  }

  // ------------------------------------------------------------- building them

  /** The dictionary after all of `done` and the first `i` dimensions of `o`. */
  ghost predicate GroupsHold(groups: map<Key, seq<Observation>>, keys: seq<Key>, done: seq<Observation>, o: Observation, i: nat)
    requires i <= |DIMENSIONS|
  {
    && Distinct(keys) && (forall k :: k in keys <==> k in groups)
    && forall k :: (k in groups <==> Partial(done, o, i, k) != []) && (k in groups ==> groups[k] == Partial(done, o, i, k))
  }

  ghost function Partial(done: seq<Observation>, o: Observation, i: nat, k: Key): seq<Observation>
    requires i <= |DIMENSIONS|
  {
    if k.dimension in DIMENSIONS[..i] then Group(done + [o], k) else Group(done, k)
  }

  lemma PartialStep(done: seq<Observation>, o: Observation, i: nat, k: Key)
    requires i < |DIMENSIONS|
    ensures Partial(done, o, i + 1, k)
            == if k == KeyOf(o, DIMENSIONS[i]) then Partial(done, o, i, k) + [o] else Partial(done, o, i, k)
  {
    GroupOfAppend(done, o, k);
    assert DIMENSIONS[..i + 1] == DIMENSIONS[..i] + [DIMENSIONS[i]];
    assert DIMENSIONS[i] !in DIMENSIONS[..i];
  }

  lemma PartialEnds(done: seq<Observation>, o: Observation, k: Key)
    ensures Partial(done, o, 0, k) == Group(done, k)
    ensures Partial(done, o, 5, k) == Group(done + [o], k)
  {
    assert DIMENSIONS[..5] == DIMENSIONS;
  }

  method BuildRollups(rows: seq<Observation>) returns (rollups: seq<Rollup>)
    ensures IsRollups(rows, rollups)
  {
    hide Group;
    hide IsStrictOrder;
    var groups: map<Key, seq<Observation>> := map[];
    var keys: seq<Key> := [];
    EmptyGroups();
    for n := 0 to |rows|
      invariant GroupsAre(groups, keys, rows[..n])
    {
      groups, keys := AddObservation(groups, keys, rows[..n], rows[n]);
      assert rows[..n + 1] == rows[..n] + [rows[n]];
    }
    assert rows[..|rows|] == rows;
    rollups := Summarise(rows, groups, keys);
  }

  method Summarise(ghost rows: seq<Observation>, groups: map<Key, seq<Observation>>, keys: seq<Key>) returns (rollups: seq<Rollup>)
    requires GroupsAre(groups, keys, rows)
    ensures IsRollups(rows, rollups)
  {
    hide Group;
    hide IsStrictOrder;
    hide Sorted;
    hide Summary;
    hide GroupsAre;
    hide IsSummary;
    hide KeyBefore;
    KeyOrderIsStrict();
    SortedSorts(keys, KeyBefore);
    GroupedKeys(rows, groups, keys);
    SortedKeepsDistinct(keys, KeyBefore);
    var ordered := Sorted(keys, KeyBefore);
    rollups := [];
    for n := 0 to |ordered|
      invariant |rollups| == n
      invariant forall i :: 0 <= i < n ==> IsSummary(rows, rollups[i]) && rollups[i].key == ordered[i]
    {
      assert ordered[n] in keys;
      GroupSummary(rows, groups, keys, ordered[n]);
      rollups := rollups + [Summary(ordered[n], groups[ordered[n]])];
    }
    assert KeysOf(rollups) == ordered;
  }

  lemma GroupedKeys(rows: seq<Observation>, groups: map<Key, seq<Observation>>, keys: seq<Key>)
    requires GroupsAre(groups, keys, rows)
    ensures Distinct(keys) && forall k :: k in keys <==> Group(rows, k) != []
  {
    hide Group;
  }

  lemma GroupSummary(rows: seq<Observation>, groups: map<Key, seq<Observation>>, keys: seq<Key>, k: Key)
    requires GroupsAre(groups, keys, rows) && k in keys
    ensures k in groups && groups[k] != [] && Summary(k, groups[k]).key == k
    ensures IsSummary(rows, Summary(k, groups[k]))
  {
    hide Group;
    hide Percentile;
    hide Total;
  }

  ghost predicate GroupsAre(groups: map<Key, seq<Observation>>, keys: seq<Key>, rows: seq<Observation>)
  {
    && Distinct(keys) && (forall k :: k in keys <==> k in groups)
    && forall k :: (k in groups <==> Group(rows, k) != []) && (k in groups ==> groups[k] == Group(rows, k))
  }

  lemma EmptyGroups()
    ensures GroupsAre(map[], [], [])
  {
  }

  /** One observation joins the group of each of its five keys. */
  method AddObservation(before: map<Key, seq<Observation>>, known: seq<Key>, ghost done: seq<Observation>, o: Observation)
    returns (groups: map<Key, seq<Observation>>, keys: seq<Key>)
    requires GroupsAre(before, known, done)
    ensures GroupsAre(groups, keys, done + [o])
  {
    hide Group;
    hide Partial;
    groups, keys := before, known;
    forall k ensures Partial(done, o, 0, k) == Group(done, k) && Partial(done, o, 5, k) == Group(done + [o], k) {
      PartialEnds(done, o, k);
    }
    for i := 0 to |DIMENSIONS|
      invariant GroupsHold(groups, keys, done, o, i)
    {
      forall k
        ensures Partial(done, o, i + 1, k)
                == if k == KeyOf(o, DIMENSIONS[i]) then Partial(done, o, i, k) + [o] else Partial(done, o, i, k)
      {
        PartialStep(done, o, i, k);
      }
      var key := KeyOf(o, DIMENSIONS[i]);
      if key !in groups {
        groups := groups[key := []];
        keys := keys + [key];
      }
      groups := groups[key := groups[key] + [o]];
    }
  }

  // -------------------------------------------------------------- conservation

  /** What one key contributes to dimension `d`. */
  function Share(k: Key, d: Dimension, rows: seq<Observation>, f: Observation -> real): real
  {
    if k.dimension == d then Total(Group(rows, k), f) else 0.0
  }

  /** The sum of `f` over the groups of one dimension. */
  function Spread(keys: seq<Key>, d: Dimension, rows: seq<Observation>, f: Observation -> real): real
  {
    if keys == [] then 0.0 else Spread(keys[..|keys| - 1], d, rows, f) + Share(keys[|keys| - 1], d, rows, f)
  }

  lemma ShareOfAppend(k: Key, d: Dimension, rows: seq<Observation>, o: Observation, f: Observation -> real)
    ensures Share(k, d, rows + [o], f) == Share(k, d, rows, f) + if KeyOf(o, d) == k then f(o) else 0.0
  {
    hide Total;
    hide Group;
    GroupOfAppend(rows, o, k);
    TotalOfAppend(Group(rows, k), o, f);
  }

  lemma {:induction false} SpreadOfAppend(keys: seq<Key>, d: Dimension, rows: seq<Observation>, o: Observation, f: Observation -> real)
    requires Distinct(keys)
    ensures Spread(keys, d, rows + [o], f)
            == Spread(keys, d, rows, f) + if KeyOf(o, d) in keys then f(o) else 0.0
    decreases |keys|
  {
    hide Share;
    hide KeyOf;
    if keys != [] {
      var front, k := keys[..|keys| - 1], keys[|keys| - 1];
      assert keys == front + [k];
      SpreadOfAppend(front, d, rows, o, f);
      ShareOfAppend(k, d, rows, o, f);
      assert k !in front;
    }
  }

  lemma {:induction false} SpreadOfNothing(keys: seq<Key>, d: Dimension, f: Observation -> real)
    ensures Spread(keys, d, [], f) == 0.0
    decreases |keys|
  {
    if keys != [] { SpreadOfNothing(keys[..|keys| - 1], d, f); }
  }

  /** The groups of a dimension share out the observations: no row is lost and none counted twice. */
  lemma {:induction false} GroupsPartition(keys: seq<Key>, d: Dimension, rows: seq<Observation>, f: Observation -> real)
    requires Distinct(keys) && forall o :: o in rows ==> KeyOf(o, d) in keys
    ensures Spread(keys, d, rows, f) == Total(rows, f)
    decreases |rows|
  {
    if rows == [] {
      SpreadOfNothing(keys, d, f);
    } else {
      var front, o := rows[..|rows| - 1], rows[|rows| - 1];
      assert rows == front + [o];
      GroupsPartition(keys, d, front, f);
      SpreadOfAppend(keys, d, front, o, f);
    }
  }

  function CostIn(rollups: seq<Rollup>, d: Dimension): real
  {
    if rollups == [] then 0.0
    else
      CostIn(rollups[..|rollups| - 1], d)
      + if rollups[|rollups| - 1].key.dimension == d then rollups[|rollups| - 1].cost else 0.0
  }

  function FillsIn(rollups: seq<Rollup>, d: Dimension): nat
  {
    if rollups == [] then 0
    else
      FillsIn(rollups[..|rollups| - 1], d)
      + if rollups[|rollups| - 1].key.dimension == d then rollups[|rollups| - 1].count else 0
  }

  lemma {:induction false} CountIsTotal(rows: seq<Observation>)
    ensures Total(rows, One) == |rows| as real
  {
    if rows != [] { CountIsTotal(rows[..|rows| - 1]); }
  }

  lemma {:induction false} RollupSums(rows: seq<Observation>, rollups: seq<Rollup>, d: Dimension)
    requires forall i :: 0 <= i < |rollups| ==> IsSummary(rows, rollups[i])
    ensures CostIn(rollups, d) == Spread(KeysOf(rollups), d, rows, Cost)
    ensures FillsIn(rollups, d) as real == Spread(KeysOf(rollups), d, rows, One)
  {
    hide Total;
    hide Group;
    hide Percentile;
    if rollups != [] {
      var front, r := rollups[..|rollups| - 1], rollups[|rollups| - 1];
      RollupSums(rows, front, d);
      assert KeysOf(rollups)[..|rollups| - 1] == KeysOf(front);
      assert IsSummary(rows, r);
      CountIsTotal(Group(rows, r.key));
    }
  }

  lemma {:induction false} RowIsGrouped(rows: seq<Observation>, o: Observation, d: Dimension)
    requires o in rows
    ensures Group(rows, KeyOf(o, d)) != []
  {
    var front, last := rows[..|rows| - 1], rows[|rows| - 1];
    assert rows == front + [last];
    if o != last { RowIsGrouped(front, o, d); }
  }

  /** In every dimension the fill counts add up to the fills and the costs to the total cost. */
  lemma RollupsConserve(rows: seq<Observation>, rollups: seq<Rollup>, d: Dimension)
    requires IsRollups(rows, rollups)
    ensures FillsIn(rollups, d) == |rows|
    ensures CostIn(rollups, d) == Total(rows, Cost)
  {
    var keys := KeysOf(rollups);
    forall o | o in rows ensures KeyOf(o, d) in keys { RowIsGrouped(rows, o, d); }
    GroupsPartition(keys, d, rows, Cost);
    GroupsPartition(keys, d, rows, One);
    RollupSums(rows, rollups, d);
    CountIsTotal(rows);
  }

  // ------------------------------------------------------------------- bounds

  /** `n` times an amount. */
  function Multiple(n: nat, x: real): real
  {
    n as real * x
  }

  lemma MultipleAdds(n: nat, x: real)
    ensures Multiple(n + 1, x) == Multiple(n, x) + x && Multiple(0, x) == 0.0
  {
  }

  lemma {:induction false} TotalIsBetween(rows: seq<Observation>, low: real, high: real)
    requires forall i :: 0 <= i < |rows| ==> low <= rows[i].bps <= high
    ensures Multiple(|rows|, low) <= Total(rows, Bps) <= Multiple(|rows|, high)
  {
    hide Multiple;
    MultipleAdds(if rows == [] then 0 else |rows| - 1, low);
    MultipleAdds(if rows == [] then 0 else |rows| - 1, high);
    if rows != [] { TotalIsBetween(rows[..|rows| - 1], low, high); }
  }

  lemma MeanIsBetween(total: real, n: nat, low: real, high: real)
    requires n > 0 && Multiple(n, low) <= total <= Multiple(n, high)
    ensures low <= Mean(total, n) <= high
  {
    var mean := Mean(total, n);
    assert mean * (n as real) == total;
    assert (mean - low) * (n as real) >= 0.0 && (high - mean) * (n as real) >= 0.0;
  }

  lemma {:induction false} SlippageAt(rows: seq<Observation>, i: nat)
    requires i < |rows|
    ensures |Slippages(rows)| == |rows| && Slippages(rows)[i] == rows[i].bps
  {
    SlippagesLength(rows);
    SlippagesLength(rows[..|rows| - 1]);
    if i < |rows| - 1 { SlippageAt(rows[..|rows| - 1], i); }
  }

  /** The least and the greatest slippage of the rows enclose the figures of their summary. */
  ghost predicate Encloses(low: real, high: real, rows: seq<Observation>, r: Rollup)
  {
    && Bounds(low, Slippages(rows), high)
    && low <= r.p50 <= r.p95 <= high
    && low <= r.avg <= high
  }

  /** In every rollup min <= p50 <= p95 <= max and min <= avg <= max. */
  lemma RollupsAreBounded(rows: seq<Observation>, k: Key)
    requires rows != []
    ensures exists low, high :: Encloses(low, high, rows, Summary(k, rows))
  {
    hide Percentile;
    hide Total;
    hide Bounds;
    SlippagesLength(rows);
    var values := Slippages(rows);
    ExtremePercentiles(values);
    var low, high := Percentile(values, 0.0).value, Percentile(values, 1.0).value;
    PercentilesGrow(values, 0.0, 0.5);
    PercentilesGrow(values, 0.5, 0.95);
    PercentilesGrow(values, 0.95, 1.0);
    AverageIsBetween(rows, low, high);
    assert Encloses(low, high, rows, Summary(k, rows));
  }

  lemma AverageIsBetween(rows: seq<Observation>, low: real, high: real)
    requires rows != [] && Bounds(low, Slippages(rows), high)
    ensures low <= Mean(Total(rows, Bps), |rows|) <= high
  {
    hide Total;
    hide Mean;
    hide Multiple;
    forall i | 0 <= i < |rows| ensures low <= rows[i].bps <= high { SlippageAt(rows, i); }
    TotalIsBetween(rows, low, high);
    MeanIsBetween(Total(rows, Bps), |rows|, low, high);
  }

  // ----------------------------------------------------------- order independence

  lemma {:induction false} GroupCounts(rows: seq<Observation>, k: Key)
    ensures forall o :: multiset(Group(rows, k))[o] == if Touches(o, k) then multiset(rows)[o] else 0
  {
    if rows != [] {
      assert rows == rows[..|rows| - 1] + [rows[|rows| - 1]];
      GroupCounts(rows[..|rows| - 1], k);
    }
  }

  lemma GroupIgnoresOrder(a: seq<Observation>, b: seq<Observation>, k: Key)
    requires multiset(a) == multiset(b)
    ensures multiset(Group(a, k)) == multiset(Group(b, k))
  {
    GroupCounts(a, k);
    GroupCounts(b, k);
  }

  function Without(rows: seq<Observation>, i: nat): seq<Observation>
    requires i < |rows|
  {
    rows[..i] + rows[i + 1..]
  }

  lemma WithoutCounts(rows: seq<Observation>, i: nat)
    requires i < |rows|
    ensures multiset(Without(rows, i)) == multiset(rows) - multiset{rows[i]}
  {
    assert rows == rows[..i] + [rows[i]] + rows[i + 1..];
  }

  /** Taking one row out takes its share out of every figure. */
  lemma {:induction false} PullOut(rows: seq<Observation>, i: nat, f: Observation -> real)
    requires i < |rows|
    ensures Total(rows, f) == Total(Without(rows, i), f) + f(rows[i])
    ensures multiset(Slippages(rows)) == multiset(Slippages(Without(rows, i))) + multiset{rows[i].bps}
    decreases |rows|
  {
    hide Total;
    hide Slippages;
    var n := |rows| - 1;
    var front, last := rows[..n], rows[n];
    assert rows == front + [last];
    TotalOfAppend(front, last, f);
    SlippagesOfAppend(front, last);
    if i == n {
      assert Without(rows, i) == front;
    } else {
      PullOut(front, i, f);
      var rest := Without(front, i);
      assert Without(rows, i) == rest + [last];
      TotalOfAppend(rest, last, f);
      SlippagesOfAppend(rest, last);
    }
  }

  lemma SlippagesOfAppend(rows: seq<Observation>, o: Observation)
    ensures Slippages(rows + [o]) == Slippages(rows) + [o.bps]
  {
    assert (rows + [o])[..|rows|] == rows;
  }

  lemma {:induction false} FiguresIgnoreOrder(a: seq<Observation>, b: seq<Observation>, f: Observation -> real)
    requires multiset(a) == multiset(b)
    ensures |a| == |b| && Total(a, f) == Total(b, f)
    ensures multiset(Slippages(a)) == multiset(Slippages(b))
    decreases |a|
  {
    hide Total;
    hide Slippages;
    assert |multiset(a)| == |a| && |multiset(b)| == |b|;
    if a != [] {
      var n := |a| - 1;
      assert a[n] in multiset(b);
      var i :| 0 <= i < |b| && b[i] == a[n];
      WithoutCounts(a, n);
      WithoutCounts(b, i);
      FiguresIgnoreOrder(Without(a, n), Without(b, i), f);
      PullOut(a, n, f);
      PullOut(b, i, f);
    } else {
      assert b == [];
    }
  }

  lemma SummaryIgnoresOrder(k: Key, a: seq<Observation>, b: seq<Observation>)
    requires a != [] && b != [] && multiset(a) == multiset(b)
    ensures Summary(k, a) == Summary(k, b)
  {
    hide Total;
    hide Percentile;
    FiguresIgnoreOrder(a, b, Bps);
    FiguresIgnoreOrder(a, b, Cost);
    SlippagesLength(a);
    SlippagesLength(b);
    PercentileIgnoresOrder(Slippages(a), Slippages(b), 0.5);
    PercentileIgnoresOrder(Slippages(a), Slippages(b), 0.95);
  }

  lemma PercentileIgnoresOrder(a: seq<real>, b: seq<real>, p: real)
    requires a != [] && b != [] && multiset(a) == multiset(b) && 0.0 <= p <= 1.0
    ensures Percentile(a, p) == Percentile(b, p)
  {
    hide *;
    SlippagesSort(a);
    SlippagesSort(b);
    LessIsStrict();
    TotalIsComparable(Sorted(a, Less), Less);
    SortedIsUnique(Sorted(a, Less), Sorted(b, Less), Less);
    PercentileInterpolates(a, p);
    PercentileInterpolates(b, p);
  }

  /** The rollups do not depend on the order in which the observations arrive. */
  lemma RollupsIgnoreOrder(a: seq<Observation>, b: seq<Observation>, ra: seq<Rollup>, rb: seq<Rollup>)
    requires multiset(a) == multiset(b) && IsRollups(a, ra) && IsRollups(b, rb)
    ensures ra == rb
  {
    hide Group;
    hide Summary;
    hide IsStrictOrder;
    hide KeyBefore;
    hide IsTotal;
    forall k ensures Group(a, k) != [] <==> Group(b, k) != [] {
      GroupIgnoresOrder(a, b, k);
      assert Group(a, k) != [] ==> Group(a, k)[0] in multiset(Group(a, k));
      assert Group(b, k) != [] ==> Group(b, k)[0] in multiset(Group(b, k));
    }
    KeyOrderIsStrict();
    TotalIsComparable(KeysOf(ra), KeyBefore);
    DistinctSortedIsUnique(KeysOf(ra), KeysOf(rb), KeyBefore);
    assert |ra| == |KeysOf(ra)| == |rb|;
    forall i | 0 <= i < |ra| ensures ra[i] == rb[i] {
      assert KeysOf(ra)[i] == ra[i].key && KeysOf(rb)[i] == rb[i].key;
      var k := ra[i].key;
      GroupIgnoresOrder(a, b, k);
      SummaryIgnoresOrder(k, Group(a, k), Group(b, k));
    }
  }

  // ----------------------------------------------------- the figures, written out

  ghost predicate IsAscending(s: seq<real>)
  {
    forall i, j :: 0 <= i < j < |s| ==> s[i] <= s[j]
  }

  /** Whether the observation counts for the dimension's value on the day. */
  ghost predicate InGroup(o: Observation, k: Key)
  {
    && o.date == k.date
    && (k.dimension == Strategy ==> o.strategy == k.value)
    && (k.dimension == Broker ==> o.broker == k.value)
    && (k.dimension == Symbol ==> o.symbol == k.value)
    && (k.dimension == Regime ==> o.regime == k.value)
    && (k.dimension == Session ==> o.source == k.value)
  }

  /** `members` are the rows of the key and `s` their slippages in ascending order. */
  ghost predicate AreMembers(members: seq<Observation>, s: seq<real>, rows: seq<Observation>, k: Key)
  {
    && (forall o :: multiset(members)[o] == if InGroup(o, k) then multiset(rows)[o] else 0)
    && IsAscending(s)
    && multiset(s) == multiset(BpsOf(members))
  }

  /** The sum of a list, from its first element on. */
  function Sum(xs: seq<real>): real
  {
    if xs == [] then 0.0 else xs[0] + Sum(xs[1..])
  }

  function BpsOf(rows: seq<Observation>): seq<real>
  {
    seq(|rows|, i requires 0 <= i < |rows| => rows[i].bps)
  }

  function CostsOf(rows: seq<Observation>): seq<real>
  {
    seq(|rows|, i requires 0 <= i < |rows| => rows[i].cost)
  }

  /** The middle of an ordered list, or the half sum of its two middle elements. */
  ghost predicate IsMedian(x: real, s: seq<real>)
  {
    && (|s| % 2 == 1 ==> x == s[|s| / 2])
    && (|s| > 0 && |s| % 2 == 0 ==> 2.0 * x == s[|s| / 2 - 1] + s[|s| / 2])
  }

  /** With `n` elements, 19 (n - 1) / 20 steps from the first: whole steps, then the rest in twentieths of the next. */
  ghost predicate IsNinetyFifth(x: real, s: seq<real>)
  {
    && (|s| == 1 ==> x == s[0])
    && (|s| > 1 ==>
          var k := 19 * (|s| - 1) / 20;
          20.0 * (x - s[k]) == (19 * (|s| - 1) % 20) as real * (s[k + 1] - s[k]))
  }

  /** A position `k` steps and a fraction from the first element, with another element behind. */
  lemma InterpolatedAt(s: seq<real>, x: real, k: nat, fraction: real)
    requires k + 1 < |s| && x == k as real + fraction && 0.0 <= fraction < 1.0
    ensures x.Floor == k && Interpolated(s, x) == s[k] + (s[k + 1] - s[k]) * fraction
  {
  }

  lemma InterpolatedWhole(s: seq<real>, k: nat)
    requires k < |s|
    ensures Interpolated(s, k as real) == s[k]
  {
  }

  lemma MedianOf(s: seq<real>)
    requires s != []
    ensures IsMedian(Interpolated(s, Position(|s|, 0.5)), s)
  {
    hide Interpolated;
    var n := |s|;
    var x := Position(n, 0.5);
    assert 2.0 * x == (n - 1) as real;
    if n % 2 == 1 {
      assert n - 1 == 2 * (n / 2);
      assert x == (n / 2) as real;
      InterpolatedWhole(s, n / 2);
    } else {
      assert n - 1 == 2 * (n / 2 - 1) + 1;
      assert x == (n / 2 - 1) as real + 0.5;
      InterpolatedAt(s, x, n / 2 - 1, 0.5);
    }
  }

  lemma Twentieths(x: real, rest: nat)
    ensures 20.0 * (x * (rest as real / 20.0)) == rest as real * x
  {
  }

  lemma NinetyFifthOf(s: seq<real>)
    requires s != []
    ensures IsNinetyFifth(Interpolated(s, Position(|s|, 0.95)), s)
  {
    hide Interpolated;
    var n := |s|;
    var x := Position(n, 0.95);
    assert 20.0 * x == (19 * (n - 1)) as real;
    if n == 1 {
      InterpolatedWhole(s, 0);
    } else {
      var k, rest := 19 * (n - 1) / 20, 19 * (n - 1) % 20;
      assert 19 * (n - 1) == 20 * k + rest;
      assert x == k as real + rest as real / 20.0;
      InterpolatedAt(s, x, k, rest as real / 20.0);
      Twentieths(s[k + 1] - s[k], rest);
    }
  }

  lemma {:induction false} SumOfAppend(xs: seq<real>, x: real)
    ensures Sum(xs + [x]) == Sum(xs) + x
  {
    if xs != [] {
      assert (xs + [x])[1..] == xs[1..] + [x];
      SumOfAppend(xs[1..], x);
    }
  }

  lemma {:induction false} TotalsAreSums(rows: seq<Observation>)
    ensures Total(rows, Bps) == Sum(BpsOf(rows)) && Total(rows, Cost) == Sum(CostsOf(rows))
  {
    if rows != [] {
      var front, o := rows[..|rows| - 1], rows[|rows| - 1];
      TotalsAreSums(front);
      assert BpsOf(rows) == BpsOf(front) + [o.bps] && CostsOf(rows) == CostsOf(front) + [o.cost];
      SumOfAppend(BpsOf(front), o.bps);
      SumOfAppend(CostsOf(front), o.cost);
    }
  }

  lemma {:induction false} SlippagesAre(rows: seq<Observation>)
    ensures Slippages(rows) == BpsOf(rows)
  {
    SlippagesLength(rows);
    forall i | 0 <= i < |rows| ensures Slippages(rows)[i] == rows[i].bps { SlippageAt(rows, i); }
  }

  lemma GroupExactly(rows: seq<Observation>, k: Key)
    ensures forall o :: multiset(Group(rows, k))[o] == if InGroup(o, k) then multiset(rows)[o] else 0
  {
    GroupCounts(rows, k);
    forall o ensures Touches(o, k) == InGroup(o, k) {
    }
  }

  /** The members of a key in any order, and any ascending list of their slippages, are those the summary is drawn from. */
  lemma MembersAreTheGroup(members: seq<Observation>, s: seq<real>, rows: seq<Observation>, k: Key)
    requires AreMembers(members, s, rows, k)
    ensures multiset(members) == multiset(Group(rows, k))
    ensures multiset(s) == multiset(Slippages(members)) && s == Sorted(Slippages(members), Less)
  {
    hide Sorted;
    hide Group;
    hide Slippages;
    GroupExactly(rows, k);
    SlippagesAre(members);
    LessIsStrict();
    SlippagesSort(Slippages(members));
    TotalIsComparable(s, Less);
    SortedIsUnique(s, Sorted(Slippages(members), Less), Less);
  }

  lemma SummaryIsOfMembers(k: Key, members: seq<Observation>, s: seq<real>)
    requires members != [] && multiset(s) == multiset(Slippages(members)) && s == Sorted(Slippages(members), Less)
    ensures Summary(k, members).count == |members| == |s|
    ensures Summary(k, members).avg == Sum(BpsOf(members)) / (|members| as real)
    ensures Summary(k, members).cost == Sum(CostsOf(members))
    ensures IsMedian(Summary(k, members).p50, s) && IsNinetyFifth(Summary(k, members).p95, s)
  {
    hide Percentile;
    hide Sorted;
    hide Total;
    hide Slippages;
    hide Position;
    hide Interpolated;
    hide IsMedian;
    hide IsNinetyFifth;
    hide Sum;
    SlippagesLength(members);
    TotalsAreSums(members);
    PercentileInterpolates(Slippages(members), 0.5);
    PercentileInterpolates(Slippages(members), 0.95);
    MedianOf(s);
    NinetyFifthOf(s);
  }

  /**
    Every rollup in figures: how many fills its key has, their mean slippage and total cost, and of their slippages
    in ascending order the median and the interpolated 95th percentile.
   */
  lemma FiguresExactly(rows: seq<Observation>, rollups: seq<Rollup>, r: Rollup, members: seq<Observation>, s: seq<real>)
    requires IsRollups(rows, rollups) && r in rollups && AreMembers(members, s, rows, r.key)
    ensures r.count == |members| == |s| > 0
    ensures r.avg == Sum(BpsOf(members)) / (|members| as real)
    ensures r.cost == Sum(CostsOf(members))
    ensures IsMedian(r.p50, s) && IsNinetyFifth(r.p95, s)
  {
    hide Summary;
    hide Group;
    hide Sorted;
    hide Slippages;
    hide IsMedian;
    hide IsNinetyFifth;
    hide AreMembers;
    hide KeysOf;
    var i :| 0 <= i < |rollups| && rollups[i] == r;
    assert IsSummary(rows, r);
    MembersAreTheGroup(members, s, rows, r.key);
    assert |multiset(members)| == |members| && |multiset(Group(rows, r.key))| == |Group(rows, r.key)|;
    SummaryIgnoresOrder(r.key, members, Group(rows, r.key));
    SummaryIsOfMembers(r.key, members, s);
  }

  /** The names of the dimensions in alphabetical order. */
  function Rank(d: Dimension): nat
  {
    match d
    case Broker => 0
    case Regime => 1
    case Session => 2
    case Strategy => 3
    case Symbol => 4
  }

  ghost predicate StandsAhead(a: Key, b: Key)
  {
    && Rank(a.dimension) <= Rank(b.dimension)
    && (a.dimension == b.dimension ==> a.value == b.value || FirstDifference(a.value, b.value))
    && (a.dimension == b.dimension && a.value == b.value ==> a.date < b.date)
  }

  lemma NamesByRank(a: Dimension, b: Dimension)
    ensures Below(NameOf(a), NameOf(b)) <==> Rank(a) < Rank(b)
  {
    assert "strategy"[1] == 't' && "symbol"[1] == 'y' && "session"[1] == 'e';
    assert "broker"[0] == 'b' && "regime"[0] == 'r';
    assert "strategy"[0] == 's' && "symbol"[0] == 's' && "session"[0] == 's';
    BelowIsIrreflexive(NameOf(a));
  }

  lemma RowsOfKey(rows: seq<Observation>, k: Key)
    ensures Group(rows, k) != [] <==> exists o :: o in rows && InGroup(o, k)
  {
    GroupExactly(rows, k);
    var group := Group(rows, k);
    if group != [] {
      assert group[0] in multiset(group);
      assert group[0] in multiset(rows) && group[0] in rows;
    }
    forall o | o in rows && InGroup(o, k) ensures group != [] {
      assert o in multiset(rows);
      assert o in multiset(group);
    }
  }

  lemma KeyOrderExactly(a: Key, b: Key)
    requires a != b && !KeyBefore(b, a)
    ensures StandsAhead(a, b)
  {
    hide NameOf;
    NamesByRank(a.dimension, b.dimension);
    NamesByRank(b.dimension, a.dimension);
    NamesDiffer(a.dimension, b.dimension);
    BelowIsTotal(a.value, b.value);
    BelowIsTotal(NameOf(a.dimension), NameOf(b.dimension));
    BelowExactly(a.value, b.value);
  }

  /** There is one rollup for each dimension, value and day that some observation has, in alphabetical order. */
  lemma RollupsExactly(rows: seq<Observation>, rollups: seq<Rollup>)
    requires IsRollups(rows, rollups)
    ensures forall k :: k in KeysOf(rollups) <==> exists o :: o in rows && InGroup(o, k)
    ensures forall i, j :: 0 <= i < j < |rollups| ==> StandsAhead(rollups[i].key, rollups[j].key)
  {
    hide Group;
    hide InGroup;
    hide KeyBefore;
    hide StandsAhead;
    forall k ensures k in KeysOf(rollups) <==> exists o :: o in rows && InGroup(o, k) { RowsOfKey(rows, k); }
    forall i, j | 0 <= i < j < |rollups| ensures StandsAhead(rollups[i].key, rollups[j].key) {
      assert KeysOf(rollups)[i] == rollups[i].key && KeysOf(rollups)[j] == rollups[j].key;
      KeyOrderExactly(rollups[i].key, rollups[j].key);
    }
  }

  /** Two fills of one strategy on one day at 1 and 2 bps: 1.5 in the middle and 1.95 at the 95th percentile. */
  lemma FiguresInput(a: Observation, b: Observation, rollups: seq<Rollup>, r: Rollup)
    requires a.bps == 2.0 && b.bps == 1.0 && a.cost == 30.0 && b.cost == 10.0
    requires a.strategy == b.strategy && a.date == b.date
    requires IsRollups([a, b], rollups) && r in rollups
    requires r.key == Key(Strategy, a.strategy, a.date)
    ensures r == Rollup(r.key, 1.5, 1.5, 1.95, 40.0, 2)
  {
    hide IsRollups;
    hide IsMedian;
    hide IsNinetyFifth;
    hide AreMembers;
    hide Sum;
    var members, s := [a, b], [1.0, 2.0];
    assert BpsOf(members) == [2.0, 1.0] && CostsOf(members) == [30.0, 10.0];
    BothAreMembers(a, b, r.key);
    FiguresExactly(members, rollups, r, members, s);
    MiddleOfTwo(r.p50, r.p95, 1.0, 2.0);
    SumOfTwo(2.0, 1.0);
    SumOfTwo(30.0, 10.0);
  }

  lemma AllAreMembers(rows: seq<Observation>, s: seq<real>, k: Key)
    requires forall o :: o in rows ==> InGroup(o, k)
    requires IsAscending(s) && multiset(s) == multiset(BpsOf(rows))
    ensures AreMembers(rows, s, rows, k)
  {
    hide InGroup;
    forall o ensures multiset(rows)[o] == if InGroup(o, k) then multiset(rows)[o] else 0 {
      assert o in multiset(rows) <==> o in rows;
    }
  }

  lemma BothAreMembers(a: Observation, b: Observation, k: Key)
    requires a.bps == 2.0 && b.bps == 1.0 && InGroup(a, k) && InGroup(b, k)
    ensures AreMembers([a, b], [1.0, 2.0], [a, b], k)
  {
    hide InGroup;
    hide AreMembers;
    assert BpsOf([a, b]) == [2.0, 1.0];
    TwoCount(1.0, 2.0);
    AllAreMembers([a, b], [1.0, 2.0], k);
  }

  lemma TwoCount(x: real, y: real)
    ensures multiset([x, y]) == multiset([y, x])
  {
    assert [x, y] == [x] + [y] && [y, x] == [y] + [x];
  }

  lemma MiddleOfTwo(median: real, high: real, x: real, y: real)
    requires IsMedian(median, [x, y]) && IsNinetyFifth(high, [x, y])
    ensures 2.0 * median == x + y && 20.0 * (high - x) == 19.0 * (y - x)
  {
    var s := [x, y];
    assert 2.0 * median == s[0] + s[1];
    assert 20.0 * (high - s[0]) == 19.0 * (s[1] - s[0]);
  }

  lemma SumOfTwo(x: real, y: real)
    ensures Sum([x, y]) == x + y
  {
    assert Sum([x, y]) == x + Sum([y]);
    assert Sum([y]) == y + Sum([]);
  }

  // --------------------------------------------------------------------- alerts

  datatype Alert =
    | Breach(observation: Observation, threshold: real)
    | Cluster(strategy: string, count: nat, limit: int, fillIds: seq<string>)

  /** Symbol and regime first, then the regime, then the built-in threshold. */
  function ThresholdFor(symbol: string, regime: string, policy: map<string, real>): real
  {
    if symbol + ":" + regime in policy then policy[symbol + ":" + regime]
    else if regime in policy then policy[regime]
    else if Lower(regime) == "high_vol" then 10.0
    else 5.0
  }

  predicate Breaches(o: Observation, policy: map<string, real>)
  {
    o.bps > ThresholdFor(o.symbol, o.regime, policy)
  }

  function BreachAlerts(rows: seq<Observation>, policy: map<string, real>): seq<Alert>
  {
    if rows == [] then []
    else
      var o := rows[|rows| - 1];
      BreachAlerts(rows[..|rows| - 1], policy)
      + if Breaches(o, policy) then [Breach(o, ThresholdFor(o.symbol, o.regime, policy))] else []
  }

  /** The fills of one strategy that breached, in the order given. */
  function BreachingFills(rows: seq<Observation>, policy: map<string, real>, strategy: string): seq<string>
  {
    if rows == [] then []
    else
      var o := rows[|rows| - 1];
      BreachingFills(rows[..|rows| - 1], policy, strategy)
      + if Breaches(o, policy) && o.strategy == strategy then [o.fillId] else []
  }

  function StrategiesOf(clusters: seq<Alert>): seq<string>
    requires forall i :: 0 <= i < |clusters| ==> clusters[i].Cluster?
  {
    seq(|clusters|, i requires 0 <= i < |clusters| => clusters[i].strategy)
  }

  /** One page, in order of strategy, for each strategy with more breaches than the limit. */
  ghost predicate IsClusters(rows: seq<Observation>, policy: map<string, real>, limit: int, clusters: seq<Alert>)
  {
    && (forall i :: 0 <= i < |clusters| ==> clusters[i].Cluster?)
    && IsSorted(StrategiesOf(clusters), Below) && Distinct(StrategiesOf(clusters))
    && (forall s :: s in StrategiesOf(clusters) <==>
                    BreachingFills(rows, policy, s) != [] && |BreachingFills(rows, policy, s)| > limit)
    && forall i :: 0 <= i < |clusters| ==> IsPage(rows, policy, limit, clusters[i])
  }

  ghost predicate IsPage(rows: seq<Observation>, policy: map<string, real>, limit: int, page: Alert)
    requires page.Cluster?
  {
    var fills := BreachingFills(rows, policy, page.strategy);
    page == Cluster(page.strategy, |fills|, limit, fills)
  }

  ghost predicate FillsHold(byStrategy: map<string, seq<string>>, names: seq<string>, rows: seq<Observation>, policy: map<string, real>)
  {
    && Distinct(names) && (forall s :: s in names <==> s in byStrategy)
    && forall s :: (s in byStrategy <==> BreachingFills(rows, policy, s) != [])
                   && (s in byStrategy ==> byStrategy[s] == BreachingFills(rows, policy, s))
  }

  lemma BreachesOfAppend(rows: seq<Observation>, o: Observation, policy: map<string, real>, s: string)
    ensures BreachingFills(rows + [o], policy, s)
            == BreachingFills(rows, policy, s) + if Breaches(o, policy) && o.strategy == s then [o.fillId] else []
    ensures BreachAlerts(rows + [o], policy)
            == BreachAlerts(rows, policy)
               + if Breaches(o, policy) then [Breach(o, ThresholdFor(o.symbol, o.regime, policy))] else []
  {
    assert (rows + [o])[..|rows|] == rows;
  }

  /** Breaches row by row, then the breaching fills gathered by strategy, then one page a strategy over the limit. */
  method DetectAlerts(rows: seq<Observation>, policy: map<string, real>, limit: int)
    returns (breaches: seq<Alert>, clusters: seq<Alert>)
    ensures breaches == BreachAlerts(rows, policy)
    ensures IsClusters(rows, policy, limit, clusters)
  {
    hide BreachAlerts;
    hide FillsHold;
    hide IsClusters;
    NothingBreached(policy);
    breaches := [];
    var byStrategy: map<string, seq<string>> := map[];
    var names: seq<string> := [];
    assert rows[..0] == [];
    for n := 0 to |rows|
      invariant breaches == BreachAlerts(rows[..n], policy)
      invariant FillsHold(byStrategy, names, rows[..n], policy)
    {
      breaches, byStrategy, names := AddBreach(breaches, byStrategy, names, rows[..n], rows[n], policy);
      assert rows[..n + 1] == rows[..n] + [rows[n]];
    }
    assert rows[..|rows|] == rows;
    clusters := Pages(rows, policy, limit, byStrategy, names);
  }

  lemma NothingBreached(policy: map<string, real>)
    ensures BreachAlerts([], policy) == [] && FillsHold(map[], [], [], policy)
  {
  }

  method AddBreach(was: seq<Alert>, before: map<string, seq<string>>, known: seq<string>, ghost done: seq<Observation>,
                   o: Observation, policy: map<string, real>)
    returns (breaches: seq<Alert>, byStrategy: map<string, seq<string>>, names: seq<string>)
    requires was == BreachAlerts(done, policy) && FillsHold(before, known, done, policy)
    ensures breaches == BreachAlerts(done + [o], policy) && FillsHold(byStrategy, names, done + [o], policy)
  {
    hide Breaches;
    hide ThresholdFor;
    hide BreachingFills;
    hide BreachAlerts;
    breaches, byStrategy, names := was, before, known;
    forall s
      ensures BreachingFills(done + [o], policy, s)
              == BreachingFills(done, policy, s) + if Breaches(o, policy) && o.strategy == s then [o.fillId] else []
    {
      BreachesOfAppend(done, o, policy, s);
    }
    BreachesOfAppend(done, o, policy, o.strategy);
    if Breaches(o, policy) {
      breaches := breaches + [Breach(o, ThresholdFor(o.symbol, o.regime, policy))];
      if o.strategy !in byStrategy {
        byStrategy := byStrategy[o.strategy := []];
        names := names + [o.strategy];
      }
      byStrategy := byStrategy[o.strategy := byStrategy[o.strategy] + [o.fillId]];
    }
  }

  /** What the policy says of symbol and regime, else of the regime, else 10 for "high_vol" in any case and 5. */
  ghost predicate IsThreshold(t: real, o: Observation, policy: map<string, real>)
  {
    var exact := o.symbol + ":" + o.regime;
    && (exact in policy ==> t == policy[exact])
    && (exact !in policy && o.regime in policy ==> t == policy[o.regime])
    && (exact !in policy && o.regime !in policy ==>
          && (Spells(o.regime, "high_vol") ==> t == 10.0)
          && (!Spells(o.regime, "high_vol") ==> t == 5.0))
  }

  /** A further fill raises an alert exactly when its slippage exceeds its threshold, and counts for its strategy alone. */
  lemma AlertsExactly(rows: seq<Observation>, o: Observation, t: real, policy: map<string, real>, s: string)
    requires IsThreshold(t, o, policy)
    ensures BreachAlerts([], policy) == [] && BreachingFills([], policy, s) == []
    ensures o.bps > t ==> BreachAlerts(rows + [o], policy) == BreachAlerts(rows, policy) + [Breach(o, t)]
    ensures o.bps <= t ==> BreachAlerts(rows + [o], policy) == BreachAlerts(rows, policy)
    ensures o.bps > t && s == o.strategy ==> BreachingFills(rows + [o], policy, s) == BreachingFills(rows, policy, s) + [o.fillId]
    ensures o.bps <= t || s != o.strategy ==> BreachingFills(rows + [o], policy, s) == BreachingFills(rows, policy, s)
  {
    LowerExactly(o.regime, "high_vol");
    BreachesOfAppend(rows, o, policy, s);
  }

  /** The fills of the breach alerts of one strategy. */
  function FillsOf(alerts: seq<Alert>, strategy: string): seq<string>
  {
    if alerts == [] then []
    else
      var a := alerts[|alerts| - 1];
      FillsOf(alerts[..|alerts| - 1], strategy)
      + if a.Breach? && a.observation.strategy == strategy then [a.observation.fillId] else []
  }

  /** What a page counts are exactly the breach alerts of its strategy. */
  lemma {:induction false} PagesCountBreaches(rows: seq<Observation>, policy: map<string, real>, strategy: string)
    ensures FillsOf(BreachAlerts(rows, policy), strategy) == BreachingFills(rows, policy, strategy)
    decreases |rows|
  {
    hide Breaches;
    hide ThresholdFor;
    if rows != [] {
      var front, o := rows[..|rows| - 1], rows[|rows| - 1];
      PagesCountBreaches(front, policy, strategy);
      var alerts := BreachAlerts(front, policy);
      assert alerts + [] == alerts;
      assert BreachingFills(front, policy, strategy) + [] == BreachingFills(front, policy, strategy);
      if Breaches(o, policy) {
        var alert := Breach(o, ThresholdFor(o.symbol, o.regime, policy));
        assert (alerts + [alert])[..|alerts|] == alerts;
      }
    }
  }

  /** Of the names given, those with more breaches than the limit. */
  function Loud(names: seq<string>, rows: seq<Observation>, policy: map<string, real>, limit: int): seq<string>
  {
    if names == [] then []
    else
      var s := names[|names| - 1];
      Loud(names[..|names| - 1], rows, policy, limit) + if |BreachingFills(rows, policy, s)| > limit then [s] else []
  }

  lemma LoudOfAppend(names: seq<string>, s: string, rows: seq<Observation>, policy: map<string, real>, limit: int)
    ensures Loud(names + [s], rows, policy, limit)
            == Loud(names, rows, policy, limit) + if |BreachingFills(rows, policy, s)| > limit then [s] else []
  {
    assert (names + [s])[..|names|] == names;
  }

  lemma {:induction false} LoudKeepsOrder(names: seq<string>, rows: seq<Observation>, policy: map<string, real>, limit: int)
    requires IsSorted(names, Below) && Distinct(names)
    ensures var loud := Loud(names, rows, policy, limit);
      && IsSorted(loud, Below) && Distinct(loud)
      && forall s :: s in loud <==> s in names && |BreachingFills(rows, policy, s)| > limit
    decreases |names|
  {
    hide BreachingFills;
    hide Below;
    if names != [] {
      var front, s := names[..|names| - 1], names[|names| - 1];
      assert names == front + [s];
      FrontStandsBefore(front, s);
      LoudKeepsOrder(front, rows, policy, limit);
      OrderOfAppend(Loud(front, rows, policy, limit), s);
    }
  }

  lemma FrontStandsBefore(front: seq<string>, s: string)
    requires IsSorted(front + [s], Below) && Distinct(front + [s])
    ensures IsSorted(front, Below) && Distinct(front)
    ensures forall x :: x in front ==> !Below(s, x) && x != s
  {
    hide Below;
    var all := front + [s];
    assert all[|front|] == s;
    forall i, j | 0 <= i < j < |front| ensures front[i] != front[j] && !Below(front[j], front[i]) {
      assert all[i] == front[i] && all[j] == front[j];
    }
    forall x | x in front ensures !Below(s, x) && x != s {
      var i :| 0 <= i < |front| && front[i] == x;
      assert all[i] == x;
    }
  }

  lemma OrderOfAppend(loud: seq<string>, s: string)
    requires IsSorted(loud, Below) && Distinct(loud) && forall x :: x in loud ==> !Below(s, x) && x != s
    ensures IsSorted(loud + [s], Below) && Distinct(loud + [s])
  {
    hide Below;
  }

  method Pages(ghost rows: seq<Observation>, ghost policy: map<string, real>, limit: int,
               byStrategy: map<string, seq<string>>, names: seq<string>)
    returns (clusters: seq<Alert>)
    requires FillsHold(byStrategy, names, rows, policy)
    ensures IsClusters(rows, policy, limit, clusters)
  {
    hide BreachingFills;
    hide IsStrictOrder;
    hide Sorted;
    hide Loud;
    hide Below;
    hide IsTotal;
    BelowIsAnOrder();
    SortedSorts(names, Below);
    SortedKeepsDistinct(names, Below);
    var ordered := Sorted(names, Below);
    clusters := [];
    EmptyLoud(rows, policy, limit);
    assert ordered[..0] == [];
    for n := 0 to |ordered|
      invariant forall i :: 0 <= i < |clusters| ==> clusters[i].Cluster? && IsPage(rows, policy, limit, clusters[i])
      invariant StrategiesOf(clusters) == Loud(ordered[..n], rows, policy, limit)
    {
      var s := ordered[n];
      assert s in names;
      assert ordered[..n + 1] == ordered[..n] + [s];
      LoudOfAppend(ordered[..n], s, rows, policy, limit);
      if |byStrategy[s]| > limit {
        var page := Cluster(s, |byStrategy[s]|, limit, byStrategy[s]);
        StrategiesOfAppend(clusters, page);
        clusters := clusters + [page];
      }
    }
    assert ordered[..|ordered|] == ordered;
    LoudKeepsOrder(ordered, rows, policy, limit);
  }

  lemma EmptyLoud(rows: seq<Observation>, policy: map<string, real>, limit: int)
    ensures StrategiesOf([]) == Loud([], rows, policy, limit)
  {
  }

  lemma StrategiesOfAppend(clusters: seq<Alert>, page: Alert)
    requires page.Cluster? && forall i :: 0 <= i < |clusters| ==> clusters[i].Cluster?
    ensures StrategiesOf(clusters + [page]) == StrategiesOf(clusters) + [page.strategy]
  {
  }
}
