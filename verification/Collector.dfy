/**
 Tick aggregation and bar resampling (data/collector.py). Times are microseconds
 since the epoch, prices and volumes are exact.
 */
module Collector {

  datatype Tick = Tick(ts: int, symbol: string, last: real, volume: real, source: string)

  datatype Bar = Bar(
    ts: int,
    symbol: string,
    open: real,
    high: real,
    low: real,
    close: real,
    volume: real,
    source: string)

  const SECOND := 1_000_000

  /** `int(ts.timestamp())`: whole seconds, truncated toward zero. */
  function WholeSeconds(ts: int): int
  {
    if ts >= 0 then ts / SECOND else -((-ts) / SECOND)
  }

  function FloorTo(seconds: int, frame: int): int
    requires frame > 0
  {
    (seconds / frame) * frame
  }

  /** The start of the bucket that holds `ts`. */
  function FloorTs(ts: int, frame: int): int
    requires frame > 0
  {
    FloorTo(WholeSeconds(ts), frame) * SECOND
  }

  function Max(x: real, y: real): real
  {
    if x >= y then x else y
  }

  function Min(x: real, y: real): real
  {
    if x <= y then x else y
  }

  // -------------------------------------------------------------- bucketing

  /** A bar, or a tick seen as a bar, moved to the start of its bucket. */
  function Seed(b: Bar, frame: int): Bar
    requires frame > 0
  {
    b.(ts := FloorTs(b.ts, frame))
  }

  function Merge(agg: Bar, b: Bar): Bar
  {
    agg.(high := Max(agg.high, b.high), low := Min(agg.low, b.low), close := b.close, volume := agg.volume + b.volume)
  }

  function AsBar(t: Tick): Bar
  {
    Bar(t.ts, t.symbol, t.last, t.last, t.last, t.last, t.volume, t.source)
  }

  function AsBars(ticks: seq<Tick>): (r: seq<Bar>)
    ensures |r| == |ticks| && forall i :: 0 <= i < |ticks| ==> r[i] == AsBar(ticks[i])
  {
    seq(|ticks|, i requires 0 <= i < |ticks| => AsBar(ticks[i]))
  }

  /** One more bar: it joins the last bucket or opens a new one. */
  function Absorb(out: seq<Bar>, b: Bar, frame: int): (r: seq<Bar>)
    requires frame > 0
    ensures |r| > 0
  {
    var n := |out|;
    if n > 0 && out[n - 1].ts == FloorTs(b.ts, frame) then out[..n - 1] + [Merge(out[n - 1], b)]
    else out + [Seed(b, frame)]
  }

  /** The buckets of a time-ordered series, the unfinished last one included. */
  function Buckets(bars: seq<Bar>, frame: int): (r: seq<Bar>)
    requires frame > 0
    ensures bars != [] ==> r != []
  {
    if bars == [] then [] else Absorb(Buckets(bars[..|bars| - 1], frame), bars[|bars| - 1], frame)
  }

  ghost predicate Ordered(bars: seq<Bar>)
  {
    forall i, j :: 0 <= i < j < |bars| ==> bars[i].ts <= bars[j].ts
  }

  ghost predicate StrictlyOrdered(bars: seq<Bar>)
  {
    forall i, j :: 0 <= i < j < |bars| ==> bars[i].ts < bars[j].ts
  }

  function Total(bars: seq<Bar>): real
  {
    if bars == [] then 0.0 else Total(bars[..|bars| - 1]) + bars[|bars| - 1].volume
  }

  lemma FloorIsMonotone(a: int, b: int, frame: int)
    requires frame > 0 && a <= b
    ensures a / frame <= b / frame
  {
    if a / frame > b / frame {
      DivisionBounds(a, frame);
      DivisionBounds(b, frame);
      ProductGrows(b / frame + 1, a / frame, frame);
      assert false;
    }
  }

  lemma DivisionBounds(a: int, frame: int)
    requires frame > 0
    ensures (a / frame) * frame <= a < (a / frame + 1) * frame
  {
    assert (a / frame + 1) * frame == (a / frame) * frame + frame;
  }

  lemma ProductGrows(x: int, y: int, k: int)
    requires x <= y && k >= 0
    ensures x * k <= y * k
  {
    assert (y - x) * k >= 0;
    assert (y - x) * k == y * k - x * k;
  }

  lemma FloorTsIsMonotone(a: int, b: int, frame: int)
    requires frame > 0 && a <= b
    ensures FloorTs(a, frame) <= FloorTs(b, frame)
  {
    assert WholeSeconds(a) <= WholeSeconds(b);
    FloorIsMonotone(WholeSeconds(a), WholeSeconds(b), frame);
    ProductGrows(WholeSeconds(a) / frame, WholeSeconds(b) / frame, frame);
  }

  /** Flooring in two steps is flooring once when the first frame divides the second. */
  lemma FloorComposes(ts: int, t1: int, t2: int)
    requires t1 > 0 && t2 > 0 && t2 % t1 == 0
    ensures FloorTs(FloorTs(ts, t1), t2) == FloorTs(ts, t2)
  {
    var s := WholeSeconds(ts);
    var q, k := s / t1, t2 / t1;
    assert t2 == t1 * k;
    WholeOfWhole(q * t1);
    DivideTwice(s, t1, k);
    DivideTwice(q * t1, t1, k);
    MultipleDivides(q, t1);
  }

  lemma WholeOfWhole(seconds: int)
    ensures WholeSeconds(seconds * SECOND) == seconds
  {
  }

  lemma MultipleDivides(q: int, t: int)
    requires t > 0
    ensures (q * t) / t == q
  {
    assert (q + 1) * t == q * t + t;
    QuotientIs(q * t, t, q);
  }

  lemma DivideTwice(s: int, a: int, k: int)
    requires a > 0 && k > 0 && a * k > 0
    ensures s / (a * k) == (s / a) / k
  {
    var q := s / a;
    var r := q / k;
    DivisionBounds(s, a);
    DivisionBounds(q, k);
    ProductGrows(r * k, q, a);
    assert (r * k) * a == r * (a * k);
    ProductGrows(q + 1, (r + 1) * k, a);
    assert ((r + 1) * k) * a == (r + 1) * (a * k);
    QuotientIs(s, a * k, r);
  }

  lemma QuotientIs(s: int, m: int, r: int)
    requires m > 0 && r * m <= s < (r + 1) * m
    ensures s / m == r
  {
    DivisionBounds(s, m);
    var d := s / m;
    if d < r { ProductGrows(d + 1, r, m); }
    if d > r { ProductGrows(r + 1, d, m); }
  }

  // ------------------------------------------------------ bucket starts, written out

  /** `s` is the time in whole seconds, cut off toward zero. */
  ghost predicate IsWhole(s: int, ts: int)
  {
    && (ts >= 0 ==> s * 1_000_000 <= ts < (s + 1) * 1_000_000)
    && (ts < 0 ==> (s - 1) * 1_000_000 < ts <= s * 1_000_000)
  }

  ghost predicate IsMultipleBelow(q: int, s: int, frame: int)
  {
    q * frame <= s < (q + 1) * frame
  }

  ghost predicate StartsAt(start: int, ts: int, frame: int, s: int, q: int)
  {
    IsWhole(s, ts) && IsMultipleBelow(q, s, frame) && start == q * frame * 1_000_000
  }

  /** `start` is the last multiple of the frame that is not after the whole second of `ts`. */
  ghost predicate IsStart(start: int, ts: int, frame: int)
  {
    exists s, q :: StartsAt(start, ts, frame, s, q)
  }

  lemma FloorExactly(start: int, ts: int, frame: int)
    requires frame > 0
    ensures IsStart(start, ts, frame) <==> start == FloorTs(ts, frame)
  {
    var s := WholeSeconds(ts);
    DivisionBounds(s, frame);
    assert IsWhole(s, ts) && IsMultipleBelow(s / frame, s, frame);
    assert StartsAt(FloorTs(ts, frame), ts, frame, s, s / frame);
    if IsStart(start, ts, frame) {
      var s', q :| StartsAt(start, ts, frame, s', q);
      WholeIsUnique(s, s', ts);
      QuotientIs(s, frame, q);
    }
  }

  lemma WholeIsUnique(a: int, b: int, ts: int)
    requires IsWhole(a, ts) && IsWhole(b, ts)
    ensures a == b
  {
  }

  // -------------------------------------------------- what a bucket contains

  /** `r` is the summary of `bars[lo..hi]`, and these are all the bars of its bucket. */
  ghost predicate Summarises(r: Bar, bars: seq<Bar>, lo: nat, hi: nat, frame: int)
    requires frame > 0
  {
    && lo < hi <= |bars|
    && (forall k :: 0 <= k < |bars| ==> (FloorTs(bars[k].ts, frame) == r.ts <==> lo <= k < hi))
    && r.open == bars[lo].open && r.close == bars[hi - 1].close
    && (forall k :: lo <= k < hi ==> bars[k].high <= r.high && r.low <= bars[k].low)
    && (exists k :: lo <= k < hi && bars[k].high == r.high)
    && (exists k :: lo <= k < hi && bars[k].low == r.low)
    && r.volume == Total(bars[lo..hi])
    && r.symbol == bars[lo].symbol && r.source == bars[lo].source
  }

  ghost predicate IsBucket(r: Bar, bars: seq<Bar>, frame: int)
    requires frame > 0
  {
    exists lo, hi :: Summarises(r, bars, lo, hi, frame)
  }

  ghost predicate LastBucket(out: seq<Bar>, bars: seq<Bar>, lo: nat, frame: int)
    requires frame > 0
  {
    out != [] && Summarises(out[|out| - 1], bars, lo, |bars|, frame)
  }

  lemma AbsorbShape(out: seq<Bar>, b: Bar, frame: int)
    requires frame > 0
    ensures var now := Absorb(out, b, frame);
      && now[|now| - 1].ts == FloorTs(b.ts, frame)
      && (forall i :: 0 <= i < |now| - 1 ==> i < |out| && now[i] == out[i])
      && (if |out| > 0 && out[|out| - 1].ts == FloorTs(b.ts, frame)
          then |now| == |out| && now[|now| - 1] == Merge(out[|out| - 1], b)
          else |now| == |out| + 1 && now[|now| - 1] == Seed(b, frame))
  {
    hide FloorTs;
  }

  lemma AbsorbKeepsOrder(out: seq<Bar>, b: Bar, frame: int)
    requires frame > 0 && StrictlyOrdered(out)
    requires out != [] ==> out[|out| - 1].ts <= FloorTs(b.ts, frame)
    ensures StrictlyOrdered(Absorb(out, b, frame))
    ensures Absorb(out, b, frame)[|Absorb(out, b, frame)| - 1].ts == FloorTs(b.ts, frame)
  {
    hide FloorTs;
    AbsorbShape(out, b, frame);
    var now := Absorb(out, b, frame);
    hide Absorb;
    forall i, j | 0 <= i < j < |now| ensures now[i].ts < now[j].ts {
      assert now[i] == out[i];
      if j < |now| - 1 { assert now[j] == out[j]; }
    }
  }

  lemma {:induction false} BucketsAreOrdered(bars: seq<Bar>, frame: int)
    requires frame > 0 && Ordered(bars)
    ensures StrictlyOrdered(Buckets(bars, frame))
    ensures bars != [] ==>
              Buckets(bars, frame)[|Buckets(bars, frame)| - 1].ts == FloorTs(bars[|bars| - 1].ts, frame)
  {
    if bars != [] {
      var n := |bars| - 1;
      BucketsAreOrdered(bars[..n], frame);
      if n > 0 { FloorTsIsMonotone(bars[n - 1].ts, bars[n].ts, frame); }
      hide FloorTs;
      hide Absorb;
      AbsorbKeepsOrder(Buckets(bars[..n], frame), bars[n], frame);
    }
  }

  lemma TotalExtends(bars: seq<Bar>, lo: nat, hi: nat)
    requires lo <= hi < |bars|
    ensures Total(bars[lo..hi + 1]) == Total(bars[lo..hi]) + bars[hi].volume
  {
    assert bars[lo..hi + 1][..hi - lo] == bars[lo..hi];
  }

  /** Adding a bar of another bucket, or of the same bucket, to a summarised group. */
  lemma SummaryGrows(r: Bar, bars: seq<Bar>, lo: nat, hi: nat, frame: int, b: Bar)
    requires frame > 0 && Summarises(r, bars, lo, hi, frame)
    ensures FloorTs(b.ts, frame) != r.ts ==> Summarises(r, bars + [b], lo, hi, frame)
    ensures FloorTs(b.ts, frame) == r.ts && hi == |bars| ==> Summarises(Merge(r, b), bars + [b], lo, hi + 1, frame)
  {
    hide FloorTs;
    var all := bars + [b];
    assert all[lo..hi] == bars[lo..hi];
    var u :| lo <= u < hi && bars[u].high == r.high;
    var v :| lo <= v < hi && bars[v].low == r.low;
    assert all[u].high == r.high && all[v].low == r.low;
    if hi == |bars| {
      TotalExtends(all, lo, hi);
      assert all[hi] == b;
    }
  }

  /** What `SummaryGrows` gives for a bucket that the new bar does not join. */
  lemma OldBucketStays(rest: seq<Bar>, b: Bar, frame: int, r: Bar)
    requires frame > 0 && r.ts != FloorTs(b.ts, frame)
    requires IsBucket(r, rest, frame)
    ensures IsBucket(r, rest + [b], frame)
  {
    hide FloorTs;
    hide Summarises;
    var lo, hi :| Summarises(r, rest, lo, hi, frame);
    SummaryGrows(r, rest, lo, hi, frame, b);
  }

  /** The bucket of bar `k` is in the list. */
  ghost predicate HasBucket(out: seq<Bar>, bars: seq<Bar>, k: nat, frame: int)
    requires frame > 0 && k < |bars|
  {
    exists i :: 0 <= i < |out| && out[i].ts == FloorTs(bars[k].ts, frame)
  }

  /** The list is the group-by: in order of time, every bucket a summary of its bars, and the bucket of every bar there. */
  ghost predicate Grouped(out: seq<Bar>, bars: seq<Bar>, frame: int)
    requires frame > 0
  {
    && StrictlyOrdered(out)
    && (forall i :: 0 <= i < |out| ==> IsBucket(out[i], bars, frame))
    && (forall k :: 0 <= k < |bars| ==> HasBucket(out, bars, k, frame))
  }

  ghost predicate EndsInNewest(out: seq<Bar>, bars: seq<Bar>, frame: int)
    requires frame > 0
  {
    bars != [] ==> exists lo :: LastBucket(out, bars, lo, frame)
  }

  lemma AbsorbKeepsGroups(rest: seq<Bar>, b: Bar, frame: int)
    requires frame > 0 && Ordered(rest + [b])
    requires Grouped(Buckets(rest, frame), rest, frame) && EndsInNewest(Buckets(rest, frame), rest, frame)
    requires StrictlyOrdered(Absorb(Buckets(rest, frame), b, frame))
    ensures Grouped(Absorb(Buckets(rest, frame), b, frame), rest + [b], frame)
    ensures EndsInNewest(Absorb(Buckets(rest, frame), b, frame), rest + [b], frame)
  {
    hide FloorTs;
    hide IsBucket;
    hide LastBucket;
    hide Buckets;
    hide Ordered;
    hide HasBucket;
    var out, now := Buckets(rest, frame), Absorb(Buckets(rest, frame), b, frame);
    AbsorbShape(out, b, frame);
    forall k | 0 <= k < |rest| + 1 ensures HasBucket(now, rest + [b], k, frame) {
      AbsorbKeepsBuckets(out, rest, b, k, frame);
    }
    hide Absorb;
    var lo := NewestBucket(rest, b, frame);
    NewestIsSummary(now, rest + [b], lo, frame);
    forall i | 0 <= i < |now| - 1 ensures IsBucket(now[i], rest + [b], frame) {
      assert now[i].ts < now[|now| - 1].ts;
      OldBucketStays(rest, b, frame, now[i]);
    }
  }

  lemma AbsorbKeepsBuckets(out: seq<Bar>, rest: seq<Bar>, b: Bar, k: nat, frame: int)
    requires frame > 0 && k <= |rest| && (k < |rest| ==> HasBucket(out, rest, k, frame))
    ensures HasBucket(Absorb(out, b, frame), rest + [b], k, frame)
  {
    hide FloorTs;
    AbsorbShape(out, b, frame);
    var now := Absorb(out, b, frame);
    hide Absorb;
    if k < |rest| {
      var i :| 0 <= i < |out| && out[i].ts == FloorTs(rest[k].ts, frame);
      assert now[i].ts == out[i].ts;
    } else {
      assert now[|now| - 1].ts == FloorTs((rest + [b])[k].ts, frame);
    }
  }

  /**
   For a time-ordered series the buckets are its group-by: each is the
   first/max/min/last/sum of exactly the bars that fall into it, every bar falls
   into one of them, and they stand in order of time.
   */
  lemma BucketsAreTheGroupBy(bars: seq<Bar>, frame: int)
    requires frame > 0 && Ordered(bars)
    ensures Grouped(Buckets(bars, frame), bars, frame)
  {
    BucketsGrow(bars, frame);
  }

  lemma {:induction false} BucketsGrow(bars: seq<Bar>, frame: int)
    requires frame > 0 && Ordered(bars)
    ensures Grouped(Buckets(bars, frame), bars, frame) && EndsInNewest(Buckets(bars, frame), bars, frame)
  {
    hide FloorTs;
    hide Absorb;
    if bars != [] {
      var rest, b := bars[..|bars| - 1], bars[|bars| - 1];
      assert bars == rest + [b];
      BucketsGrow(rest, frame);
      BucketsAreOrdered(bars, frame);
      BucketsOfAppend(rest, b, frame);
      hide Grouped;
      hide EndsInNewest;
      AbsorbKeepsGroups(rest, b, frame);
    }
  }

  lemma SameRange(r: Bar, q: Bar, bars: seq<Bar>, lo: nat, hi: nat, lo': nat, hi': nat, frame: int)
    requires frame > 0 && r.ts == q.ts && Summarises(r, bars, lo, hi, frame) && Summarises(q, bars, lo', hi', frame)
    ensures lo == lo' && hi == hi'
  {
    hide FloorTs;
    hide Total;
    assert FloorTs(bars[lo].ts, frame) == r.ts && FloorTs(bars[lo'].ts, frame) == r.ts;
    assert FloorTs(bars[hi - 1].ts, frame) == r.ts && FloorTs(bars[hi' - 1].ts, frame) == r.ts;
  }

  /** The bars of a bucket and its time leave no choice about its figures. */
  lemma SummaryIsUnique(r: Bar, q: Bar, bars: seq<Bar>, frame: int)
    requires frame > 0 && r.ts == q.ts && IsBucket(r, bars, frame) && IsBucket(q, bars, frame)
    ensures r == q
  {
    hide FloorTs;
    hide Total;
    hide Summarises;
    var lo: nat, hi: nat :| Summarises(r, bars, lo, hi, frame);
    var lo': nat, hi': nat :| Summarises(q, bars, lo', hi', frame);
    SameRange(r, q, bars, lo, hi, lo', hi', frame);
    SameFigures(r, q, bars, lo, hi, frame);
  }

  lemma SameFigures(r: Bar, q: Bar, bars: seq<Bar>, lo: nat, hi: nat, frame: int)
    requires frame > 0 && r.ts == q.ts && Summarises(r, bars, lo, hi, frame) && Summarises(q, bars, lo, hi, frame)
    ensures r == q
  {
    hide FloorTs;
    hide Total;
    var u :| lo <= u < hi && bars[u].high == r.high;
    var v :| lo <= v < hi && bars[v].low == r.low;
    var x :| lo <= x < hi && bars[x].high == q.high;
    var y :| lo <= y < hi && bars[y].low == q.low;
  }

  lemma BucketHasABar(r: Bar, bars: seq<Bar>, frame: int) returns (k: nat)
    requires frame > 0 && IsBucket(r, bars, frame)
    ensures k < |bars| && FloorTs(bars[k].ts, frame) == r.ts
  {
    hide FloorTs;
    hide Summarises;
    var lo: nat, hi: nat :| Summarises(r, bars, lo, hi, frame);
    k := FirstOfRange(r, bars, lo, hi, frame);
  }

  lemma FirstOfRange(r: Bar, bars: seq<Bar>, lo: nat, hi: nat, frame: int) returns (k: nat)
    requires frame > 0 && Summarises(r, bars, lo, hi, frame)
    ensures k < |bars| && FloorTs(bars[k].ts, frame) == r.ts
  {
    hide FloorTs;
    hide Total;
    k := lo;
  }

  lemma SameTimesHere(a: seq<Bar>, b: seq<Bar>, bars: seq<Bar>, frame: int, i: nat) returns (j: nat)
    requires frame > 0 && Grouped(a, bars, frame) && Grouped(b, bars, frame) && i < |a|
    ensures j < |b| && b[j].ts == a[i].ts
  {
    hide FloorTs;
    hide StrictlyOrdered;
    hide IsBucket;
    var k := BucketHasABar(a[i], bars, frame);
    assert HasBucket(b, bars, k, frame);
    j :| 0 <= j < |b| && b[j].ts == FloorTs(bars[k].ts, frame);
  }

  /** The group-by is determined: only one list is one. */
  lemma GroupByIsUnique(a: seq<Bar>, b: seq<Bar>, bars: seq<Bar>, frame: int)
    requires frame > 0 && Grouped(a, bars, frame) && Grouped(b, bars, frame)
    ensures a == b
  {
    TimesAscend(a);
    TimesAscend(b);
    hide Ascending;
    forall k ensures k in TimesOf(a) <==> k in TimesOf(b) {
      if k in TimesOf(a) {
        var i :| 0 <= i < |a| && TimesOf(a)[i] == k;
        var j := SameTimesHere(a, b, bars, frame, i);
        assert TimesOf(b)[j] == k;
      }
      if k in TimesOf(b) {
        var i :| 0 <= i < |b| && TimesOf(b)[i] == k;
        var j := SameTimesHere(b, a, bars, frame, i);
        assert TimesOf(a)[j] == k;
      }
    }
    AscendingIsUnique(TimesOf(a), TimesOf(b));
    assert |a| == |TimesOf(a)| == |b|;
    forall i | 0 <= i < |a| ensures a[i] == b[i] {
      assert TimesOf(a)[i] == TimesOf(b)[i];
      SummaryIsUnique(a[i], b[i], bars, frame);
    }
  }

  lemma NewestIsSummary(now: seq<Bar>, bars: seq<Bar>, lo: nat, frame: int)
    requires frame > 0 && LastBucket(now, bars, lo, frame)
    ensures now != [] && IsBucket(now[|now| - 1], bars, frame)
  {
  }

  lemma NewestBucket(rest: seq<Bar>, b: Bar, frame: int) returns (lo: nat)
    requires frame > 0 && Ordered(rest + [b])
    requires EndsInNewest(Buckets(rest, frame), rest, frame)
    ensures LastBucket(Absorb(Buckets(rest, frame), b, frame), rest + [b], lo, frame)
  {
    hide FloorTs;
    hide Summarises;
    hide Absorb;
    var out := Buckets(rest, frame);
    AbsorbShape(out, b, frame);
    if |out| > 0 && out[|out| - 1].ts == FloorTs(b.ts, frame) {
      lo :| LastBucket(out, rest, lo, frame);
      SummaryGrows(out[|out| - 1], rest, lo, |rest|, frame, b);
    } else {
      lo := |rest|;
      NewBucket(rest, b, frame, out);
    }
  }

  lemma NewBucket(rest: seq<Bar>, b: Bar, frame: int, out: seq<Bar>)
    requires frame > 0 && Ordered(rest + [b]) && out == Buckets(rest, frame)
    requires |out| == 0 || out[|out| - 1].ts != FloorTs(b.ts, frame)
    ensures Summarises(Seed(b, frame), rest + [b], |rest|, |rest| + 1, frame)
  {
    hide FloorTs;
    var all, n := rest + [b], |rest|;
    assert all[n] == b;
    assert all[n..n + 1] == [b];
    assert [b][..0] == [];
    assert Total([b]) == b.volume;
    forall k | 0 <= k < n ensures FloorTs(all[k].ts, frame) != FloorTs(b.ts, frame) {
      EarlierBucket(rest, b, frame, k);
    }
  }

  /** When the newest bar opens a bucket, every earlier bar lies in another. */
  lemma EarlierBucket(rest: seq<Bar>, b: Bar, frame: int, k: nat)
    requires frame > 0 && Ordered(rest + [b]) && k < |rest|
    requires var out := Buckets(rest, frame); |out| == 0 || out[|out| - 1].ts != FloorTs(b.ts, frame)
    ensures FloorTs(rest[k].ts, frame) != FloorTs(b.ts, frame)
  {
    hide FloorTs;
    var all, n := rest + [b], |rest|;
    assert forall i :: 0 <= i < n ==> all[i] == rest[i];
    assert all[n] == b;
    assert rest[k].ts <= rest[n - 1].ts <= b.ts by { assert all[k].ts <= all[n - 1].ts || k == n - 1; assert all[n - 1].ts <= all[n].ts; }
    OrderedFront(rest, b);
    hide Ordered;
    BucketsAreOrdered(rest, frame);
    FloorTsIsMonotone(rest[k].ts, rest[n - 1].ts, frame);
    FloorTsIsMonotone(rest[n - 1].ts, b.ts, frame);
  }

  lemma OrderedFront(rest: seq<Bar>, b: Bar)
    requires Ordered(rest + [b])
    ensures Ordered(rest)
  {
    assert forall i :: 0 <= i < |rest| ==> (rest + [b])[i] == rest[i];
  }

  lemma {:induction false} TotalOfAppend(bars: seq<Bar>, b: Bar)
    ensures Total(bars + [b]) == Total(bars) + b.volume
  {
    assert (bars + [b])[..|bars|] == bars;
  }

  /** No volume is lost or counted twice. */
  lemma {:induction false} BucketsConserveVolume(bars: seq<Bar>, frame: int)
    requires frame > 0
    ensures Total(Buckets(bars, frame)) == Total(bars)
  {
    hide FloorTs;
    if bars != [] {
      var n := |bars| - 1;
      BucketsConserveVolume(bars[..n], frame);
      var out, b := Buckets(bars[..n], frame), bars[n];
      var m := |out|;
      if m > 0 && out[m - 1].ts == FloorTs(b.ts, frame) {
        TotalOfAppend(out[..m - 1], Merge(out[m - 1], b));
      } else {
        TotalOfAppend(out, Seed(b, frame));
      }
    }
  }

  // ------------------------------------------------------------ composition

  lemma AbsorbTwice(out: seq<Bar>, x: Bar, b: Bar, frame: int)
    requires frame > 0 && FloorTs(x.ts, frame) == FloorTs(b.ts, frame)
    ensures Absorb(Absorb(out, x, frame), b, frame) == Absorb(out, Merge(x, b), frame)
  {
    hide FloorTs;
    var n := |out|;
    if n > 0 && out[n - 1].ts == FloorTs(x.ts, frame) {
      assert Merge(Merge(out[n - 1], x), b) == Merge(out[n - 1], Merge(x, b));
      assert Absorb(out, x, frame)[..n - 1] == out[..n - 1];
    } else {
      assert Merge(Seed(x, frame), b) == Seed(Merge(x, b), frame);
      assert Absorb(out, x, frame)[..n] == out;
    }
  }

  lemma BucketsOfAppend(bars: seq<Bar>, b: Bar, frame: int)
    requires frame > 0
    ensures Buckets(bars + [b], frame) == Absorb(Buckets(bars, frame), b, frame)
  {
    assert (bars + [b])[..|bars|] == bars;
  }

  /** One more bar: absorbed finely and then coarsely, or coarsely at once. */
  lemma AbsorbComposes(fine: seq<Bar>, b: Bar, t: int, coarse: int)
    requires t > 0 && coarse > 0 && coarse % t == 0
    ensures Buckets(Absorb(fine, b, t), coarse) == Absorb(Buckets(fine, coarse), b, coarse)
  {
    FloorComposes(b.ts, t, coarse);
    hide FloorTs;
    var m := |fine|;
    if m > 0 && fine[m - 1].ts == FloorTs(b.ts, t) {
      var kept, x := fine[..m - 1], fine[m - 1];
      assert fine == kept + [x];
      BucketsOfAppend(kept, x, coarse);
      BucketsOfAppend(kept, Merge(x, b), coarse);
      AbsorbTwice(Buckets(kept, coarse), x, b, coarse);
    } else {
      BucketsOfAppend(fine, Seed(b, t), coarse);
      SeedTwice(Buckets(fine, coarse), b, t, coarse);
    }
  }

  lemma SeedTwice(out: seq<Bar>, b: Bar, t: int, coarse: int)
    requires t > 0 && coarse > 0 && FloorTs(FloorTs(b.ts, t), coarse) == FloorTs(b.ts, coarse)
    ensures Absorb(out, Seed(b, t), coarse) == Absorb(out, b, coarse)
  {
    hide FloorTs;
  }

  /** Bucketing the buckets of a finer frame is bucketing the series itself. */
  lemma {:induction false} BucketsCompose(bars: seq<Bar>, t: int, coarse: int)
    requires t > 0 && coarse > 0 && coarse % t == 0
    ensures Buckets(Buckets(bars, t), coarse) == Buckets(bars, coarse)
  {
    if bars != [] {
      var rest, b := bars[..|bars| - 1], bars[|bars| - 1];
      BucketsCompose(rest, t, coarse);
      AbsorbComposes(Buckets(rest, t), b, t, coarse);
      hide FloorTs;
      hide Absorb;
    }
  }

  // -------------------------------------------------------------- resampling

  /** The buckets that end before the last complete boundary. */
  function Complete(out: seq<Bar>, cutoff: int): seq<Bar>
  {
    if out == [] then []
    else
      var last := out[|out| - 1];
      Complete(out[..|out| - 1], cutoff) + if last.ts < cutoff then [last] else []
  }

  function Label(bars: seq<Bar>, symbol: string, source: string): (r: seq<Bar>)
    ensures |r| == |bars|
    ensures forall i :: 0 <= i < |bars| ==> r[i] == bars[i].(symbol := symbol, source := source)
  {
    seq(|bars|, i requires 0 <= i < |bars| => bars[i].(symbol := symbol, source := source))
  }

  /** `resample_bars_until`: the complete buckets, under the symbol of the first bar. */
  function Resample(bars: seq<Bar>, frame: int, source: string, now: int): seq<Bar>
    requires frame > 0
  {
    if bars == [] then []
    else Complete(Buckets(Label(bars, bars[0].symbol, source), frame), FloorTs(now, frame))
  }

  lemma {:induction false} CompleteOfAppend(out: seq<Bar>, b: Bar, cutoff: int)
    ensures Complete(out + [b], cutoff) == Complete(out, cutoff) + (if b.ts < cutoff then [b] else [])
  {
    assert (out + [b])[..|out|] == out;
  }

  /** A bar whose bucket is not complete changes nothing that is kept. */
  lemma LateBarIsDropped(out: seq<Bar>, b: Bar, frame: int, cutoff: int)
    requires frame > 0 && FloorTs(b.ts, frame) >= cutoff
    ensures Complete(Absorb(out, b, frame), cutoff) == Complete(out, cutoff)
  {
    hide FloorTs;
    var n := |out|;
    if n > 0 && out[n - 1].ts == FloorTs(b.ts, frame) {
      CompleteOfAppend(out[..n - 1], Merge(out[n - 1], b), cutoff);
    } else {
      CompleteOfAppend(out, Seed(b, frame), cutoff);
    }
  }

  lemma {:induction false} AllComplete(out: seq<Bar>, cutoff: int)
    requires forall i :: 0 <= i < |out| ==> out[i].ts < cutoff
    ensures Complete(out, cutoff) == out
  {
    if out != [] {
      AllComplete(out[..|out| - 1], cutoff);
    }
  }

  /** Dropping incomplete fine buckets first loses no complete coarse bucket. */
  lemma {:induction false} DroppingFirstIsHarmless(fine: seq<Bar>, coarse: int, c1: int, c2: int)
    requires coarse > 0 && StrictlyOrdered(fine)
    requires forall i :: 0 <= i < |fine| && fine[i].ts >= c1 ==> FloorTs(fine[i].ts, coarse) >= c2
    ensures Complete(Buckets(Complete(fine, c1), coarse), c2) == Complete(Buckets(fine, coarse), c2)
  {
    hide FloorTs;
    hide Absorb;
    if fine != [] {
      var rest, x := fine[..|fine| - 1], fine[|fine| - 1];
      assert fine == rest + [x];
      if x.ts < c1 {
        AllComplete(fine, c1);
      } else {
        DroppingFirstIsHarmless(rest, coarse, c1, c2);
        CompleteOfAppend(rest, x, c1);
        assert Complete(rest, c1) + [] == Complete(rest, c1);
        BucketsOfAppend(rest, x, coarse);
        LateBarIsDropped(Buckets(rest, coarse), x, coarse, c2);
      }
    }
  }

  lemma {:induction false} CompleteKeepsLabel(out: seq<Bar>, cutoff: int, symbol: string, source: string)
    requires forall i :: 0 <= i < |out| ==> out[i].symbol == symbol && out[i].source == source
    ensures forall i :: 0 <= i < |Complete(out, cutoff)| ==>
              Complete(out, cutoff)[i].symbol == symbol && Complete(out, cutoff)[i].source == source
  {
    if out != [] { CompleteKeepsLabel(out[..|out| - 1], cutoff, symbol, source); }
  }

  lemma {:induction false} BucketsKeepLabel(bars: seq<Bar>, frame: int, symbol: string, source: string)
    requires frame > 0 && forall i :: 0 <= i < |bars| ==> bars[i].symbol == symbol && bars[i].source == source
    ensures forall i :: 0 <= i < |Buckets(bars, frame)| ==>
              Buckets(bars, frame)[i].symbol == symbol && Buckets(bars, frame)[i].source == source
  {
    hide FloorTs;
    if bars != [] { BucketsKeepLabel(bars[..|bars| - 1], frame, symbol, source); }
  }

  lemma LabelledBuckets(bars: seq<Bar>, frame: int, cutoff: int, symbol: string, source: string)
    requires frame > 0
    ensures var inner := Complete(Buckets(Label(bars, symbol, source), frame), cutoff);
      && (inner != [] ==> inner[0].symbol == symbol) && Label(inner, symbol, source) == inner
  {
    hide FloorTs;
    var labelled := Label(bars, symbol, source);
    BucketsKeepLabel(labelled, frame, symbol, source);
    hide Buckets;
    var fine := Buckets(labelled, frame);
    CompleteKeepsLabel(fine, cutoff, symbol, source);
    hide Complete;
    assert Label(Complete(fine, cutoff), symbol, source) == Complete(fine, cutoff);
  }

  /** A fine bucket at or after the fine boundary starts no complete coarse bucket. */
  lemma BoundariesNest(ts: int, t: int, coarse: int, now: int)
    requires t > 0 && coarse > 0 && coarse % t == 0 && ts >= FloorTs(now, t)
    ensures FloorTs(ts, coarse) >= FloorTs(now, coarse)
  {
    FloorComposes(now, t, coarse);
    FloorTsIsMonotone(FloorTs(now, t), ts, coarse);
  }

  /**
   Resampling to a frame and then to a multiple of it is resampling to the multiple
   at once, incomplete buckets included, for any time-ordered bars and one `now`.
   */
  lemma ResamplingComposes(bars: seq<Bar>, t: int, coarse: int, source: string, now: int)
    requires t > 0 && coarse > 0 && coarse % t == 0 && Ordered(bars)
    ensures Resample(Resample(bars, t, source, now), coarse, source, now) == Resample(bars, coarse, source, now)
  {
    if bars != [] {
      var symbol := bars[0].symbol;
      var labelled := Label(bars, symbol, source);
      var fine := Buckets(labelled, t);
      var c1, c2 := FloorTs(now, t), FloorTs(now, coarse);
      BucketsAreOrdered(labelled, t);
      forall i | 0 <= i < |fine| && fine[i].ts >= c1 ensures FloorTs(fine[i].ts, coarse) >= c2 {
        BoundariesNest(fine[i].ts, t, coarse, now);
      }
      DroppingFirstIsHarmless(fine, coarse, c1, c2);
      BucketsCompose(labelled, t, coarse);
      LabelledBuckets(bars, t, c1, symbol, source);
      hide FloorTs;
      hide Buckets;
      assert Complete([], c2) == [];
      EmptyBuckets(coarse);
    }
  }

  /** `r` rolls up `bars[lo..hi]`, exactly the bars of its bucket, under the given names. */
  ghost predicate RollsUp(r: Bar, bars: seq<Bar>, lo: nat, hi: nat, frame: int, symbol: string, source: string)
  {
    && lo < hi <= |bars|
    && (forall k :: 0 <= k < |bars| ==> (IsStart(r.ts, bars[k].ts, frame) <==> lo <= k < hi))
    && r.open == bars[lo].open && r.close == bars[hi - 1].close
    && (forall k :: lo <= k < hi ==> bars[k].high <= r.high && r.low <= bars[k].low)
    && (exists k :: lo <= k < hi && bars[k].high == r.high)
    && (exists k :: lo <= k < hi && bars[k].low == r.low)
    && r.volume == Total(bars[lo..hi])
    && r.symbol == symbol && r.source == source
  }

  /** A bar of the list starts where the bucket of bar `k` starts. */
  ghost predicate HasStart(result: seq<Bar>, bars: seq<Bar>, k: nat, frame: int)
    requires k < |bars|
  {
    exists i :: 0 <= i < |result| && IsStart(result[i].ts, bars[k].ts, frame)
  }

  /** A whole bucket, under the symbol of the first bar and the given source, that starts before the bucket of the clock. */
  ghost predicate IsComplete(r: Bar, bars: seq<Bar>, frame: int, source: string, now: int)
    requires bars != []
  {
    && (exists lo, hi :: RollsUp(r, bars, lo, hi, frame, bars[0].symbol, source))
    && forall c :: IsStart(c, now, frame) ==> r.ts < c
  }

  ghost predicate AllBucketsThere(result: seq<Bar>, bars: seq<Bar>, frame: int, now: int)
  {
    forall k, b, c :: 0 <= k < |bars| && IsStart(b, bars[k].ts, frame) && IsStart(c, now, frame) && b < c ==>
      HasStart(result, bars, k, frame)
  }

  /**
   The rolled-up bars of the buckets that start before the bucket of the clock: in order of
   time, each of exactly its bars, under the symbol of the first bar and the given source.
   */
  ghost predicate IsResampled(bars: seq<Bar>, frame: int, source: string, now: int, result: seq<Bar>)
  {
    && (bars == [] ==> result == [])
    && StrictlyOrdered(result)
    && (forall i :: 0 <= i < |result| ==> bars != [] && IsComplete(result[i], bars, frame, source, now))
    && AllBucketsThere(result, bars, frame, now)
  }

  lemma {:induction false} SameVolumes(a: seq<Bar>, b: seq<Bar>, lo: nat, hi: nat)
    requires |a| == |b| && lo <= hi <= |a| && forall i :: 0 <= i < |a| ==> a[i].volume == b[i].volume
    ensures Total(a[lo..hi]) == Total(b[lo..hi])
    decreases hi
  {
    hide Total;
    if lo < hi {
      SameVolumes(a, b, lo, hi - 1);
      TotalExtends(a, lo, hi - 1);
      TotalExtends(b, lo, hi - 1);
    } else {
      assert a[lo..hi] == [] && b[lo..hi] == [];
    }
  }

  lemma SummaryRollsUp(r: Bar, bars: seq<Bar>, frame: int, symbol: string, source: string)
    requires frame > 0 && IsBucket(r, Label(bars, symbol, source), frame)
    ensures exists lo, hi :: RollsUp(r, bars, lo, hi, frame, symbol, source)
  {
    hide FloorTs;
    hide IsStart;
    hide Total;
    var labelled := Label(bars, symbol, source);
    var lo: nat, hi: nat :| Summarises(r, labelled, lo, hi, frame);
    SameVolumes(labelled, bars, lo, hi);
    forall k | 0 <= k < |bars| ensures IsStart(r.ts, bars[k].ts, frame) <==> lo <= k < hi {
      FloorExactly(r.ts, bars[k].ts, frame);
      assert labelled[k].ts == bars[k].ts;
    }
    var u :| lo <= u < hi && labelled[u].high == r.high;
    var v :| lo <= v < hi && labelled[v].low == r.low;
    assert bars[u].high == r.high && bars[v].low == r.low;
    forall k | lo <= k < hi ensures bars[k].high <= r.high && r.low <= bars[k].low {
      assert labelled[k].high == bars[k].high && labelled[k].low == bars[k].low;
    }
    assert RollsUp(r, bars, lo, hi, frame, symbol, source);
  }

  /** The complete buckets are a part of the list that keeps its order. */
  lemma {:induction false} CompleteIsPart(out: seq<Bar>, cutoff: int)
    requires StrictlyOrdered(out)
    ensures StrictlyOrdered(Complete(out, cutoff))
    ensures forall x :: x in Complete(out, cutoff) <==> x in out && x.ts < cutoff
  {
    if out != [] {
      var front, last := out[..|out| - 1], out[|out| - 1];
      assert out == front + [last];
      CompleteIsPart(front, cutoff);
      forall x | x in Complete(front, cutoff) ensures x.ts < last.ts {
        var i :| 0 <= i < |front| && front[i] == x;
      }
    }
  }

  lemma ResampledExactly(bars: seq<Bar>, frame: int, source: string, now: int)
    requires frame > 0 && Ordered(bars)
    ensures IsResampled(bars, frame, source, now, Resample(bars, frame, source, now))
  {
    hide FloorTs;
    hide Buckets;
    hide Complete;
    hide IsComplete;
    hide HasStart;
    hide IsStart;
    if bars != [] {
      var labelled := Label(bars, bars[0].symbol, source);
      var out, cutoff := Buckets(labelled, frame), FloorTs(now, frame);
      BucketsAreTheGroupBy(labelled, frame);
      CompleteIsPart(out, cutoff);
      var result := Complete(out, cutoff);
      hide Label;
      hide IsBucket;
      hide HasBucket;
      forall i | 0 <= i < |result| ensures IsComplete(result[i], bars, frame, source, now) {
        assert result[i] in out;
        KeptIsComplete(result[i], bars, frame, source, now);
      }
      BucketsAreKept(out, labelled, bars, frame, now, result);
    }
  }

  lemma KeptIsComplete(r: Bar, bars: seq<Bar>, frame: int, source: string, now: int)
    requires frame > 0 && bars != [] && IsBucket(r, Label(bars, bars[0].symbol, source), frame) && r.ts < FloorTs(now, frame)
    ensures IsComplete(r, bars, frame, source, now)
  {
    hide FloorTs;
    hide IsStart;
    hide RollsUp;
    hide IsBucket;
    SummaryRollsUp(r, bars, frame, bars[0].symbol, source);
    forall c | IsStart(c, now, frame) ensures r.ts < c { FloorExactly(c, now, frame); }
  }

  lemma BucketsAreKept(out: seq<Bar>, labelled: seq<Bar>, bars: seq<Bar>, frame: int, now: int, result: seq<Bar>)
    requires frame > 0 && |bars| == |labelled| && forall k :: 0 <= k < |bars| ==> labelled[k].ts == bars[k].ts
    requires Grouped(out, labelled, frame)
    requires forall x :: x in result <==> x in out && x.ts < FloorTs(now, frame)
    ensures AllBucketsThere(result, bars, frame, now)
  {
    hide FloorTs;
    hide IsStart;
    hide HasBucket;
    hide HasStart;
    forall k, b, c | 0 <= k < |bars| && IsStart(b, bars[k].ts, frame) && IsStart(c, now, frame) && b < c
      ensures HasStart(result, bars, k, frame)
    {
      FloorExactly(b, bars[k].ts, frame);
      FloorExactly(c, now, frame);
      BucketIsKept(out, labelled, bars, k, frame, c, result);
    }
  }

  lemma BucketIsKept(out: seq<Bar>, labelled: seq<Bar>, bars: seq<Bar>, k: nat, frame: int, cutoff: int, result: seq<Bar>)
    requires frame > 0 && k < |bars| == |labelled| && labelled[k].ts == bars[k].ts
    requires HasBucket(out, labelled, k, frame) && FloorTs(bars[k].ts, frame) < cutoff
    requires forall x :: x in result <==> x in out && x.ts < cutoff
    ensures HasStart(result, bars, k, frame)
  {
    hide FloorTs;
    hide IsStart;
    var i :| 0 <= i < |out| && out[i].ts == FloorTs(labelled[k].ts, frame);
    assert out[i] in result;
    var j :| 0 <= j < |result| && result[j] == out[i];
    FloorExactly(result[j].ts, bars[k].ts, frame);
  }

  lemma EmptyBuckets(frame: int)
    requires frame > 0
    ensures Buckets([], frame) == []
  {
  }

  /** The bars that fall into a complete bucket. */
  function InCompleteBuckets(bars: seq<Bar>, frame: int, cutoff: int): seq<Bar>
    requires frame > 0
  {
    if bars == [] then []
    else
      var last := bars[|bars| - 1];
      InCompleteBuckets(bars[..|bars| - 1], frame, cutoff) + if FloorTs(last.ts, frame) < cutoff then [last] else []
  }

  lemma AbsorbVolume(out: seq<Bar>, b: Bar, frame: int, cutoff: int)
    requires frame > 0
    ensures Total(Complete(Absorb(out, b, frame), cutoff))
         == Total(Complete(out, cutoff)) + (if FloorTs(b.ts, frame) < cutoff then b.volume else 0.0)
  {
    hide FloorTs;
    var m := |out|;
    if m > 0 && out[m - 1].ts == FloorTs(b.ts, frame) {
      var kept, x := out[..m - 1], out[m - 1];
      assert out == kept + [x];
      CompleteOfAppend(kept, x, cutoff);
      CompleteOfAppend(kept, Merge(x, b), cutoff);
      TotalOfAppend(Complete(kept, cutoff), x);
      TotalOfAppend(Complete(kept, cutoff), Merge(x, b));
    } else {
      CompleteOfAppend(out, Seed(b, frame), cutoff);
      TotalOfAppend(Complete(out, cutoff), Seed(b, frame));
      assert Complete(out, cutoff) + [] == Complete(out, cutoff);
    }
  }

  lemma {:induction false} CompleteVolume(bars: seq<Bar>, frame: int, cutoff: int)
    requires frame > 0
    ensures Total(Complete(Buckets(bars, frame), cutoff)) == Total(InCompleteBuckets(bars, frame, cutoff))
  {
    hide FloorTs;
    hide Absorb;
    hide Complete;
    if bars != [] {
      var rest, b := bars[..|bars| - 1], bars[|bars| - 1];
      assert bars == rest + [b];
      CompleteVolume(rest, frame, cutoff);
      AbsorbVolume(Buckets(rest, frame), b, frame, cutoff);
      InCompleteOfAppend(rest, b, frame, cutoff);
      BucketsOfAppend(rest, b, frame);
      hide Buckets;
      hide InCompleteBuckets;
    } else {
      EmptyComplete(cutoff);
    }
  }

  lemma EmptyComplete(cutoff: int)
    ensures Complete([], cutoff) == []
  {
  }

  lemma InCompleteOfAppend(bars: seq<Bar>, b: Bar, frame: int, cutoff: int)
    requires frame > 0
    ensures Total(InCompleteBuckets(bars + [b], frame, cutoff))
         == Total(InCompleteBuckets(bars, frame, cutoff)) + (if FloorTs(b.ts, frame) < cutoff then b.volume else 0.0)
  {
    hide FloorTs;
    assert (bars + [b])[..|bars|] == bars;
    var kept := InCompleteBuckets(bars, frame, cutoff);
    TotalOfAppend(kept, b);
    assert kept + [] == kept;
  }

  lemma {:induction false} LabelKeepsVolume(bars: seq<Bar>, symbol: string, source: string, frame: int, cutoff: int)
    requires frame > 0
    ensures Total(InCompleteBuckets(Label(bars, symbol, source), frame, cutoff))
         == Total(InCompleteBuckets(bars, frame, cutoff))
  {
    hide FloorTs;
    if bars == [] {
      assert Label(bars, symbol, source) == bars;
    } else {
      var rest, b := bars[..|bars| - 1], bars[|bars| - 1];
      var relabelled := b.(symbol := symbol, source := source);
      assert bars == rest + [b];
      assert Label(bars, symbol, source) == Label(rest, symbol, source) + [relabelled];
      LabelKeepsVolume(rest, symbol, source, frame, cutoff);
      InCompleteOfAppend(rest, b, frame, cutoff);
      InCompleteOfAppend(Label(rest, symbol, source), relabelled, frame, cutoff);
    }
  }

  /** The published volume is the volume of the bars in complete buckets. */
  lemma ResamplingConservesVolume(bars: seq<Bar>, frame: int, source: string, now: int)
    requires frame > 0
    ensures Total(Resample(bars, frame, source, now)) == Total(InCompleteBuckets(bars, frame, FloorTs(now, frame)))
  {
    if bars != [] {
      CompleteVolume(Label(bars, bars[0].symbol, source), frame, FloorTs(now, frame));
      LabelKeepsVolume(bars, bars[0].symbol, source, frame, FloorTs(now, frame));
    }
  }

  // -------------------------------------------------------------- streaming

  /** The caller's mutable dictionary: empty, or the running bucket. */
  datatype Running =
    | NothingYet
    | Running(ts: int, open: real, high: real, low: real, close: real, volume: real, source: string)

  datatype Emitted = Nothing | Emitted(bar: Bar)

  function SeedState(t: Tick, bucket: int): Running
  {
    Running(bucket, t.last, t.last, t.last, t.last, t.volume, t.source)
  }

  function BuildBar(symbol: string, s: Running): Bar
    requires s.Running?
  {
    Bar(s.ts, symbol, s.open, s.high, s.low, s.close, s.volume, s.source)
  }

  /** One tick: the new state and the bar it finished, if any. */
  function Ingest(s: Running, t: Tick, frame: int): (r: (Running, Emitted))
    requires frame > 0
    ensures r.0.Running?
  {
    var bucket := FloorTs(t.ts, frame);
    if s.NothingYet? then (SeedState(t, bucket), Nothing)
    else if s.ts == bucket then
      (s.(high := Max(s.high, t.last), low := Min(s.low, t.last), close := t.last, volume := s.volume + t.volume), Nothing)
    else (SeedState(t, bucket), Emitted(BuildBar(t.symbol, s)))
  }

  /** The first tick of a bucket is its open, high, low, close and volume. */
  ghost predicate IsSeeded(s: Running, t: Tick, start: int)
  {
    && s.Running? && s.ts == start && s.volume == t.volume && s.source == t.source
    && s.open == t.last && s.high == t.last && s.low == t.last && s.close == t.last
  }

  /** A further tick of the bucket: a new close, more volume, and an extreme where it goes beyond the old one. */
  ghost predicate IsUpdated(was: Running, s: Running, t: Tick)
    requires was.Running?
  {
    && s.Running? && s.ts == was.ts && s.open == was.open && s.source == was.source
    && s.close == t.last && s.volume == was.volume + t.volume
    && (t.last > was.high ==> s.high == t.last) && (t.last <= was.high ==> s.high == was.high)
    && (t.last < was.low ==> s.low == t.last) && (t.last >= was.low ==> s.low == was.low)
  }

  /** The finished bar carries the figures of the old state and the symbol of the tick that ended it. */
  ghost predicate IsFinished(was: Running, symbol: string, bar: Bar)
    requires was.Running?
  {
    && bar.ts == was.ts && bar.symbol == symbol && bar.source == was.source
    && bar.open == was.open && bar.high == was.high && bar.low == was.low && bar.close == was.close && bar.volume == was.volume
  }

  /** One tick, case by case: the first, a further one of the bucket, and one of another bucket. */
  ghost predicate IsIngested(was: Running, t: Tick, frame: int, s: Running, e: Emitted)
  {
    exists start :: IsStart(start, t.ts, frame)
      && (was.NothingYet? ==> IsSeeded(s, t, start) && e.Nothing?)
      && (was.Running? && was.ts == start ==> IsUpdated(was, s, t) && e.Nothing?)
      && (was.Running? && was.ts != start ==> IsSeeded(s, t, start) && e.Emitted? && IsFinished(was, t.symbol, e.bar))
  }

  lemma IngestExactly(s: Running, t: Tick, frame: int)
    requires frame > 0
    ensures IsIngested(s, t, frame, Ingest(s, t, frame).0, Ingest(s, t, frame).1)
  {
    hide FloorTs;
    hide IsStart;
    FloorExactly(FloorTs(t.ts, frame), t.ts, frame);
  }

  /** Every bar emitted for a series of ticks, and the state left at its end. */
  function Stream(ticks: seq<Tick>, frame: int): (r: (Running, seq<Bar>))
    requires frame > 0
    ensures ticks != [] ==> r.0.Running?
  {
    if ticks == [] then (NothingYet, [])
    else
      var (s, out) := Stream(ticks[..|ticks| - 1], frame);
      var (next, e) := Ingest(s, ticks[|ticks| - 1], frame);
      (next, if e.Emitted? then out + [e.bar] else out)
  }

  ghost predicate OneSymbol(ticks: seq<Tick>, symbol: string)
  {
    forall i :: 0 <= i < |ticks| ==> ticks[i].symbol == symbol
  }

  /** The emitted bars followed by the unfinished one are the buckets of the whole series. */
  lemma {:induction false} StreamingEqualsBatch(ticks: seq<Tick>, symbol: string, frame: int)
    requires frame > 0 && ticks != [] && OneSymbol(ticks, symbol)
    ensures var (s, out) := Stream(ticks, frame);
      out + [BuildBar(symbol, s)] == Buckets(AsBars(ticks), frame)
  {
    var rest, t := ticks[..|ticks| - 1], ticks[|ticks| - 1];
    assert AsBars(ticks) == AsBars(rest) + [AsBar(t)];
    BucketsOfAppend(AsBars(rest), AsBar(t), frame);
    hide FloorTs;
    hide Buckets;
    if rest == [] {
      EmptyBuckets(frame);
    } else {
      StreamingEqualsBatch(rest, symbol, frame);
      var (s, out) := Stream(rest, frame);
      IngestAbsorbs(s, out, t, symbol, frame);
    }
  }

  lemma IngestAbsorbs(s: Running, out: seq<Bar>, t: Tick, symbol: string, frame: int)
    requires frame > 0 && s.Running? && t.symbol == symbol
    ensures var (next, e) := Ingest(s, t, frame);
      (if e.Emitted? then out + [e.bar] else out) + [BuildBar(symbol, next)]
      == Absorb(out + [BuildBar(symbol, s)], AsBar(t), frame)
  {
    hide FloorTs;
    assert (out + [BuildBar(symbol, s)])[..|out|] == out;
  }

  /**
   Streamed bars of time-ordered ticks are strictly increasing in time, and no
   volume is lost: what was emitted plus what is still running is what came in.
   */
  lemma StreamIsOrderedAndConserves(ticks: seq<Tick>, symbol: string, frame: int)
    requires frame > 0 && ticks != [] && OneSymbol(ticks, symbol) && Ordered(AsBars(ticks))
    ensures var (s, out) := Stream(ticks, frame);
      StrictlyOrdered(out + [BuildBar(symbol, s)]) && Total(out) + s.volume == Total(AsBars(ticks))
  {
    var (s, out) := Stream(ticks, frame);
    hide FloorTs;
    StreamingEqualsBatch(ticks, symbol, frame);
    BucketsAreOrdered(AsBars(ticks), frame);
    BucketsConserveVolume(AsBars(ticks), frame);
    TotalOfAppend(out, BuildBar(symbol, s));
  }

  /** Bucketing the emitted bars loses, of the coarse buckets of all ticks, the running bar alone. */
  lemma RunningBarIsMissing(ticks: seq<Tick>, symbol: string, t: int, coarse: int)
    requires t > 0 && coarse > 0 && coarse % t == 0
    requires ticks != [] && OneSymbol(ticks, symbol) && Ordered(AsBars(ticks))
    ensures var (s, out) := Stream(ticks, t);
      var running := BuildBar(symbol, s);
      && FloorTs(running.ts, coarse) == FloorTs(ticks[|ticks| - 1].ts, coarse)
      && Buckets(AsBars(ticks), coarse) == Absorb(Buckets(out, coarse), running, coarse)
  {
    var (s, out) := Stream(ticks, t);
    var bars, running := AsBars(ticks), BuildBar(symbol, s);
    StreamingEqualsBatch(ticks, symbol, t);
    BucketsAreOrdered(bars, t);
    assert running.ts == FloorTs(ticks[|ticks| - 1].ts, t);
    FloorComposes(ticks[|ticks| - 1].ts, t, coarse);
    BucketsCompose(bars, t, coarse);
    BucketsOfAppend(out, running, coarse);
  }

  lemma {:induction false} BucketsOfLabelled(bars: seq<Bar>, frame: int, symbol: string, source: string)
    requires frame > 0
    ensures Buckets(Label(bars, symbol, source), frame) == Label(Buckets(bars, frame), symbol, source)
    decreases |bars|
  {
    hide FloorTs;
    if bars != [] {
      var rest, x := bars[..|bars| - 1], bars[|bars| - 1];
      assert bars == rest + [x];
      assert Label(bars, symbol, source) == Label(rest, symbol, source) + [x.(symbol := symbol, source := source)];
      BucketsOfAppend(rest, x, frame);
      BucketsOfAppend(Label(rest, symbol, source), x.(symbol := symbol, source := source), frame);
      BucketsOfLabelled(rest, frame, symbol, source);
      AbsorbLabelled(Buckets(rest, frame), x, frame, symbol, source);
    }
  }

  lemma AbsorbLabelled(out: seq<Bar>, x: Bar, frame: int, symbol: string, source: string)
    requires frame > 0
    ensures Absorb(Label(out, symbol, source), x.(symbol := symbol, source := source), frame)
            == Label(Absorb(out, x, frame), symbol, source)
  {
    hide FloorTs;
    hide Max;
    hide Min;
    assert Label(out, symbol, source)[..|out|] == Label(out, symbol, source);
  }

  lemma LabelOfAppend(out: seq<Bar>, x: Bar, symbol: string, source: string)
    ensures Label(out + [x], symbol, source) == Label(out, symbol, source) + [x.(symbol := symbol, source := source)]
    ensures Label([], symbol, source) == []
  {
  }

  lemma {:induction false} CompleteLabelled(out: seq<Bar>, cutoff: int, symbol: string, source: string)
    ensures Complete(Label(out, symbol, source), cutoff) == Label(Complete(out, cutoff), symbol, source)
    decreases |out|
  {
    if out != [] {
      var rest, x := out[..|out| - 1], out[|out| - 1];
      var y := x.(symbol := symbol, source := source);
      assert out == rest + [x];
      CompleteLabelled(rest, cutoff, symbol, source);
      CompleteOfAppend(rest, x, cutoff);
      CompleteOfAppend(Label(rest, symbol, source), y, cutoff);
      LabelOfAppend(rest, x, symbol, source);
      LabelOfAppend(Complete(rest, cutoff), x, symbol, source);
      hide Complete;
      hide Label;
      assert Complete(rest, cutoff) + [] == Complete(rest, cutoff);
      assert Complete(Label(rest, symbol, source), cutoff) + [] == Complete(Label(rest, symbol, source), cutoff);
    }
  }

  /** Resampling is bucketing, dropping the incomplete and labelling. */
  lemma ResampleIsLabelled(bars: seq<Bar>, frame: int, symbol: string, source: string, now: int)
    requires frame > 0 && (bars != [] ==> bars[0].symbol == symbol)
    ensures Resample(bars, frame, source, now)
            == Label(Complete(Buckets(bars, frame), FloorTs(now, frame)), symbol, source)
  {
    hide FloorTs;
    if bars == [] {
      EmptyBuckets(frame);
    } else {
      BucketsOfLabelled(bars, frame, symbol, source);
      hide Buckets;
      CompleteLabelled(Buckets(bars, frame), FloorTs(now, frame), symbol, source);
    }
  }

  lemma {:induction false} StreamKeepsSymbol(ticks: seq<Tick>, symbol: string, frame: int)
    requires frame > 0 && OneSymbol(ticks, symbol)
    ensures forall i :: 0 <= i < |Stream(ticks, frame).1| ==> Stream(ticks, frame).1[i].symbol == symbol
    decreases |ticks|
  {
    hide FloorTs;
    if ticks != [] { StreamKeepsSymbol(ticks[..|ticks| - 1], symbol, frame); }
  }

  lemma {:induction false} LabelKeepsTotal(bars: seq<Bar>, symbol: string, source: string)
    ensures Total(Label(bars, symbol, source)) == Total(bars)
    decreases |bars|
  {
    if bars != [] {
      LabelKeepsTotal(bars[..|bars| - 1], symbol, source);
      assert Label(bars, symbol, source)[..|bars| - 1] == Label(bars[..|bars| - 1], symbol, source);
    }
  }

  /** The running bar changes nothing of the coarse buckets of the emitted bars. */
  ghost predicate AddsNothing(coarseBuckets: seq<Bar>, running: Bar, coarse: int)
    requires coarse > 0
  {
    && coarseBuckets != []
    && var last := coarseBuckets[|coarseBuckets| - 1];
       && last.ts == FloorTs(running.ts, coarse)
       && running.volume == 0.0 && running.close == last.close
       && running.high <= last.high && last.low <= running.low
  }

  /** Merging in a bar changes a bucket unless the bar has no volume, the same close and no new extreme. */
  lemma MergeChangesExactly(last: Bar, running: Bar)
    ensures Merge(last, running) == last
            <==> running.volume == 0.0 && running.close == last.close && running.high <= last.high && last.low <= running.low
  {
  }

  lemma LabelDecides(a: seq<Bar>, b: seq<Bar>, symbol: string, source: string)
    ensures |a| != |b| ==> Label(a, symbol, source) != Label(b, symbol, source)
    ensures |a| == |b| && (forall i :: 0 <= i < |a| ==> a[i].symbol == b[i].symbol && a[i].source == b[i].source) ==>
              (Label(a, symbol, source) == Label(b, symbol, source) <==> a == b)
  {
    if |a| == |b| && Label(a, symbol, source) == Label(b, symbol, source)
       && (forall i :: 0 <= i < |a| ==> a[i].symbol == b[i].symbol && a[i].source == b[i].source)
    {
      forall i | 0 <= i < |a| ensures a[i] == b[i] {
        assert Label(a, symbol, source)[i] == Label(b, symbol, source)[i];
      }
    }
  }

  /** Absorbing a bar is seen under the labels exactly when it changes something. */
  lemma AbsorbedIsSeen(out: seq<Bar>, running: Bar, coarse: int, symbol: string, source: string)
    requires coarse > 0
    ensures Label(out, symbol, source) == Label(Absorb(out, running, coarse), symbol, source) <==> AddsNothing(out, running, coarse)
  {
    hide FloorTs;
    AbsorbShape(out, running, coarse);
    var now := Absorb(out, running, coarse);
    hide Absorb;
    hide Label;
    var n := |out| - 1;
    if |out| > 0 && out[n].ts == FloorTs(running.ts, coarse) {
      MergeChangesExactly(out[n], running);
      forall i | 0 <= i < |out| ensures out[i].symbol == now[i].symbol && out[i].source == now[i].source {}
      assert out == now <==> out[n] == now[n] by {
        if out[n] == now[n] {
          forall i | 0 <= i < |out| ensures out[i] == now[i] { }
        }
      }
    }
    LabelDecides(out, now, symbol, source);
  }

  /** Once the clock is past the newest bucket nothing is dropped. */
  lemma LateClockKeepsAll(bars: seq<Bar>, frame: int, cutoff: int)
    requires frame > 0 && Ordered(bars) && (bars != [] ==> FloorTs(bars[|bars| - 1].ts, frame) < cutoff)
    ensures Complete(Buckets(bars, frame), cutoff) == Buckets(bars, frame)
  {
    hide FloorTs;
    BucketsAreOrdered(bars, frame);
    hide Buckets;
    var out := Buckets(bars, frame);
    if bars == [] {
      EmptyBuckets(frame);
    } else {
      forall i | 0 <= i < |out| ensures out[i].ts < cutoff {
        assert out[i].ts <= out[|out| - 1].ts;
      }
    }
    AllComplete(out, cutoff);
  }

  lemma EmittedAreOrdered(ticks: seq<Tick>, symbol: string, t: int, coarse: int)
    requires t > 0 && coarse > 0 && coarse % t == 0
    requires ticks != [] && OneSymbol(ticks, symbol) && Ordered(AsBars(ticks))
    ensures var out := Stream(ticks, t).1;
      Ordered(out) && (out != [] ==> FloorTs(out[|out| - 1].ts, coarse) <= FloorTs(ticks[|ticks| - 1].ts, coarse))
  {
    var (s, out) := Stream(ticks, t);
    var fine := Buckets(AsBars(ticks), t);
    StreamingEqualsBatch(ticks, symbol, t);
    BucketsAreOrdered(AsBars(ticks), t);
    hide Stream;
    hide Buckets;
    assert forall i :: 0 <= i < |out| ==> out[i] == fine[i];
    assert fine[|out|].ts == FloorTs(ticks[|ticks| - 1].ts, t);
    if out != [] {
      FloorTsIsMonotone(out[|out| - 1].ts, fine[|out|].ts, coarse);
      FloorComposes(ticks[|ticks| - 1].ts, t, coarse);
    }
  }

  /**
   Rolling the emitted bars up with the resampler gives what resampling the ticks
   themselves gives exactly when the clock has not left the coarse bucket of the
   newest tick, or the running bar has no volume, no new extreme and no new close
   in the bucket the emitted bars end with.  A late clock loses the running volume.
   */
  lemma RollingUpTheStream(ticks: seq<Tick>, symbol: string, t: int, coarse: int, source: string, now: int)
    requires t > 0 && coarse > 0 && coarse % t == 0
    requires ticks != [] && OneSymbol(ticks, symbol) && Ordered(AsBars(ticks))
    ensures
      var (s, out) := Stream(ticks, t);
      var rolled, direct := Resample(out, coarse, source, now), Resample(AsBars(ticks), coarse, source, now);
      var late := FloorTs(now, coarse) > FloorTs(ticks[|ticks| - 1].ts, coarse);
      && (rolled == direct <==> !late || AddsNothing(Buckets(out, coarse), BuildBar(symbol, s), coarse))
      && Total(direct) == Total(rolled) + (if late then s.volume else 0.0)
  {
    hide *;
    var (s, out) := Stream(ticks, t);
    var bars, running, cutoff := AsBars(ticks), BuildBar(symbol, s), FloorTs(now, coarse);
    TicksAsBars(ticks, symbol);
    BuiltBar(symbol, s);
    RunningBarIsMissing(ticks, symbol, t, coarse);
    StreamKeepsSymbol(ticks, symbol, t);
    EmittedAreOrdered(ticks, symbol, t, coarse);
    ResampleIsLabelled(out, coarse, symbol, source, now);
    ResampleIsLabelled(bars, coarse, symbol, source, now);
    RolledUp(out, bars, running, symbol, source, coarse, cutoff);
  }

  lemma TicksAsBars(ticks: seq<Tick>, symbol: string)
    requires ticks != [] && OneSymbol(ticks, symbol)
    ensures var bars := AsBars(ticks);
      bars != [] && bars[0].symbol == symbol && bars[|bars| - 1].ts == ticks[|ticks| - 1].ts
  {
    assert ticks[0].symbol == symbol;
  }

  lemma BuiltBar(symbol: string, s: Running)
    requires s.Running?
    ensures BuildBar(symbol, s).volume == s.volume
  {
  }

  /** The same on the buckets: what the one missing bar changes once the incomplete are dropped. */
  lemma RolledUp(out: seq<Bar>, bars: seq<Bar>, running: Bar, symbol: string, source: string, coarse: int, cutoff: int)
    requires coarse > 0 && Ordered(out) && Ordered(bars) && bars != []
    requires Buckets(bars, coarse) == Absorb(Buckets(out, coarse), running, coarse)
    requires FloorTs(running.ts, coarse) == FloorTs(bars[|bars| - 1].ts, coarse)
    requires out != [] ==> FloorTs(out[|out| - 1].ts, coarse) <= FloorTs(running.ts, coarse)
    ensures
      var rolled := Label(Complete(Buckets(out, coarse), cutoff), symbol, source);
      var direct := Label(Complete(Buckets(bars, coarse), cutoff), symbol, source);
      var late := cutoff > FloorTs(running.ts, coarse);
      && (rolled == direct <==> !late || AddsNothing(Buckets(out, coarse), running, coarse))
      && Total(direct) == Total(rolled) + (if late then running.volume else 0.0)
  {
    hide *;
    AbsorbVolume(Buckets(out, coarse), running, coarse, cutoff);
    if FloorTs(running.ts, coarse) >= cutoff {
      LateBarIsDropped(Buckets(out, coarse), running, coarse, cutoff);
    } else {
      LateClockKeepsAll(out, coarse, cutoff);
      LateClockKeepsAll(bars, coarse, cutoff);
      AbsorbedIsSeen(Buckets(out, coarse), running, coarse, symbol, source);
    }
    LabelKeepsTotal(Complete(Buckets(out, coarse), cutoff), symbol, source);
    LabelKeepsTotal(Complete(Buckets(bars, coarse), cutoff), symbol, source);
  }

  /** Two ticks a minute apart, seen ten minutes after the first. */
  function TwoTicks(price: real, volume: real): seq<Tick>
  {
    [Tick(0, "s", 1.0, 1.0, "feed"), Tick(60 * SECOND, "s", price, volume, "feed")]
  }

  lemma TwoTicksStream(price: real, volume: real)
    ensures var (s, out) := Stream(TwoTicks(price, volume), 60);
      && s == Running(60 * SECOND, price, price, price, price, volume, "feed")
      && out == [Bar(0, "s", 1.0, 1.0, 1.0, 1.0, 1.0, "feed")]
    ensures OneSymbol(TwoTicks(price, volume), "s") && Ordered(AsBars(TwoTicks(price, volume)))
  {
    var ticks := TwoTicks(price, volume);
    assert ticks[..1] == [ticks[0]] && [ticks[0]][..0] == [];
    assert Stream([ticks[0]], 60) == (Running(0, 1.0, 1.0, 1.0, 1.0, 1.0, "feed"), []);
    assert FloorTs(60 * SECOND, 60) == 60 * SECOND;
  }

  /** The inputs of either kind: a late clock loses a traded minute and does not miss an idle one. */
  lemma LateClockInputs()
    ensures Resample(Stream(TwoTicks(2.0, 1.0), 60).1, 300, "r", 600 * SECOND)
            != Resample(AsBars(TwoTicks(2.0, 1.0)), 300, "r", 600 * SECOND)
    ensures Resample(Stream(TwoTicks(1.0, 0.0), 60).1, 300, "r", 600 * SECOND)
            == Resample(AsBars(TwoTicks(1.0, 0.0)), 300, "r", 600 * SECOND)
  {
    assert FloorTs(600 * SECOND, 300) == 600 * SECOND && FloorTs(60 * SECOND, 300) == 0 && FloorTs(0, 300) == 0;
    TwoTicksStream(2.0, 1.0);
    TwoTicksStream(1.0, 0.0);
    var first := Bar(0, "s", 1.0, 1.0, 1.0, 1.0, 1.0, "feed");
    assert [first][..0] == [];
    assert Buckets([first], 300) == [first];
    hide Stream;
    hide Resample;
    hide Buckets;
    RollingUpTheStream(TwoTicks(2.0, 1.0), "s", 60, 300, "r", 600 * SECOND);
    RollingUpTheStream(TwoTicks(1.0, 0.0), "s", 60, 300, "r", 600 * SECOND);
  }

  /** The aggregator with its caller-owned state. */
  class Aggregator {
    var state: Running

    constructor ()
      ensures state == NothingYet
    {
      state := NothingYet;
    }

    method IngestTick(t: Tick, frame: int) returns (bar: Emitted)
      requires frame > 0
      modifies this
      ensures (state, bar) == Ingest(old(state), t, frame)
      ensures IsIngested(old(state), t, frame, state, bar)
    {
      IngestExactly(state, t, frame);
      var bucket := FloorTs(t.ts, frame);
      bar := Nothing;
      if state.NothingYet? {
        state := SeedState(t, bucket);
        return;
      }
      if state.ts == bucket {
        state := state.(high := Max(state.high, t.last));
        state := state.(low := Min(state.low, t.last));
        state := state.(close := t.last);
        state := state.(volume := state.volume + t.volume);
        return;
      }
      bar := Emitted(BuildBar(t.symbol, state));
      state := NothingYet;
      state := SeedState(t, bucket);
    }
  }

  // ------------------------------------------------- the dictionary algorithm

  ghost predicate Ascending(s: seq<int>)
  {
    forall i, j :: 0 <= i < j < |s| ==> s[i] < s[j]
  }

  lemma SomeElement<T>(s: set<T>) returns (x: T)
    requires s != {}
    ensures x in s
  {
    x :| x in s;
  }

  lemma {:induction false} HasLeast(s: set<int>) returns (m: int)
    requires s != {}
    ensures m in s && forall k :: k in s ==> m <= k
  {
    m := SomeElement(s);
    var rest := s - {m};
    assert forall k :: k in s ==> k == m || k in rest;
    if rest != {} {
      var l := HasLeast(rest);
      if l < m { m := l; }
    }
  }

  /** Python's `sorted` on the keys of a dictionary. */
  method SortedKeys(keys: set<int>) returns (r: seq<int>)
    ensures Ascending(r)
    ensures forall k :: k in r <==> k in keys
  {
    r := [];
    var rest := keys;
    while rest != {}
      invariant rest <= keys
      invariant Ascending(r)
      invariant forall i, k :: 0 <= i < |r| && k in rest ==> r[i] < k
      invariant forall k :: k in keys <==> k in rest || k in r
      decreases |rest|
    {
      ghost var least := HasLeast(rest);
      var m :| m in rest && forall k :: k in rest ==> m <= k;
      r := r + [m];
      rest := rest - {m};
    }
  }

  lemma SharesHead(a: seq<int>, b: seq<int>)
    requires forall k :: k in a ==> k in b
    ensures |a| > 0 ==> a[0] in b
  {
    if |a| > 0 {
      var head := a[0];
      assert head in a;
    }
  }

  lemma {:induction false} AscendingIsUnique(a: seq<int>, b: seq<int>)
    requires Ascending(a) && Ascending(b) && forall k :: k in a <==> k in b
    ensures a == b
    decreases |a|
  {
    if a != [] && b != [] {
      var x, y := a[|a| - 1], b[|b| - 1];
      assert x in a && y in b;
      assert x == y;
      var a', b' := a[..|a| - 1], b[..|b| - 1];
      forall k ensures k in a' <==> k in b' {
        assert k in a' <==> k in a && k != x;
        assert k in b' <==> k in b && k != y;
      }
      AscendingIsUnique(a', b');
      assert a == a' + [x] && b == b' + [y];
    } else {
      SharesHead(a, b);
      SharesHead(b, a);
    }
  }

  /** The dictionary holds exactly the buckets met so far. */
  ghost predicate Holds(buckets: map<int, Bar>, out: seq<Bar>)
  {
    && (forall i :: 0 <= i < |out| ==> out[i].ts in buckets && buckets[out[i].ts] == out[i])
    && (forall k :: k in buckets ==> exists i :: 0 <= i < |out| && out[i].ts == k)
  }

  lemma AbsorbUpdates(buckets: map<int, Bar>, out: seq<Bar>, b: Bar, frame: int)
    requires frame > 0 && Holds(buckets, out) && StrictlyOrdered(out)
    requires out != [] ==> out[|out| - 1].ts <= FloorTs(b.ts, frame)
    ensures var key := FloorTs(b.ts, frame);
      Holds(buckets[key := if key in buckets then Merge(buckets[key], b) else Seed(b, frame)], Absorb(out, b, frame))
  {
    hide FloorTs;
    var key := FloorTs(b.ts, frame);
    AbsorbShape(out, b, frame);
    AbsorbKeepsOrder(out, b, frame);
    var now := Absorb(out, b, frame);
    hide Absorb;
    var next := buckets[key := if key in buckets then Merge(buckets[key], b) else Seed(b, frame)];
    if key in buckets {
      var i :| 0 <= i < |out| && out[i].ts == key;
      assert i == |out| - 1;
    }
    forall i | 0 <= i < |now| ensures now[i].ts in next && next[now[i].ts] == now[i] {
      if i < |now| - 1 { assert now[i] == out[i] && now[i].ts < now[|now| - 1].ts; }
    }
    forall k | k in next ensures exists i :: 0 <= i < |now| && now[i].ts == k {
      if k == key {
        assert now[|now| - 1].ts == k;
      } else {
        var i :| 0 <= i < |out| && out[i].ts == k;
        assert now[i] == out[i];
      }
    }
  }

  lemma EmptyDictionary(frame: int)
    requires frame > 0
    ensures Holds(map[], Buckets([], frame))
  {
  }

  /** The grouping loop over a dictionary, then the loop over its sorted keys. */
  method ResampleBarsUntil(bars: seq<Bar>, frame: int, source: string, now: int) returns (result: seq<Bar>)
    requires frame > 0 && Ordered(bars)
    ensures result == Resample(bars, frame, source, now)
    ensures IsResampled(bars, frame, source, now, result)
  {
    ResampledExactly(bars, frame, source, now);
    hide IsResampled;
    if bars == [] {
      return [];
    }
    var symbol := bars[0].symbol;
    var buckets := GroupBars(bars, frame, symbol, source);
    ghost var labelled := Label(bars, symbol, source);
    var lastComplete := FloorTs(now, frame);
    BucketsAreOrdered(labelled, frame);
    result := CompleteOnly(buckets, Buckets(labelled, frame), lastComplete);
  }

  method GroupBars(bars: seq<Bar>, frame: int, symbol: string, source: string) returns (buckets: map<int, Bar>)
    requires frame > 0 && Ordered(bars)
    ensures Holds(buckets, Buckets(Label(bars, symbol, source), frame))
  {
    hide FloorTs;
    hide Buckets;
    hide Holds;
    buckets := map[];
    ghost var labelled := Label(bars, symbol, source);
    EmptyDictionary(frame);
    assert labelled[..0] == [];
    var i := 0;
    while i < |bars|
      invariant 0 <= i <= |bars|
      invariant Holds(buckets, Buckets(labelled[..i], frame))
    {
      var bar := bars[i].(symbol := symbol, source := source);
      var key := FloorTs(bar.ts, frame);
      GroupingStep(labelled, i, buckets, frame);
      if key !in buckets {
        buckets := buckets[key := Seed(bar, frame)];
      } else {
        buckets := buckets[key := Merge(buckets[key], bar)];
      }
      i := i + 1;
    }
    assert labelled[..i] == labelled;
  }

  method CompleteOnly(buckets: map<int, Bar>, ghost out: seq<Bar>, lastComplete: int) returns (result: seq<Bar>)
    requires Holds(buckets, out) && StrictlyOrdered(out)
    ensures result == Complete(out, lastComplete)
  {
    var keys := SortedKeys(buckets.Keys);
    KeysAreTimes(buckets, out, keys);
    hide Complete;
    hide Holds;
    EmptyComplete(lastComplete);
    assert out[..0] == [];
    result := [];
    var i := 0;
    while i < |keys|
      invariant 0 <= i <= |keys|
      invariant result == Complete(out[..i], lastComplete)
    {
      CompleteOfAppend(out[..i], out[i], lastComplete);
      assert out[..i + 1] == out[..i] + [out[i]];
      if keys[i] < lastComplete {
        result := result + [buckets[keys[i]]];
      }
      i := i + 1;
    }
    assert out[..i] == out;
  }

  lemma GroupingStep(labelled: seq<Bar>, i: nat, buckets: map<int, Bar>, frame: int)
    requires frame > 0 && Ordered(labelled) && i < |labelled| && Holds(buckets, Buckets(labelled[..i], frame))
    ensures var key := FloorTs(labelled[i].ts, frame);
      Holds(buckets[key := if key in buckets then Merge(buckets[key], labelled[i]) else Seed(labelled[i], frame)],
            Buckets(labelled[..i + 1], frame))
  {
    var before := labelled[..i];
    assert labelled[..i + 1] == before + [labelled[i]];
    BucketsOfAppend(before, labelled[i], frame);
    BucketsAreOrdered(before, frame);
    if i > 0 { FloorTsIsMonotone(labelled[i - 1].ts, labelled[i].ts, frame); }
    AbsorbUpdates(buckets, Buckets(before, frame), labelled[i], frame);
  }

  function TimesOf(out: seq<Bar>): (times: seq<int>)
    ensures |times| == |out| && forall i :: 0 <= i < |out| ==> times[i] == out[i].ts
  {
    seq(|out|, i requires 0 <= i < |out| => out[i].ts)
  }

  lemma HeldTimes(buckets: map<int, Bar>, out: seq<Bar>, k: int)
    requires Holds(buckets, out)
    ensures k in TimesOf(out) <==> k in buckets
  {
    var times := TimesOf(out);
    if k in times { var i :| 0 <= i < |times| && times[i] == k; }
    if k in buckets {
      var i :| 0 <= i < |out| && out[i].ts == k;
      assert times[i] == k;
    }
  }

  lemma TimesAscend(out: seq<Bar>)
    requires StrictlyOrdered(out)
    ensures Ascending(TimesOf(out))
  {
  }

  lemma KeysAreTimes(buckets: map<int, Bar>, out: seq<Bar>, keys: seq<int>)
    requires Holds(buckets, out) && StrictlyOrdered(out) && Ascending(keys)
    requires forall k :: k in keys <==> k in buckets.Keys
    ensures |keys| == |out| && forall i :: 0 <= i < |keys| ==> keys[i] == out[i].ts && buckets[keys[i]] == out[i]
  {
    TimesAscend(out);
    hide Ascending;
    hide StrictlyOrdered;
    forall k ensures k in TimesOf(out) <==> k in keys { HeldTimes(buckets, out, k); }
    AscendingIsUnique(TimesOf(out), keys);
  }
}
