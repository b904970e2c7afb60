/**
 The one-pass backtest engine (backtest/engine.py) over arbitrary closes and
 volumes: sliding average, position machine, equity curve and running drawdown,
 each against a definition that looks at the whole series.
 */
module Backtest {

  const PERIOD := 20
  const CAPITAL := 100000.0

  // ----------------------------------------------------------- moving average

  function Sum(s: seq<real>): real
  {
    if s == [] then 0.0 else Sum(s[..|s| - 1]) + s[|s| - 1]
  }

  datatype Average = NoAverage | Average(value: real)

  /** A sum spread over `n` bars. */
  function PerBar(total: real, n: nat): real
    requires n >= 1
  {
    total / (n as real)
  }

  /** The mean of the last `period` values up to index `i`. */
  function MeanAt(values: seq<real>, period: nat, i: nat): Average
    requires period >= 1 && i < |values|
  {
    if i + 1 < period then NoAverage else Average(PerBar(Sum(values[i + 1 - period..i + 1]), period))
  }

  lemma {:induction false} SumOfCons(x: real, s: seq<real>)
    ensures Sum([x] + s) == x + Sum(s)
  {
    if s == [] {
      assert [x] + s == [x];
      assert [x][..0] == [];
    } else {
      assert ([x] + s)[..|s|] == [x] + s[..|s| - 1];
      SumOfCons(x, s[..|s| - 1]);
    }
  }

  lemma WindowSlides(values: seq<real>, period: nat, i: nat)
    requires 1 <= period <= i < |values|
    ensures Sum(values[i + 1 - period..i + 1]) == Sum(values[i - period..i]) + (values[i] - values[i - period])
  {
    var middle := values[i + 1 - period..i];
    assert values[i - period..i] == [values[i - period]] + middle;
    SumOfCons(values[i - period], middle);
    assert values[i + 1 - period..i + 1][..period - 1] == middle;
  }

  /** The sliding window yields the mean of the last `period` values at every index. */
  method Sma(values: seq<real>, period: nat) returns (out: seq<Average>)
    requires period >= 1
    ensures |out| == |values|
    ensures forall i :: 0 <= i < |values| ==> out[i] == MeanAt(values, period, i)
  {
    hide Sum;
    hide PerBar;
    out := seq(|values|, _ => NoAverage);
    if |values| < period {
      return;
    }
    var window := Sum(values[..period]);
    out := out[period - 1 := Average(PerBar(window, period))];
    assert values[0..period] == values[..period];
    var i := period;
    while i < |values|
      invariant period <= i <= |values| && |out| == |values|
      invariant window == Sum(values[i - period..i])
      invariant forall k :: 0 <= k < |values| ==> out[k] == if k < i then MeanAt(values, period, k) else NoAverage
    {
      WindowSlides(values, period, i);
      window := window + (values[i] - values[i - period]);
      out := out[i := Average(PerBar(window, period))];
      i := i + 1;
    }
  }

  // --------------------------------------------------------- the trading rules

  datatype Side = Long | Short

  datatype Trade = Trade(side: Side, entry: nat, exit: nat, entryPrice: real, exitPrice: real, pnl: real)

  datatype Position = Flat | Holding(side: Side, entry: nat, price: real)

  /** The bars and the stop distance of one run. */
  datatype Market = Market(closes: seq<real>, volumes: seq<real>, stop: real)

  ghost predicate IsMarket(m: Market)
  {
    |m.volumes| == |m.closes| && forall i :: 0 <= i < |m.closes| ==> m.closes[i] > 0.0
  }

  function Mean20(m: Market, i: nat): real
    requires PERIOD - 1 <= i < |m.closes|
  {
    PerBar(Sum(m.closes[i + 1 - PERIOD..i + 1]), PERIOD)
  }

  function VolumeAverage(m: Market): real
  {
    if |m.volumes| >= PERIOD then PerBar(Sum(m.volumes[..PERIOD]), PERIOD) else 0.0
  }

  /** A flat book opens at bar `i`: volume above the average of the first twenty, close off the mean. */
  predicate Opens(m: Market, i: nat)
    requires PERIOD <= i < |m.closes| && |m.volumes| == |m.closes|
  {
    m.volumes[i] > VolumeAverage(m) && m.closes[i] != Mean20(m, i)
  }

  function OpeningSide(m: Market, i: nat): Side
    requires PERIOD <= i < |m.closes|
  {
    if m.closes[i] > Mean20(m, i) then Long else Short
  }

  function Abs(x: real): real
  {
    if x < 0.0 then -x else x
  }

  predicate StopHit(stop: real, price: real, close: real)
    requires price > 0.0
  {
    Abs(close - price) / price >= stop
  }

  /** A position opened at `price` closes at bar `i`: the stop is hit or the close crosses back. */
  predicate Closes(m: Market, side: Side, price: real, i: nat)
    requires PERIOD <= i < |m.closes| && price > 0.0
  {
    || StopHit(m.stop, price, m.closes[i])
    || (side.Long? && m.closes[i] < Mean20(m, i))
    || (side.Short? && m.closes[i] > Mean20(m, i))
  }

  function Pnl(side: Side, entry: real, exit: real): real
    requires entry > 0.0
  {
    if side.Long? then (exit - entry) / entry else (entry - exit) / entry
  }

  /** The first bar at which trade `j` may open. */
  function FlatSince(trades: seq<Trade>, j: nat): (r: nat)
    requires j <= |trades|
    ensures r >= PERIOD
  {
    if j > 0 && trades[j - 1].exit >= PERIOD then trades[j - 1].exit + 1 else PERIOD
  }

  /** No bar of `from..to` opens a position. */
  ghost predicate QuietBetween(m: Market, from: nat, to: nat)
    requires IsMarket(m) && PERIOD <= from && to <= |m.closes|
  {
    forall i :: from <= i < to ==> !Opens(m, i)
  }

  /** The position opened at `entry` is still open before bar `to`. */
  ghost predicate HeldBetween(m: Market, entry: nat, to: nat)
    requires IsMarket(m) && PERIOD <= entry < |m.closes| && to <= |m.closes|
  {
    forall i :: entry < i < to ==> !Closes(m, OpeningSide(m, entry), m.closes[entry], i)
  }

  ghost predicate IsTrade(m: Market, t: Trade, since: nat, n: nat)
    requires IsMarket(m) && PERIOD <= since && n <= |m.closes|
  {
    && since <= t.entry < t.exit < n
    && QuietBetween(m, since, t.entry) && Opens(m, t.entry)
    && t.side == OpeningSide(m, t.entry) && t.entryPrice == m.closes[t.entry]
    && HeldBetween(m, t.entry, t.exit) && Closes(m, t.side, t.entryPrice, t.exit)
    && t.exitPrice == m.closes[t.exit] && t.pnl == Pnl(t.side, t.entryPrice, t.exitPrice)
  }

  ghost predicate TradesFollow(m: Market, trades: seq<Trade>, n: nat)
    requires IsMarket(m) && n <= |m.closes|
  {
    forall j :: 0 <= j < |trades| ==> IsTrade(m, trades[j], FlatSince(trades, j), n)
  }

  ghost predicate PositionFollows(m: Market, trades: seq<Trade>, position: Position, n: nat)
    requires IsMarket(m) && n <= |m.closes|
  {
    var since := FlatSince(trades, |trades|);
    match position
    case Flat => QuietBetween(m, since, n)
    case Holding(side, entry, price) =>
      && since <= entry < n
      && QuietBetween(m, since, entry) && Opens(m, entry)
      && side == OpeningSide(m, entry) && price == m.closes[entry]
      && HeldBetween(m, entry, n)
  }

  lemma TradeBounds(m: Market, t: Trade, since: nat, n: nat)
    requires IsMarket(m) && PERIOD <= since && n <= |m.closes| && IsTrade(m, t, since, n)
    ensures since <= t.entry < t.exit < n
  {
  }

  /** Trades are disjoint and ordered: each opens after the one before it has closed. */
  lemma {:induction false} TradesAreDisjoint(m: Market, trades: seq<Trade>, n: nat, i: nat, j: nat)
    requires IsMarket(m) && n <= |m.closes| && TradesFollow(m, trades, n)
    requires i < j < |trades|
    ensures trades[i].entry < trades[i].exit < trades[j].entry < trades[j].exit
    decreases j
  {
    hide IsTrade;
    TradeBounds(m, trades[j], FlatSince(trades, j), n);
    TradeBounds(m, trades[j - 1], FlatSince(trades, j - 1), n);
    if i < j - 1 { TradesAreDisjoint(m, trades, n, i, j - 1); }
  }

  lemma EntryIsFirst(m: Market, s: Trade, t: Trade, since: nat, n: nat)
    requires IsMarket(m) && PERIOD <= since && n <= |m.closes|
    requires IsTrade(m, s, since, n) && IsTrade(m, t, since, n)
    ensures t.entry <= s.entry
  {
    hide Opens;
    hide Closes;
    hide OpeningSide;
    hide Pnl;
    assert Opens(m, s.entry);
    assert QuietBetween(m, since, t.entry);
  }

  lemma ExitIsFirst(m: Market, s: Trade, t: Trade, since: nat, n: nat)
    requires IsMarket(m) && PERIOD <= since && n <= |m.closes|
    requires IsTrade(m, s, since, n) && IsTrade(m, t, since, n) && s.entry == t.entry
    ensures t.exit <= s.exit
  {
    hide Opens;
    hide Closes;
    hide OpeningSide;
    hide Pnl;
    assert Closes(m, OpeningSide(m, t.entry), m.closes[t.entry], s.exit);
    assert HeldBetween(m, t.entry, t.exit);
  }

  /** A trade is fixed by the bar from which its predecessor left the book flat. */
  lemma TradeIsUnique(m: Market, s: Trade, t: Trade, since: nat, n: nat)
    requires IsMarket(m) && PERIOD <= since && n <= |m.closes|
    requires IsTrade(m, s, since, n) && IsTrade(m, t, since, n)
    ensures s == t
  {
    hide Opens;
    hide Closes;
    hide OpeningSide;
    EntryIsFirst(m, s, t, since, n);
    EntryIsFirst(m, t, s, since, n);
    ExitIsFirst(m, s, t, since, n);
    ExitIsFirst(m, t, s, since, n);
  }

  lemma {:induction false} StoriesAgree(m: Market, a: seq<Trade>, b: seq<Trade>, n: nat, j: nat)
    requires IsMarket(m) && n <= |m.closes| && TradesFollow(m, a, n) && TradesFollow(m, b, n)
    requires j <= |a| && j <= |b|
    ensures a[..j] == b[..j]
    decreases j
  {
    hide IsTrade;
    if j > 0 {
      StoriesAgree(m, a, b, n, j - 1);
      SinceAgrees(a, b, j - 1);
      TradeIsUnique(m, a[j - 1], b[j - 1], FlatSince(a, j - 1), n);
      assert a[..j] == a[..j - 1] + [a[j - 1]] && b[..j] == b[..j - 1] + [b[j - 1]];
    }
  }

  lemma SinceAgrees(a: seq<Trade>, b: seq<Trade>, j: nat)
    requires j <= |a| && j <= |b| && a[..j] == b[..j]
    ensures FlatSince(a, j) == FlatSince(b, j)
  {
    if j > 0 { assert a[..j][j - 1] == a[j - 1] && b[..j][j - 1] == b[j - 1]; }
  }

  lemma EntryQuiet(m: Market, from: nat, to: nat, entry: nat)
    requires IsMarket(m) && PERIOD <= from <= entry < |m.closes|
    ensures to <= |m.closes| && QuietBetween(m, from, to) && Opens(m, entry) ==> to <= entry
  {
    hide Opens;
  }

  /** No trade fits after the last one of a run. */
  lemma NoRoomAfter(m: Market, a: seq<Trade>, p: Position, t: Trade, n: nat)
    requires IsMarket(m) && n <= |m.closes| && PositionFollows(m, a, p, n)
    ensures !IsTrade(m, t, FlatSince(a, |a|), n)
  {
    hide Opens;
    hide Closes;
    hide OpeningSide;
    hide Pnl;
    hide FlatSince;
    var since := FlatSince(a, |a|);
    match p
    case Flat =>
      assert QuietBetween(m, since, n);
    case Holding(side, entry, price) =>
      assert QuietBetween(m, since, entry) && HeldBetween(m, entry, n);
      assert since <= t.entry < entry ==> !Opens(m, t.entry);
      assert entry < t.exit < n ==> !Closes(m, OpeningSide(m, entry), m.closes[entry], t.exit);
      EntryQuiet(m, since, t.entry, entry);
  }

  /** A finished list of trades has no room for one more: the rules admit one story only. */
  lemma TradesAreComplete(m: Market, a: seq<Trade>, p: Position, b: seq<Trade>, n: nat)
    requires IsMarket(m) && n <= |m.closes|
    requires TradesFollow(m, a, n) && PositionFollows(m, a, p, n) && TradesFollow(m, b, n)
    ensures |b| <= |a| && b == a[..|b|]
  {
    hide IsTrade;
    hide PositionFollows;
    if |b| > |a| {
      StoriesAgree(m, a, b, n, |a|);
      SinceAgrees(a, b, |a|);
      NoRoomAfter(m, a, p, b[|a|], n);
      assert false;
    }
    StoriesAgree(m, a, b, n, |b|);
    assert b[..|b|] == b;
  }

  // ----------------------------------------------------- the documented rules

  /** The average of the twenty volumes up to bar `i`, which the description compares with. */
  function RollingVolume(m: Market, i: nat): real
    requires IsMarket(m) && PERIOD - 1 <= i < |m.closes|
  {
    PerBar(Sum(m.volumes[i + 1 - PERIOD..i + 1]), PERIOD)
  }

  /** The close stands on the side of the mean that `side` trades on. */
  predicate OnSide(m: Market, i: nat, side: Side)
    requires PERIOD - 1 <= i < |m.closes|
  {
    if side.Long? then m.closes[i] > Mean20(m, i) else m.closes[i] < Mean20(m, i)
  }

  /** The close crosses to that side at bar `i`. */
  predicate Crosses(m: Market, i: nat, side: Side)
    requires PERIOD <= i < |m.closes|
  {
    OnSide(m, i, side) && !OnSide(m, i - 1, side)
  }

  /** The entry rule as the engine's description words it. */
  predicate OpensAsDescribed(m: Market, i: nat)
    requires IsMarket(m) && PERIOD <= i < |m.closes|
  {
    m.volumes[i] > RollingVolume(m, i) && (Crosses(m, i, Long) || Crosses(m, i, Short))
  }

  /** An entry is one of the described kind exactly when the bar before did not stand on its side already and the volume is above the rolling average too. */
  lemma EntryIsDescribedExactly(m: Market, i: nat)
    requires IsMarket(m) && PERIOD <= i < |m.closes| && Opens(m, i)
    ensures OpensAsDescribed(m, i)
            <==> m.volumes[i] > RollingVolume(m, i) && !OnSide(m, i - 1, OpeningSide(m, i))
  {
    hide Mean20;
    hide RollingVolume;
    hide VolumeAverage;
  }

  /** The two rules agree at a bar exactly when the close is on the mean or their remaining conditions agree. */
  lemma EntryRulesAgreeExactly(m: Market, i: nat)
    requires IsMarket(m) && PERIOD <= i < |m.closes|
    ensures (Opens(m, i) <==> OpensAsDescribed(m, i))
            <==> || m.closes[i] == Mean20(m, i)
                 || (m.volumes[i] > VolumeAverage(m)
                     <==> m.volumes[i] > RollingVolume(m, i) && !OnSide(m, i - 1, OpeningSide(m, i)))
  {
    hide Mean20;
    hide RollingVolume;
    hide VolumeAverage;
  }

  // ------------------------------------------------------ runs under either rule

  /** What a run has done so far. */
  datatype Story = Story(trades: seq<Trade>, position: Position)

  /** One bar under rules that open, or close, here. */
  function OnBar(m: Market, i: nat, s: Story, opens: bool, closes: bool): Story
    requires IsMarket(m) && PERIOD <= i < |m.closes| && (s.position.Holding? ==> s.position.price > 0.0)
  {
    match s.position
    case Flat => if opens then Story(s.trades, Holding(OpeningSide(m, i), i, m.closes[i])) else s
    case Holding(side, entry, price) =>
      if closes then Story(s.trades + [Trade(side, entry, i, price, m.closes[i], Pnl(side, price, m.closes[i]))], Flat)
      else s
  }

  /** The run of the code over the bars before `n`. */
  function Coded(m: Market, n: nat): (s: Story)
    requires IsMarket(m) && n <= |m.closes|
    ensures s.position.Holding? ==> s.position.price > 0.0
  {
    if n <= PERIOD then Story([], Flat)
    else
      var s := Coded(m, n - 1);
      OnBar(m, n - 1, s, Opens(m, n - 1), s.position.Holding? && Closes(m, s.position.side, s.position.price, n - 1))
  }

  function Opposite(side: Side): Side
  {
    if side.Long? then Short else Long
  }

  /** The exit rule as the description words it. */
  predicate ClosesAsDescribed(m: Market, side: Side, price: real, i: nat)
    requires PERIOD <= i < |m.closes| && price > 0.0
  {
    StopHit(m.stop, price, m.closes[i]) || Crosses(m, i, Opposite(side))
  }

  /** The run of the description over the bars before `n`. */
  function Described(m: Market, n: nat): (s: Story)
    requires IsMarket(m) && n <= |m.closes|
    ensures s.position.Holding? ==> s.position.price > 0.0
  {
    if n <= PERIOD then Story([], Flat)
    else
      var s := Described(m, n - 1);
      OnBar(m, n - 1, s, OpensAsDescribed(m, n - 1),
            s.position.Holding? && ClosesAsDescribed(m, s.position.side, s.position.price, n - 1))
  }

  lemma CodedStep(m: Market, i: nat)
    requires IsMarket(m) && PERIOD <= i < |m.closes|
    ensures var s := Coded(m, i);
      Coded(m, i + 1) == OnBar(m, i, s, Opens(m, i), s.position.Holding? && Closes(m, s.position.side, s.position.price, i))
  {
  }

  lemma DescribedStep(m: Market, i: nat)
    requires IsMarket(m) && PERIOD <= i < |m.closes|
    ensures var s := Described(m, i);
      Described(m, i + 1) == OnBar(m, i, s, OpensAsDescribed(m, i),
                                   s.position.Holding? && ClosesAsDescribed(m, s.position.side, s.position.price, i))
  {
  }

  lemma OpenedOnItsSide(m: Market, i: nat)
    requires IsMarket(m) && PERIOD <= i < |m.closes| && OpensAsDescribed(m, i)
    ensures !OnSide(m, i, Opposite(OpeningSide(m, i)))
  {
    hide Mean20;
    hide RollingVolume;
  }

  /** While the description holds a position, the close has not yet been on the other side. */
  lemma {:induction false} HeldOnItsSide(m: Market, n: nat)
    requires IsMarket(m) && n <= |m.closes| && Described(m, n).position.Holding?
    ensures n > PERIOD && !OnSide(m, n - 1, Opposite(Described(m, n).position.side))
    decreases n
  {
    hide Mean20;
    hide OnSide;
    hide OpensAsDescribed;
    hide StopHit;
    hide OpeningSide;
    var i := n - 1;
    DescribedStep(m, i);
    if Described(m, i).position.Holding? {
      HeldOnItsSide(m, i);
    } else {
      OpenedOnItsSide(m, i);
    }
  }

  /** So the coded exit, by side, and the described one, by cross, are one. */
  lemma ExitsAgree(m: Market, i: nat)
    requires IsMarket(m) && PERIOD <= i < |m.closes| && Described(m, i).position.Holding?
    ensures var p := Described(m, i).position;
      Closes(m, p.side, p.price, i) == ClosesAsDescribed(m, p.side, p.price, i)
  {
    HeldOnItsSide(m, i);
    hide Mean20;
    hide StopHit;
    hide Described;
  }

  /** The rules open alike at every bar before `n` at which the coded book is flat. */
  ghost predicate RulesAgree(m: Market, n: nat)
    requires IsMarket(m) && n <= |m.closes|
  {
    forall i :: PERIOD <= i < n && Coded(m, i).position.Flat? ==> (Opens(m, i) <==> OpensAsDescribed(m, i))
  }

  lemma {:induction false} AgreeingRulesAgree(m: Market, n: nat)
    requires IsMarket(m) && n <= |m.closes| && RulesAgree(m, n)
    ensures Coded(m, n) == Described(m, n)
    decreases n
  {
    hide Opens;
    hide OpensAsDescribed;
    hide Closes;
    hide ClosesAsDescribed;
    if n > PERIOD {
      var i := n - 1;
      assert RulesAgree(m, i);
      AgreeingRulesAgree(m, i);
      CodedStep(m, i);
      DescribedStep(m, i);
      if Described(m, i).position.Holding? { ExitsAgree(m, i); }
    }
  }

  /** A position was opened at bar `i`. */
  ghost predicate EnteredAt(s: Story, i: nat)
  {
    (s.position.Holding? && s.position.entry == i) || exists j :: 0 <= j < |s.trades| && s.trades[j].entry == i
  }

  /** A later bar neither makes nor unmakes an entry at bar `i`. */
  lemma LaterBarKeepsEntry(m: Market, k: nat, s: Story, opens: bool, closes: bool, i: nat)
    requires IsMarket(m) && PERIOD <= k < |m.closes| && (s.position.Holding? ==> s.position.price > 0.0) && i != k
    ensures EnteredAt(OnBar(m, k, s, opens, closes), i) <==> EnteredAt(s, i)
  {
    hide OpeningSide;
    hide Pnl;
    var next := OnBar(m, k, s, opens, closes);
    assert forall j :: 0 <= j < |s.trades| ==> next.trades[j] == s.trades[j];
    if s.position.Holding? && closes { assert next.trades[|s.trades|].entry == s.position.entry; }
  }

  lemma {:induction false} EntriesAreKept(m: Market, n: nat, i: nat)
    requires IsMarket(m) && n <= |m.closes| && i < n
    ensures EnteredAt(Coded(m, n), i) <==> EnteredAt(Coded(m, i + 1), i)
    ensures EnteredAt(Described(m, n), i) <==> EnteredAt(Described(m, i + 1), i)
    decreases n
  {
    hide EnteredAt;
    hide OnBar;
    hide Opens;
    hide OpensAsDescribed;
    hide Closes;
    hide ClosesAsDescribed;
    if i + 1 < n {
      EntriesAreKept(m, n - 1, i);
      if n > PERIOD {
        CodedStep(m, n - 1);
        DescribedStep(m, n - 1);
        var s, d := Coded(m, n - 1), Described(m, n - 1);
        LaterBarKeepsEntry(m, n - 1, s, Opens(m, n - 1),
                           s.position.Holding? && Closes(m, s.position.side, s.position.price, n - 1), i);
        LaterBarKeepsEntry(m, n - 1, d, OpensAsDescribed(m, n - 1),
                           d.position.Holding? && ClosesAsDescribed(m, d.position.side, d.position.price, n - 1), i);
      }
    }
  }

  lemma {:induction false} NoEntryYet(m: Market, n: nat, i: nat)
    requires IsMarket(m) && n <= |m.closes| && n <= i
    ensures !EnteredAt(Coded(m, n), i)
    decreases n
  {
    hide EnteredAt;
    hide OnBar;
    hide Opens;
    hide Closes;
    if n > PERIOD {
      NoEntryYet(m, n - 1, i);
      CodedStep(m, n - 1);
      var s := Coded(m, n - 1);
      LaterBarKeepsEntry(m, n - 1, s, Opens(m, n - 1),
                         s.position.Holding? && Closes(m, s.position.side, s.position.price, n - 1), i);
    } else {
      NothingEntered(i);
    }
  }

  lemma NothingEntered(i: nat)
    ensures !EnteredAt(Story([], Flat), i)
  {
  }

  /** A flat book enters at a bar exactly when its rule opens there. */
  lemma FlatBookEnters(m: Market, i: nat, s: Story, opens: bool, closes: bool)
    requires IsMarket(m) && PERIOD <= i < |m.closes| && s.position.Flat? && !EnteredAt(s, i)
    ensures EnteredAt(OnBar(m, i, s, opens, closes), i) <==> opens
  {
    hide OpeningSide;
  }

  lemma {:induction false} FirstDisagreement(m: Market, n: nat) returns (i: nat)
    requires IsMarket(m) && n <= |m.closes| && !RulesAgree(m, n)
    ensures PERIOD <= i < n && RulesAgree(m, i)
    ensures Coded(m, i).position.Flat? && !(Opens(m, i) <==> OpensAsDescribed(m, i))
    decreases n
  {
    hide Opens;
    hide OpensAsDescribed;
    hide Coded;
    if RulesAgree(m, n - 1) {
      i := n - 1;
    } else {
      i := FirstDisagreement(m, n - 1);
    }
  }

  /**
   The run of the code and the run of the description, trades and open position, are
   the same exactly when their entry rules agree at every bar at which the book is flat.
   */
  lemma RunsAgreeExactly(m: Market, n: nat)
    requires IsMarket(m) && n <= |m.closes|
    ensures Coded(m, n) == Described(m, n) <==> RulesAgree(m, n)
  {
    hide Opens;
    hide OpensAsDescribed;
    hide Coded;
    hide Described;
    hide OnBar;
    hide Closes;
    hide ClosesAsDescribed;
    if RulesAgree(m, n) {
      AgreeingRulesAgree(m, n);
    } else {
      var i := FirstDisagreement(m, n);
      hide RulesAgree;
      AgreeingRulesAgree(m, i);
      var s := Coded(m, i);
      CodedStep(m, i);
      DescribedStep(m, i);
      NoEntryYet(m, i, i);
      FlatBookEnters(m, i, s, Opens(m, i), false);
      FlatBookEnters(m, i, s, OpensAsDescribed(m, i), false);
      EntriesAreKept(m, n, i);
    }
  }

  lemma {:induction false} SumOfConcat(a: seq<real>, b: seq<real>)
    ensures Sum(a + b) == Sum(a) + Sum(b)
    decreases |b|
  {
    if b == [] {
      assert a + b == a;
    } else {
      assert (a + b)[..|a + b| - 1] == a + b[..|b| - 1];
      SumOfConcat(a, b[..|b| - 1]);
    }
  }

  lemma PerBarOrders(x: real, y: real, n: nat)
    requires n >= 1
    ensures PerBar(x, n) == PerBar(y, n) <==> x == y
  {
    var p, q := PerBar(x, n), PerBar(y, n);
    assert p * n as real == x && q * n as real == y;
  }

  /** The average of the first twenty volumes is the rolling one exactly when what has come in since weighs what has dropped out. */
  lemma VolumeAveragesAgreeExactly(m: Market, i: nat)
    requires IsMarket(m) && PERIOD - 1 <= i < |m.closes|
    ensures RollingVolume(m, i) == VolumeAverage(m)
            <==> Sum(m.volumes[PERIOD..i + 1]) == Sum(m.volumes[..i + 1 - PERIOD])
  {
    var v, dropped := m.volumes, i + 1 - PERIOD;
    assert v[..i + 1] == v[..PERIOD] + v[PERIOD..i + 1] == v[..dropped] + v[dropped..i + 1];
    SumOfConcat(v[..PERIOD], v[PERIOD..i + 1]);
    SumOfConcat(v[..dropped], v[dropped..i + 1]);
    PerBarOrders(Sum(v[dropped..i + 1]), Sum(v[..PERIOD]), PERIOD);
  }

  /** The exit rule needs no such correction: a trade that closes without its stop closes on a cross. */
  lemma ExitIsACross(m: Market, t: Trade, since: nat, n: nat)
    requires IsMarket(m) && PERIOD <= since && n <= |m.closes| && IsTrade(m, t, since, n)
    ensures StopHit(m.stop, t.entryPrice, t.exitPrice) || Crosses(m, t.exit, if t.side.Long? then Short else Long)
  {
    hide Mean20;
    hide StopHit;
    hide Pnl;
    hide VolumeAverage;
    if t.entry < t.exit - 1 {
      assert !Closes(m, OpeningSide(m, t.entry), m.closes[t.entry], t.exit - 1);
    }
  }

  lemma {:induction false} SumOfEqual(s: seq<real>, x: real)
    requires forall i :: 0 <= i < |s| ==> s[i] == x
    ensures Sum(s) == Repeated(x, |s|)
    decreases |s|
  {
    if s != [] {
      SumOfEqual(s[..|s| - 1], x);
      assert Repeated(x, |s|) == Repeated(x, |s| - 1) + x;
    }
  }

  function Repeated(x: real, n: nat): real
  {
    x * n as real
  }

  /** A run of equal values followed by a second run. */
  lemma SumOfTwoRuns(s: seq<real>, k: nat, x: real, y: real)
    requires k <= |s|
    requires forall i :: 0 <= i < |s| ==> s[i] == if i < k then x else y
    ensures Sum(s) == Repeated(x, k) + Repeated(y, |s| - k)
  {
    hide Repeated;
    assert s == s[..k] + s[k..];
    SumOfConcat(s[..k], s[k..]);
    SumOfEqual(s[..k], x);
    SumOfEqual(s[k..], y);
  }

  /** A close that stays above its mean: the engine enters where the description sees no cross. */
  lemma StayingAboveIsEntered() returns (m: Market)
    ensures IsMarket(m) && |m.closes| == PERIOD + 1
    ensures Opens(m, PERIOD) && m.volumes[PERIOD] > RollingVolume(m, PERIOD) && !OpensAsDescribed(m, PERIOD)
    ensures Coded(m, PERIOD + 1) != Described(m, PERIOD + 1)
  {
    var closes := seq(PERIOD + 1, i => if i < PERIOD - 1 then 1.0 else 2.0);
    var volumes := seq(PERIOD + 1, i => if i < PERIOD then 1.0 else 2.0);
    m := Market(closes, volumes, 1.0);
    SumOfTwoRuns(closes[0..PERIOD], PERIOD - 1, 1.0, 2.0);
    SumOfTwoRuns(closes[1..PERIOD + 1], PERIOD - 2, 1.0, 2.0);
    SumOfEqual(volumes[..PERIOD], 1.0);
    SumOfTwoRuns(volumes[1..PERIOD + 1], PERIOD - 1, 1.0, 2.0);
    hide Sum;
    assert Mean20(m, PERIOD - 1) < 2.0 && Mean20(m, PERIOD) < 2.0;
    assert VolumeAverage(m) < 2.0 && RollingVolume(m, PERIOD) < 2.0;
    assert Coded(m, PERIOD).position.Flat?;
    hide Coded;
    hide Described;
    hide Opens;
    hide OpensAsDescribed;
    assert !RulesAgree(m, PERIOD + 1);
    RunsAgreeExactly(m, PERIOD + 1);
  }

  /** A quiet market after a loud start: the engine misses an entry that the description sees. */
  lemma LoudStartIsMissed() returns (m: Market)
    ensures IsMarket(m) && |m.closes| == 2 * PERIOD + 1
    ensures OpensAsDescribed(m, 2 * PERIOD) && !Opens(m, 2 * PERIOD)
  {
    var closes := seq(2 * PERIOD + 1, i => if i < 2 * PERIOD then 1.0 else 2.0);
    var volumes := seq(2 * PERIOD + 1, i => if i < PERIOD then 3.0 else if i < 2 * PERIOD then 1.0 else 2.0);
    m := Market(closes, volumes, 1.0);
    SumOfEqual(closes[PERIOD..2 * PERIOD], 1.0);
    SumOfTwoRuns(closes[PERIOD + 1..2 * PERIOD + 1], PERIOD - 1, 1.0, 2.0);
    SumOfEqual(volumes[..PERIOD], 3.0);
    SumOfTwoRuns(volumes[PERIOD + 1..2 * PERIOD + 1], PERIOD - 1, 1.0, 2.0);
    hide Sum;
    assert Mean20(m, 2 * PERIOD - 1) == 1.0 && Mean20(m, 2 * PERIOD) < 2.0;
    assert VolumeAverage(m) == 3.0 && RollingVolume(m, 2 * PERIOD) < 2.0;
  }

  // ---------------------------------------------------------------- the curve

  /** Following the price: the capital scaled by the close relative to the twentieth one. */
  function EquityAt(m: Market, k: nat): real
    requires PERIOD - 1 + k < |m.closes| && m.closes[PERIOD - 1] > 0.0
  {
    CAPITAL * m.closes[PERIOD - 1 + k] / m.closes[PERIOD - 1]
  }

  lemma RatioTimes(c: real, x: real)
    requires c > 0.0
    ensures c * (1.0 + (x - c) / c) == x
  {
    assert (x - c) / c * c == x - c;
    assert c * (1.0 + (x - c) / c) == c + (x - c) / c * c;
  }

  lemma CurveStep(base: real, c: real, x: real)
    requires base > 0.0 && c > 0.0
    ensures CAPITAL * c / base * (1.0 + (x - c) / c) == CAPITAL * x / base
  {
    var g := 1.0 + (x - c) / c;
    RatioTimes(c, x);
    assert CAPITAL * c / base == CAPITAL / base * c;
    assert CAPITAL * x / base == CAPITAL / base * x;
    assert CAPITAL / base * c * g == CAPITAL / base * (c * g);
  }

  /** The factor by which bar `i` scales the equity. */
  function Growth(m: Market, i: nat): real
    requires 1 <= i < |m.closes| && m.closes[i - 1] > 0.0
  {
    1.0 + (m.closes[i] - m.closes[i - 1]) / m.closes[i - 1]
  }

  lemma NextPoint(m: Market, i: nat)
    requires IsMarket(m) && PERIOD <= i < |m.closes|
    ensures EquityAt(m, i - PERIOD) * Growth(m, i) == EquityAt(m, i - PERIOD + 1)
  {
    CurveStep(m.closes[PERIOD - 1], m.closes[i - 1], m.closes[i]);
  }

  // ------------------------------------------------------ the run, written out

  /** Twenty times the close against the sum of the last twenty. */
  ghost predicate AboveMean(m: Market, i: nat)
    requires 19 <= i < |m.closes|
  {
    20.0 * m.closes[i] > Sum(m.closes[i - 19..i + 1])
  }

  ghost predicate BelowMean(m: Market, i: nat)
    requires 19 <= i < |m.closes|
  {
    20.0 * m.closes[i] < Sum(m.closes[i - 19..i + 1])
  }

  /** Twenty times the volume against the sum of the first twenty. */
  ghost predicate IsLoud(m: Market, i: nat)
    requires 20 <= i < |m.volumes|
  {
    20.0 * m.volumes[i] > Sum(m.volumes[..20])
  }

  /** The close has moved by the stop fraction of the entry price, up or down. */
  ghost predicate StopReached(m: Market, price: real, i: nat)
    requires i < |m.closes|
  {
    m.closes[i] - price >= m.stop * price || price - m.closes[i] >= m.stop * price
  }

  ghost predicate EntersAt(m: Market, i: nat)
    requires IsMarket(m) && 20 <= i < |m.closes|
  {
    IsLoud(m, i) && (AboveMean(m, i) || BelowMean(m, i))
  }

  ghost predicate ExitsAt(m: Market, side: Side, price: real, i: nat)
    requires 20 <= i < |m.closes|
  {
    StopReached(m, price, i) || (side == Long && BelowMean(m, i)) || (side == Short && AboveMean(m, i))
  }

  /** Open since the first admissible bar from `since` on: its side, its price, and no exit before bar `to`. */
  ghost predicate IsOpenSince(m: Market, since: nat, entry: nat, side: Side, price: real, to: nat)
    requires IsMarket(m) && to <= |m.closes|
  {
    && 20 <= since <= entry < to
    && (forall i :: since <= i < entry ==> !EntersAt(m, i)) && EntersAt(m, entry)
    && (side == Long <==> AboveMean(m, entry)) && price == m.closes[entry]
    && forall i :: entry < i < to ==> !ExitsAt(m, side, price, i)
  }

  /** Opened and closed at the first bars that admit it, with the return on the entry price. */
  ghost predicate IsRoundTrip(m: Market, since: nat, t: Trade)
    requires IsMarket(m)
  {
    && t.exit < |m.closes| && IsOpenSince(m, since, t.entry, t.side, t.entryPrice, t.exit)
    && ExitsAt(m, t.side, t.entryPrice, t.exit) && t.exitPrice == m.closes[t.exit]
    && (t.side == Long ==> t.pnl * t.entryPrice == t.exitPrice - t.entryPrice)
    && (t.side == Short ==> t.pnl * t.entryPrice == t.entryPrice - t.exitPrice)
  }

  /** The bar from which the book is flat before trade `j`. */
  function NextFrom(trades: seq<Trade>, j: nat): nat
    requires j <= |trades|
  {
    if j == 0 then 20 else trades[j - 1].exit + 1
  }

  /** All trades of the bars, one after the other, and what is open at their end. */
  ghost predicate IsStory(m: Market, trades: seq<Trade>, position: Position)
    requires IsMarket(m)
  {
    var since := NextFrom(trades, |trades|);
    && (forall j :: 0 <= j < |trades| ==> IsRoundTrip(m, NextFrom(trades, j), trades[j]))
    && (position.Flat? ==> forall i :: since <= i < |m.closes| ==> !EntersAt(m, i))
    && (position.Holding? ==> IsOpenSince(m, since, position.entry, position.side, position.price, |m.closes|))
  }

  lemma PerBarCompares(x: real, total: real, n: nat)
    requires n >= 1
    ensures x > PerBar(total, n) <==> n as real * x > total
    ensures x < PerBar(total, n) <==> n as real * x < total
  {
    var p := PerBar(total, n);
    assert p * n as real == total;
    assert x > p ==> (x - p) * n as real > 0.0;
    assert x < p ==> (p - x) * n as real > 0.0;
  }

  lemma MeanExactly(m: Market, i: nat)
    requires PERIOD - 1 <= i < |m.closes|
    ensures m.closes[i] > Mean20(m, i) <==> AboveMean(m, i)
    ensures m.closes[i] < Mean20(m, i) <==> BelowMean(m, i)
  {
    hide Sum;
    hide PerBar;
    PerBarCompares(m.closes[i], Sum(m.closes[i + 1 - PERIOD..i + 1]), PERIOD);
  }

  lemma StopExactly(m: Market, price: real, i: nat)
    requires price > 0.0 && i < |m.closes|
    ensures StopHit(m.stop, price, m.closes[i]) <==> StopReached(m, price, i)
  {
    var distance := Abs(m.closes[i] - price);
    var ratio := distance / price;
    assert ratio * price == distance;
    ComparesScaled(ratio, m.stop, price);
  }

  lemma ComparesScaled(x: real, y: real, price: real)
    requires price > 0.0
    ensures x >= y <==> x * price >= y * price
  {
    assert x >= y ==> (x - y) * price >= 0.0;
    assert x < y ==> (y - x) * price > 0.0;
  }

  lemma EntryExactly(m: Market, i: nat)
    requires IsMarket(m) && PERIOD <= i < |m.closes|
    ensures Opens(m, i) <==> EntersAt(m, i)
    ensures OpeningSide(m, i) == Long <==> AboveMean(m, i)
  {
    hide Sum;
    hide PerBar;
    hide Mean20;
    hide AboveMean;
    hide BelowMean;
    MeanExactly(m, i);
    PerBarCompares(m.volumes[i], Sum(m.volumes[..PERIOD]), PERIOD);
  }

  lemma ExitExactly(m: Market, side: Side, price: real, i: nat)
    requires PERIOD <= i < |m.closes| && price > 0.0
    ensures Closes(m, side, price, i) <==> ExitsAt(m, side, price, i)
  {
    hide Mean20;
    hide AboveMean;
    hide BelowMean;
    hide StopHit;
    hide StopReached;
    MeanExactly(m, i);
    StopExactly(m, price, i);
  }

  lemma PnlExactly(side: Side, entry: real, exit: real)
    requires entry > 0.0
    ensures side == Long ==> Pnl(side, entry, exit) * entry == exit - entry
    ensures side == Short ==> Pnl(side, entry, exit) * entry == entry - exit
  {
  }

  lemma OpenExactly(m: Market, since: nat, entry: nat, side: Side, to: nat)
    requires IsMarket(m) && PERIOD <= since <= entry < to <= |m.closes|
    requires QuietBetween(m, since, entry) && Opens(m, entry) && side == OpeningSide(m, entry) && HeldBetween(m, entry, to)
    ensures IsOpenSince(m, since, entry, side, m.closes[entry], to)
  {
    hide Opens;
    hide Closes;
    hide OpeningSide;
    hide EntersAt;
    hide ExitsAt;
    hide AboveMean;
    EntryExactly(m, entry);
    forall i | since <= i < entry ensures !EntersAt(m, i) { EntryExactly(m, i); }
    forall i | entry < i < to ensures !ExitsAt(m, side, m.closes[entry], i) { ExitExactly(m, side, m.closes[entry], i); }
  }

  lemma TradeExactly(m: Market, t: Trade, since: nat)
    requires IsMarket(m) && PERIOD <= since && IsTrade(m, t, since, |m.closes|)
    ensures IsRoundTrip(m, since, t)
  {
    hide Opens;
    hide Closes;
    hide OpeningSide;
    hide Pnl;
    hide QuietBetween;
    hide HeldBetween;
    hide IsOpenSince;
    hide ExitsAt;
    OpenExactly(m, since, t.entry, t.side, t.exit);
    ExitExactly(m, t.side, t.entryPrice, t.exit);
    PnlExactly(t.side, t.entryPrice, t.exitPrice);
  }

  lemma SinceExactly(m: Market, trades: seq<Trade>, j: nat)
    requires IsMarket(m) && TradesFollow(m, trades, |m.closes|) && j <= |trades|
    ensures FlatSince(trades, j) == NextFrom(trades, j)
  {
    hide IsTrade;
    if j > 0 { TradeBounds(m, trades[j - 1], FlatSince(trades, j - 1), |m.closes|); }
  }

  lemma StoryExactly(m: Market, trades: seq<Trade>, position: Position)
    requires IsMarket(m)
    requires TradesFollow(m, trades, |m.closes|) && PositionFollows(m, trades, position, |m.closes|)
    ensures IsStory(m, trades, position)
  {
    hide Opens;
    hide Closes;
    hide OpeningSide;
    hide IsTrade;
    hide IsOpenSince;
    hide EntersAt;
    hide IsRoundTrip;
    hide FlatSince;
    hide NextFrom;
    forall j | 0 <= j < |trades| ensures IsRoundTrip(m, NextFrom(trades, j), trades[j]) {
      SinceExactly(m, trades, j);
      TradeExactly(m, trades[j], FlatSince(trades, j));
    }
    SinceExactly(m, trades, |trades|);
    var since := FlatSince(trades, |trades|);
    if position.Flat? {
      forall i | since <= i < |m.closes| ensures !EntersAt(m, i) { EntryExactly(m, i); }
    } else {
      OpenExactly(m, since, position.entry, position.side, |m.closes|);
    }
  }

  /** The curve starts at a hundred thousand and keeps its proportion to the close. */
  ghost predicate IsCurve(m: Market, equity: seq<real>)
  {
    && (|m.closes| < 20 ==> equity == [100000.0])
    && (|m.closes| >= 20 ==>
          && |equity| == |m.closes| - 19
          && forall k :: 0 <= k < |equity| ==> equity[k] * m.closes[19] == 100000.0 * m.closes[19 + k])
  }

  lemma CurveExactly(m: Market, equity: seq<real>)
    requires IsMarket(m)
    requires |m.closes| < PERIOD ==> equity == [CAPITAL]
    requires |m.closes| >= PERIOD ==>
               && |equity| == |m.closes| - PERIOD + 1
               && forall k :: 0 <= k < |equity| ==> equity[k] == EquityAt(m, k)
    ensures IsCurve(m, equity)
  {
    hide EquityAt;
    if |m.closes| >= PERIOD {
      forall k | 0 <= k < |equity| ensures equity[k] * m.closes[19] == 100000.0 * m.closes[19 + k] { PointExactly(m, k); }
    }
  }

  lemma PointExactly(m: Market, k: nat)
    requires PERIOD - 1 + k < |m.closes| && m.closes[PERIOD - 1] > 0.0
    ensures EquityAt(m, k) * m.closes[PERIOD - 1] == CAPITAL * m.closes[PERIOD - 1 + k]
  {
  }

  /** The whole run: one pass that keeps the position, the trades and the equity curve. */
  method RunBacktest(m: Market) returns (equity: seq<real>, trades: seq<Trade>, position: Position)
    requires IsMarket(m)
    ensures TradesFollow(m, trades, |m.closes|) && PositionFollows(m, trades, position, |m.closes|)
    ensures Story(trades, position) == Coded(m, |m.closes|)
    ensures |m.closes| < PERIOD ==> equity == [CAPITAL] && trades == []
    ensures |m.closes| >= PERIOD ==>
              && |equity| == |m.closes| - PERIOD + 1
              && forall k :: 0 <= k < |equity| ==> equity[k] == EquityAt(m, k)
    ensures IsStory(m, trades, position) && IsCurve(m, equity)
  {
    hide IsStory;
    hide IsCurve;
    hide Sum;
    hide Mean20;
    hide MeanAt;
    hide EquityAt;
    hide Growth;
    hide IsTrade;
    hide TradesFollow;
    hide PositionFollows;
    hide OnBar;
    hide Opens;
    hide Closes;
    var sma20 := Sma(m.closes, PERIOD);
    var volAvg := VolumeAverage(m);
    equity := [CAPITAL];
    trades := [];
    position := Flat;
    NothingYet(m);
    if |m.closes| < PERIOD {
      StoryExactly(m, trades, position);
      CurveExactly(m, equity);
      return;
    }
    FirstPoint(m);
    var i := PERIOD;
    while i < |m.closes|
      invariant PERIOD <= i <= |m.closes|
      invariant TradesFollow(m, trades, i) && PositionFollows(m, trades, position, i)
      invariant Story(trades, position) == Coded(m, i)
      invariant |equity| == i - PERIOD + 1
      invariant forall k :: 0 <= k < |equity| ==> equity[k] == EquityAt(m, k)
    {
      MeanIsAverage(m, i);
      trades, position := Advance(m, i, sma20[i].value, volAvg, trades, position);
      CodedStep(m, i);
      NextPoint(m, i);
      equity := equity + [equity[|equity| - 1] * Growth(m, i)];
      i := i + 1;
    }
    StoryExactly(m, trades, position);
    CurveExactly(m, equity);
  }

  lemma NothingYet(m: Market)
    requires IsMarket(m)
    ensures forall n: nat :: n <= |m.closes| && n <= PERIOD ==> TradesFollow(m, [], n) && PositionFollows(m, [], Flat, n)
  {
  }

  lemma FirstPoint(m: Market)
    requires IsMarket(m) && |m.closes| >= PERIOD
    ensures EquityAt(m, 0) == CAPITAL
  {
    ScaledBack(CAPITAL, m.closes[PERIOD - 1]);
  }

  lemma ScaledBack(x: real, c: real)
    requires c != 0.0
    ensures x * c / c == x
  {
    var q := x * c / c;
    assert q * c == x * c;
    assert (q - x) * c == 0.0;
    ZeroFactor(q - x, c);
  }

  lemma ZeroFactor(z: real, c: real)
    requires c != 0.0 && z * c == 0.0
    ensures z == 0.0
  {
  }

  lemma MeanIsAverage(m: Market, i: nat)
    requires PERIOD - 1 <= i < |m.closes|
    ensures MeanAt(m.closes, PERIOD, i) == Average(Mean20(m, i))
  {
  }

  lemma StaysFlat(m: Market, trades: seq<Trade>, i: nat)
    requires IsMarket(m) && PERIOD <= i < |m.closes| && PositionFollows(m, trades, Flat, i) && !Opens(m, i)
    ensures PositionFollows(m, trades, Flat, i + 1)
  {
    hide Opens;
  }

  lemma Enters(m: Market, trades: seq<Trade>, i: nat)
    requires IsMarket(m) && PERIOD <= i < |m.closes| && TradesFollow(m, trades, i)
    requires PositionFollows(m, trades, Flat, i) && Opens(m, i)
    ensures PositionFollows(m, trades, Holding(OpeningSide(m, i), i, m.closes[i]), i + 1)
  {
    hide Opens;
    hide Closes;
    hide OpeningSide;
    if trades != [] { TradeBounds(m, trades[|trades| - 1], FlatSince(trades, |trades| - 1), i); }
  }

  lemma HoldingFacts(m: Market, trades: seq<Trade>, p: Position, n: nat)
    requires IsMarket(m) && n <= |m.closes| && p.Holding? && PositionFollows(m, trades, p, n)
    ensures PERIOD <= p.entry < n && p.price > 0.0
  {
    hide Opens;
    hide Closes;
  }

  lemma StaysIn(m: Market, trades: seq<Trade>, p: Position, i: nat)
    requires IsMarket(m) && PERIOD <= i < |m.closes| && p.Holding? && p.price > 0.0
    requires PositionFollows(m, trades, p, i) && !Closes(m, p.side, p.price, i)
    ensures PositionFollows(m, trades, p, i + 1)
  {
    hide Opens;
    hide Closes;
    hide OpeningSide;
  }

  lemma Leaves(m: Market, trades: seq<Trade>, p: Position, t: Trade, i: nat)
    requires IsMarket(m) && PERIOD <= i < |m.closes| && p.Holding? && p.price > 0.0
    requires PositionFollows(m, trades, p, i) && Closes(m, p.side, p.price, i)
    requires t == Trade(p.side, p.entry, i, p.price, m.closes[i], Pnl(p.side, p.price, m.closes[i]))
    ensures IsTrade(m, t, FlatSince(trades, |trades|), i + 1)
    ensures PositionFollows(m, trades + [t], Flat, i + 1)
  {
    hide Opens;
    hide Closes;
    hide OpeningSide;
    hide Pnl;
  }

  /** What one bar does to the position and the trades. */
  method Advance(m: Market, i: nat, sma: real, volAvg: real, before: seq<Trade>, was: Position)
    returns (trades: seq<Trade>, position: Position)
    requires IsMarket(m) && PERIOD <= i < |m.closes|
    requires sma == Mean20(m, i) && volAvg == VolumeAverage(m)
    requires TradesFollow(m, before, i) && PositionFollows(m, before, was, i)
    requires was.Holding? ==> was.price > 0.0
    ensures TradesFollow(m, trades, i + 1) && PositionFollows(m, trades, position, i + 1)
    ensures Story(trades, position)
            == OnBar(m, i, Story(before, was), Opens(m, i), was.Holding? && Closes(m, was.side, was.price, i))
  {
    hide Mean20;
    hide VolumeAverage;
    hide StopHit;
    hide Pnl;
    hide Sum;
    hide TradesFollow;
    hide PositionFollows;
    hide IsTrade;
    trades, position := before, was;
    var close := m.closes[i];
    LaterBound(m, before, i);
    match position
    case Flat =>
      if Opens(m, i) { Enters(m, before, i); } else { StaysFlat(m, before, i); }
      if m.volumes[i] > volAvg {
        if close > sma {
          position := Holding(Long, i, close);
        } else if close < sma {
          position := Holding(Short, i, close);
        }
      }
    case Holding(side, entry, price) =>
      HoldingFacts(m, before, was, i);
      var stopHit := StopHit(m.stop, price, close);
      var crossHit := (side.Long? && close < sma) || (side.Short? && close > sma);
      if stopHit || crossHit {
        var t := Trade(side, entry, i, price, close, Pnl(side, price, close));
        Leaves(m, before, was, t, i);
        trades := trades + [t];
        AppendTrade(m, before, t, i + 1);
        position := Flat;
      } else {
        StaysIn(m, before, was, i);
      }
  }

  lemma LaterBound(m: Market, trades: seq<Trade>, n: nat)
    requires IsMarket(m) && n < |m.closes| && TradesFollow(m, trades, n)
    ensures TradesFollow(m, trades, n + 1)
  {
    forall j | 0 <= j < |trades| ensures IsTrade(m, trades[j], FlatSince(trades, j), n + 1) {
      assert IsTrade(m, trades[j], FlatSince(trades, j), n);
    }
  }

  lemma AppendTrade(m: Market, trades: seq<Trade>, t: Trade, n: nat)
    requires IsMarket(m) && n <= |m.closes| && TradesFollow(m, trades, n)
    requires IsTrade(m, t, FlatSince(trades, |trades|), n)
    ensures TradesFollow(m, trades + [t], n)
  {
    hide IsTrade;
    var all := trades + [t];
    forall j | 0 <= j < |all| ensures IsTrade(m, all[j], FlatSince(all, j), n) {
      assert FlatSince(all, j) == FlatSince(trades, j);
      if j < |trades| { assert IsTrade(m, trades[j], FlatSince(trades, j), n); }
    }
  }

  // ----------------------------------------------------------------- drawdown

  /** The change from point `i` of the curve to point `j`. */
  function Change(equity: seq<real>, i: nat, j: nat): real
    requires i < |equity| && j < |equity| && equity[i] > 0.0
  {
    (equity[j] - equity[i]) / equity[i]
  }

  ghost predicate AllPositive(s: seq<real>)
  {
    forall i :: 0 <= i < |s| ==> s[i] > 0.0
  }

  lemma HigherBaseFallsFurther(v: real, p: real, q: real)
    requires v > 0.0 && p >= q > 0.0
    ensures (v - p) / p <= (v - q) / q
  {
    var x, y := (v - p) / p, (v - q) / q;
    assert (x + 1.0) * p == v && (y + 1.0) * q == v;
    NotAbove(x + 1.0, p, y + 1.0, q);
  }

  lemma NotAbove(x: real, p: real, y: real, q: real)
    requires x * p == y * q > 0.0 && p >= q > 0.0
    ensures x <= y
  {
    assert x > 0.0 by { PositiveFactor(x, p); }
    assert x * (p - q) >= 0.0;
    assert (y - x) * q == x * (p - q);
    NonNegativeFactor(y - x, q);
  }

  lemma PositiveFactor(x: real, p: real)
    requires p > 0.0 && x * p > 0.0
    ensures x > 0.0
  {
  }

  lemma NonNegativeFactor(x: real, p: real)
    requires p > 0.0 && x * p >= 0.0
    ensures x >= 0.0
  {
  }

  /** The running-peak drawdown is the worst change between any two points in time order. */
  method MaxDrawdown(equity: seq<real>) returns (worst: real)
    requires equity != [] && AllPositive(equity)
    ensures forall i, j :: 0 <= i <= j < |equity| ==> worst <= Change(equity, i, j)
    ensures exists i, j :: 0 <= i <= j < |equity| && worst == Change(equity, i, j)
    ensures IsWorst(equity, 0, worst)
  {
    hide IsWorst;
    var peak := equity[0];
    worst := 0.0;
    ghost var top := 0;
    ghost var from, to := 0, 0;
    assert Change(equity, 0, 0) == 0.0;
    var n := 0;
    while n < |equity|
      invariant 0 <= n <= |equity|
      invariant 0 <= top < |equity| && top <= n && (n > 0 ==> top < n) && peak == equity[top]
      invariant forall i :: 0 <= i < n ==> equity[i] <= peak
      invariant 0 <= from <= to < |equity| && worst == Change(equity, from, to)
      invariant forall i, j :: 0 <= i <= j < n ==> worst <= Change(equity, i, j)
    {
      var value := equity[n];
      if value > peak {
        peak := value;
        top := n;
      }
      if peak > 0.0 {
        var dd := (value - peak) / peak;
        forall i | 0 <= i <= n ensures dd <= Change(equity, i, n) {
          HigherBaseFallsFurther(value, peak, equity[i]);
        }
        if dd < worst {
          worst := dd;
          from, to := top, n;
        }
      }
      n := n + 1;
    }
    WorstExactly(equity, 0, worst);
  }

  /** The curve is positive and moves as the price does, whatever the capital. */
  lemma CurveMovesAsPrice(m: Market, equity: seq<real>, i: nat, j: nat)
    requires IsMarket(m) && |m.closes| >= PERIOD && |equity| == |m.closes| - PERIOD + 1
    requires forall k :: 0 <= k < |equity| ==> equity[k] == EquityAt(m, k)
    requires i < |equity| && j < |equity|
    ensures equity[i] > 0.0
    ensures Change(equity, i, j) == Change(m.closes, PERIOD - 1 + i, PERIOD - 1 + j)
  {
    var base, a, b := m.closes[PERIOD - 1], m.closes[PERIOD - 1 + i], m.closes[PERIOD - 1 + j];
    var scale := CAPITAL / base;
    assert equity[i] == EquityAt(m, i) && equity[j] == EquityAt(m, j);
    assert CAPITAL * a / base == scale * a && CAPITAL * b / base == scale * b;
    ScaledChange(scale, a, b);
  }

  lemma ScaledChange(scale: real, a: real, b: real)
    requires scale > 0.0 && a > 0.0
    ensures scale * a > 0.0 && (scale * b - scale * a) / (scale * a) == (b - a) / a
  {
    var r := (b - a) / a;
    assert r * a == b - a;
    assert r * (scale * a) == scale * (r * a);
  }

  ghost predicate WorstPriceChange(closes: seq<real>, worst: real)
    requires AllPositive(closes)
  {
    && (forall i, j :: PERIOD - 1 <= i <= j < |closes| ==> worst <= Change(closes, i, j))
    && (exists i, j :: PERIOD - 1 <= i <= j < |closes| && worst == Change(closes, i, j))
  }

  ghost predicate AtMost(worst: real, early: real, late: real)
  {
    worst * early <= late - early
  }

  ghost predicate IsExactly(worst: real, early: real, late: real)
  {
    worst * early == late - early
  }

  /** `worst` is the least of the changes, each relative to its earlier point. */
  ghost predicate IsWorst(s: seq<real>, from: nat, worst: real)
  {
    && (forall i, j :: from <= i <= j < |s| ==> AtMost(worst, s[i], s[j]))
    && exists i, j :: from <= i <= j < |s| && IsExactly(worst, s[i], s[j])
  }

  lemma WorstExactly(s: seq<real>, from: nat, worst: real)
    requires AllPositive(s)
    requires forall i, j :: from <= i <= j < |s| ==> worst <= Change(s, i, j)
    requires exists i, j :: from <= i <= j < |s| && worst == Change(s, i, j)
    ensures IsWorst(s, from, worst)
  {
    hide Change;
    var u, v :| from <= u <= v < |s| && worst == Change(s, u, v);
    ChangeTimes(s, u, v);
    forall i, j | from <= i <= j < |s| ensures AtMost(worst, s[i], s[j]) {
      assert worst <= Change(s, i, j);
      ChangeTimes(s, i, j);
      ComparesScaled(Change(s, i, j), worst, s[i]);
    }
    hide AllPositive;
    assert IsExactly(worst, s[u], s[v]);
  }

  lemma ChangeTimes(s: seq<real>, i: nat, j: nat)
    requires i < |s| && j < |s| && s[i] > 0.0
    ensures Change(s, i, j) * s[i] == s[j] - s[i]
  {
  }

  /** The reported drawdown is the worst fall of the price between any two bars of the run. */
  method Evaluate(m: Market) returns (trades: seq<Trade>, worst: real)
    requires IsMarket(m)
    ensures TradesFollow(m, trades, |m.closes|)
    ensures if |m.closes| < PERIOD then worst == 0.0 else WorstPriceChange(m.closes, worst)
    ensures |m.closes| >= 20 ==> IsWorst(m.closes, 19, worst)
  {
    hide IsWorst;
    hide IsStory;
    hide TradesFollow;
    hide PositionFollows;
    hide EquityAt;
    var equity, position;
    equity, trades, position := RunBacktest(m);
    if |m.closes| < PERIOD {
      worst := MaxDrawdown(equity);
    } else {
      forall k | 0 <= k < |equity| ensures equity[k] > 0.0 { CurveMovesAsPrice(m, equity, k, k); }
      worst := MaxDrawdown(equity);
      WorstOfCurve(m, equity, worst);
      WorstExactly(m.closes, PERIOD - 1, worst);
    }
  }

  lemma WorstOfCurve(m: Market, equity: seq<real>, worst: real)
    requires IsMarket(m) && |m.closes| >= PERIOD && |equity| == |m.closes| - PERIOD + 1 && AllPositive(equity)
    requires forall k :: 0 <= k < |equity| ==> equity[k] == EquityAt(m, k)
    requires forall i, j :: 0 <= i <= j < |equity| ==> worst <= Change(equity, i, j)
    requires exists i, j :: 0 <= i <= j < |equity| && worst == Change(equity, i, j)
    ensures WorstPriceChange(m.closes, worst)
  {
    hide Change;
    hide EquityAt;
    var i, j :| 0 <= i <= j < |equity| && worst == Change(equity, i, j);
    CurveMovesAsPrice(m, equity, i, j);
    forall a, b | PERIOD - 1 <= a <= b < |m.closes| ensures worst <= Change(m.closes, a, b) {
      CurveMovesAsPrice(m, equity, a - (PERIOD - 1), b - (PERIOD - 1));
    }
  }
}
