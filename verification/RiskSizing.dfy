/**
 Risk validation of a proposal against the book (risk_validator.py), position
 sizing (sizing_calculator.py) and the advisory multiplier (risk_assessor.py),
 over exact numbers.
 */
module RiskSizing {

  // ------------------------------------------------------------ risk validation

  datatype StrategyLimit = Unlimited | AtMost(fraction: real)

  /** Limits as fractions of equity. */
  datatype Limits = Limits(
    perTrade: real,
    total: real,
    correlated: real,
    dailyLoss: real,
    positions: int,
    strategy: StrategyLimit,
    killSwitch: bool)

  datatype Inputs = Inputs(
    equity: real,
    notional: real,
    totalNotional: real,
    correlatedNotional: real,
    dailyPnl: real,
    openPositions: int,
    strategyNotional: real,
    isCorrelated: bool)

  datatype Violation =
    | NonPositiveEquity
    | KillSwitchActive
    | PerTradeExceeded(ratio: real)
    | TotalExceeded(ratio: real)
    | CorrelatedExceeded(ratio: real)
    | DailyLossHalt(ratio: real)
    | PositionLimit(open: int)
    | StrategyExceeded(ratio: real)

  datatype Assessment = Assessment(
    approved: bool,
    violations: seq<Violation>,
    perTrade: real,
    total: real,
    correlated: real,
    dailyLoss: real)

  function Ratio(numerator: real, equity: real): real
  {
    if equity <= 0.0 then 0.0 else numerator / equity
  }

  function CorrelatedBase(inputs: Inputs): real
  {
    if inputs.isCorrelated then inputs.correlatedNotional + inputs.notional else inputs.correlatedNotional
  }

  function Noting(violations: seq<Violation>, holds: bool, v: Violation): seq<Violation>
  {
    if holds then violations + [v] else violations
  }

  /** The reasons to reject that concern the account as a whole. */
  function AccountViolations(inputs: Inputs, limits: Limits): seq<Violation>
  {
    Noting(Noting([], inputs.equity <= 0.0, NonPositiveEquity), limits.killSwitch, KillSwitchActive)
  }

  function ExposureViolations(violations: seq<Violation>, perTrade: real, total: real, correlated: real, limits: Limits): seq<Violation>
  {
    Noting(Noting(Noting(violations, perTrade > limits.perTrade, PerTradeExceeded(perTrade)),
                  total > limits.total, TotalExceeded(total)),
           correlated > limits.correlated, CorrelatedExceeded(correlated))
  }

  function BookViolations(violations: seq<Violation>, dailyLoss: real, inputs: Inputs, limits: Limits): seq<Violation>
  {
    Noting(Noting(violations, dailyLoss <= -limits.dailyLoss, DailyLossHalt(dailyLoss)),
           inputs.openPositions >= limits.positions, PositionLimit(inputs.openPositions))
  }

  function StrategyViolations(violations: seq<Violation>, inputs: Inputs, limits: Limits): seq<Violation>
  {
    match limits.strategy
    case Unlimited => violations
    case AtMost(fraction) =>
      var strategy := Ratio(inputs.strategyNotional + inputs.notional, inputs.equity);
      Noting(violations, strategy > fraction, StrategyExceeded(strategy))
  }

  /** Every reason to reject, in the order in which they are found. */
  function Violations(inputs: Inputs, limits: Limits): seq<Violation>
  {
    var exposure := ExposureViolations(AccountViolations(inputs, limits),
                                       Ratio(inputs.notional, inputs.equity),
                                       Ratio(inputs.totalNotional + inputs.notional, inputs.equity),
                                       Ratio(CorrelatedBase(inputs), inputs.equity),
                                       limits);
    StrategyViolations(BookViolations(exposure, Ratio(inputs.dailyPnl, inputs.equity), inputs, limits), inputs, limits)
  }

  /** A fraction of equity, in money. */
  function Money(fraction: real, equity: real): real
  {
    fraction * equity
  }

  /** The proposal fits the book, in money: no ratio and no order of checks. */
  ghost predicate Fits(inputs: Inputs, limits: Limits)
  {
    var e := inputs.equity;
    && e > 0.0 && !limits.killSwitch
    && inputs.notional <= Money(limits.perTrade, e)
    && inputs.totalNotional + inputs.notional <= Money(limits.total, e)
    && CorrelatedBase(inputs) <= Money(limits.correlated, e)
    && inputs.dailyPnl > Money(-limits.dailyLoss, e)
    && inputs.openPositions < limits.positions
    && (limits.strategy.AtMost? ==> inputs.strategyNotional + inputs.notional <= Money(limits.strategy.fraction, e))
  }

  /** The figures of a verdict times the equity are the amounts they are shares of; without equity they are nothing. */
  ghost predicate AreShares(inputs: Inputs, verdict: Assessment)
  {
    var e := inputs.equity;
    && (e <= 0.0 ==> verdict.perTrade == verdict.total == verdict.correlated == verdict.dailyLoss == 0.0)
    && (e > 0.0 ==>
          && verdict.perTrade * e == inputs.notional
          && verdict.total * e == inputs.totalNotional + inputs.notional
          && verdict.correlated * e == inputs.correlatedNotional + (if inputs.isCorrelated then inputs.notional else 0.0)
          && verdict.dailyLoss * e == inputs.dailyPnl)
  }

  lemma SharesExactly(inputs: Inputs)
    ensures AreShares(inputs, Assessment(true, [], Ratio(inputs.notional, inputs.equity),
                                         Ratio(inputs.totalNotional + inputs.notional, inputs.equity),
                                         Ratio(CorrelatedBase(inputs), inputs.equity),
                                         Ratio(inputs.dailyPnl, inputs.equity)))
  {
    RatioTimes(inputs.notional, inputs.equity);
    RatioTimes(inputs.totalNotional + inputs.notional, inputs.equity);
    RatioTimes(CorrelatedBase(inputs), inputs.equity);
    RatioTimes(inputs.dailyPnl, inputs.equity);
    hide Ratio;
  }

  lemma RatioTimes(x: real, e: real)
    ensures e > 0.0 ==> Ratio(x, e) * e == x
    ensures e <= 0.0 ==> Ratio(x, e) == 0.0
  {
  }

  /** Violations are collected step by step; the verdict approves exactly the proposals that fit. */
  method AssessProposal(inputs: Inputs, limits: Limits) returns (verdict: Assessment)
    ensures verdict.violations == Violations(inputs, limits)
    ensures verdict.approved <==> Fits(inputs, limits)
    ensures verdict.perTrade == Ratio(inputs.notional, inputs.equity)
    ensures verdict.total == Ratio(inputs.totalNotional + inputs.notional, inputs.equity)
    ensures verdict.correlated == Ratio(CorrelatedBase(inputs), inputs.equity)
    ensures verdict.dailyLoss == Ratio(inputs.dailyPnl, inputs.equity)
    ensures AreShares(inputs, verdict)
    ensures ListsBroken(verdict.violations, inputs, limits, 8)
  {
    SharesExactly(inputs);
    ViolationsExactly(inputs, limits);
    hide ListsBroken;
    hide Ratio;
    hide Fits;
    var violations: seq<Violation> := [];
    if inputs.equity <= 0.0 { violations := violations + [NonPositiveEquity]; }
    var perTrade := Ratio(inputs.notional, inputs.equity);
    var total := Ratio(inputs.totalNotional + inputs.notional, inputs.equity);
    var base := if inputs.isCorrelated then inputs.correlatedNotional + inputs.notional else inputs.correlatedNotional;
    var correlated := Ratio(base, inputs.equity);
    var dailyLoss := Ratio(inputs.dailyPnl, inputs.equity);
    if limits.killSwitch { violations := violations + [KillSwitchActive]; }
    assert violations == AccountViolations(inputs, limits);
    violations := NoteExposure(violations, perTrade, total, correlated, limits);
    if dailyLoss <= -limits.dailyLoss { violations := violations + [DailyLossHalt(dailyLoss)]; }
    if inputs.openPositions >= limits.positions { violations := violations + [PositionLimit(inputs.openPositions)]; }
    violations := NoteStrategy(violations, inputs, limits);
    ApprovedExactly(inputs, limits);
    verdict := Assessment(violations == [], violations, perTrade, total, correlated, dailyLoss);
  }

  method NoteExposure(found: seq<Violation>, perTrade: real, total: real, correlated: real, limits: Limits)
    returns (violations: seq<Violation>)
    ensures violations == ExposureViolations(found, perTrade, total, correlated, limits)
  {
    violations := found;
    if perTrade > limits.perTrade { violations := violations + [PerTradeExceeded(perTrade)]; }
    if total > limits.total { violations := violations + [TotalExceeded(total)]; }
    if correlated > limits.correlated { violations := violations + [CorrelatedExceeded(correlated)]; }
  }

  method NoteStrategy(found: seq<Violation>, inputs: Inputs, limits: Limits) returns (violations: seq<Violation>)
    ensures violations == StrategyViolations(found, inputs, limits)
  {
    violations := found;
    if limits.strategy.AtMost? {
      var strategy := Ratio(inputs.strategyNotional + inputs.notional, inputs.equity);
      if strategy > limits.strategy.fraction { violations := violations + [StrategyExceeded(strategy)]; }
    }
  }

  lemma RatioAbove(x: real, e: real, limit: real)
    requires e > 0.0
    ensures Ratio(x, e) > limit <==> x > limit * e
  {
    var r := x / e;
    assert r * e == x;
    Scales(r, limit, e);
  }

  lemma Scales(a: real, b: real, e: real)
    requires e > 0.0
    ensures a > b <==> a * e > b * e
  {
    if a > b { assert (a - b) * e > 0.0; }
    if a < b { assert (b - a) * e > 0.0; }
  }

  /** No violation is found exactly when the proposal fits the book. */
  lemma ApprovedExactly(inputs: Inputs, limits: Limits)
    ensures Violations(inputs, limits) == [] <==> Fits(inputs, limits)
  {
    hide Ratio;
    var e := inputs.equity;
    if e > 0.0 {
      RatioAbove(inputs.notional, e, limits.perTrade);
      RatioAbove(inputs.totalNotional + inputs.notional, e, limits.total);
      RatioAbove(CorrelatedBase(inputs), e, limits.correlated);
      RatioAbove(inputs.dailyPnl, e, -limits.dailyLoss);
      if limits.strategy.AtMost? {
        RatioAbove(inputs.strategyNotional + inputs.notional, e, limits.strategy.fraction);
      }
    }
  }

  /** The rule a violation stands for is broken, and it carries the figure that breaks it. */
  ghost predicate IsBroken(v: Violation, inputs: Inputs, limits: Limits)
  {
    match v
    case NonPositiveEquity => inputs.equity <= 0.0
    case KillSwitchActive => limits.killSwitch
    case PerTradeExceeded(r) => r == Ratio(inputs.notional, inputs.equity) && r > limits.perTrade
    case TotalExceeded(r) => r == Ratio(inputs.totalNotional + inputs.notional, inputs.equity) && r > limits.total
    case CorrelatedExceeded(r) => r == Ratio(CorrelatedBase(inputs), inputs.equity) && r > limits.correlated
    case DailyLossHalt(r) => r == Ratio(inputs.dailyPnl, inputs.equity) && r <= -limits.dailyLoss
    case PositionLimit(open) => open == inputs.openPositions && open >= limits.positions
    case StrategyExceeded(r) =>
      limits.strategy.AtMost? && r == Ratio(inputs.strategyNotional + inputs.notional, inputs.equity)
      && r > limits.strategy.fraction
  }

  function Rank(v: Violation): nat
  {
    match v
    case NonPositiveEquity => 0
    case KillSwitchActive => 1
    case PerTradeExceeded(_) => 2
    case TotalExceeded(_) => 3
    case CorrelatedExceeded(_) => 4
    case DailyLossHalt(_) => 5
    case PositionLimit(_) => 6
    case StrategyExceeded(_) => 7
  }

  /** `found` lists exactly the broken rules below `rank`, each once, in the fixed order. */
  ghost predicate ListsBroken(found: seq<Violation>, inputs: Inputs, limits: Limits, rank: nat)
  {
    && (forall i, j :: 0 <= i < j < |found| ==> Rank(found[i]) < Rank(found[j]))
    && forall v :: v in found <==> Rank(v) < rank && IsBroken(v, inputs, limits)
  }

  lemma NotingLists(found: seq<Violation>, inputs: Inputs, limits: Limits, v: Violation, holds: bool)
    requires ListsBroken(found, inputs, limits, Rank(v))
    requires forall w :: Rank(w) == Rank(v) ==> (IsBroken(w, inputs, limits) <==> w == v && holds)
    ensures ListsBroken(Noting(found, holds, v), inputs, limits, Rank(v) + 1)
  {
    hide IsBroken;
    hide Rank;
  }

  /** The verdict lists every broken rule and no other, each once, in the order of the checks. */
  lemma ViolationsExactly(inputs: Inputs, limits: Limits)
    ensures ListsBroken(Violations(inputs, limits), inputs, limits, 8)
  {
    hide Ratio;
    hide ListsBroken;
    hide Noting;
    var e := inputs.equity;
    EmptyLists(inputs, limits);
    var a := Noting([], e <= 0.0, NonPositiveEquity);
    NotingLists([], inputs, limits, NonPositiveEquity, e <= 0.0);
    NotingLists(a, inputs, limits, KillSwitchActive, limits.killSwitch);
    var b := AccountViolations(inputs, limits);
    var perTrade := Ratio(inputs.notional, e);
    var total := Ratio(inputs.totalNotional + inputs.notional, e);
    var correlated := Ratio(CorrelatedBase(inputs), e);
    NotingLists(b, inputs, limits, PerTradeExceeded(perTrade), perTrade > limits.perTrade);
    var c := Noting(b, perTrade > limits.perTrade, PerTradeExceeded(perTrade));
    NotingLists(c, inputs, limits, TotalExceeded(total), total > limits.total);
    var d := Noting(c, total > limits.total, TotalExceeded(total));
    NotingLists(d, inputs, limits, CorrelatedExceeded(correlated), correlated > limits.correlated);
    BookLists(ExposureViolations(b, perTrade, total, correlated, limits), inputs, limits);
  }

  lemma EmptyLists(inputs: Inputs, limits: Limits)
    ensures ListsBroken([], inputs, limits, 0)
  {
  }

  lemma BookLists(found: seq<Violation>, inputs: Inputs, limits: Limits)
    requires ListsBroken(found, inputs, limits, 5)
    ensures ListsBroken(StrategyViolations(BookViolations(found, Ratio(inputs.dailyPnl, inputs.equity), inputs, limits), inputs, limits),
                        inputs, limits, 8)
  {
    hide Ratio;
    hide ListsBroken;
    hide Noting;
    var dailyLoss := Ratio(inputs.dailyPnl, inputs.equity);
    NotingLists(found, inputs, limits, DailyLossHalt(dailyLoss), dailyLoss <= -limits.dailyLoss);
    var f := Noting(found, dailyLoss <= -limits.dailyLoss, DailyLossHalt(dailyLoss));
    NotingLists(f, inputs, limits, PositionLimit(inputs.openPositions), inputs.openPositions >= limits.positions);
    var g := BookViolations(found, dailyLoss, inputs, limits);
    match limits.strategy
    case AtMost(fraction) =>
      var strategy := Ratio(inputs.strategyNotional + inputs.notional, inputs.equity);
      NotingLists(g, inputs, limits, StrategyExceeded(strategy), strategy > fraction);
    case Unlimited =>
      NoStrategyRule(g, inputs, limits);
  }

  lemma NoStrategyRule(found: seq<Violation>, inputs: Inputs, limits: Limits)
    requires ListsBroken(found, inputs, limits, 7) && limits.strategy.Unlimited?
    ensures ListsBroken(found, inputs, limits, 8)
  {
    hide Ratio;
  }

  // ------------------------------------------------------ sequences of proposals

  /** The book the validator is shown, with the exposure of each strategy. */
  datatype Book = Book(total: real, correlated: real, positions: int, strategies: map<string, real>)

  /** A proposal with what the caller knows besides the book; the limits' strategy and kill switch may change between two. */
  datatype Proposal = Proposal(strategy: string, notional: real, isCorrelated: bool, dailyPnl: real, killSwitch: bool)

  function Exposure(book: Book, strategy: string): real
  {
    if strategy in book.strategies then book.strategies[strategy] else 0.0
  }

  function Snapshot(equity: real, book: Book, p: Proposal): Inputs
  {
    Inputs(equity, p.notional, book.total, book.correlated, p.dailyPnl, book.positions,
           Exposure(book, p.strategy), p.isCorrelated)
  }

  function Booked(book: Book, p: Proposal): Book
  {
    Book(book.total + p.notional,
         if p.isCorrelated then book.correlated + p.notional else book.correlated,
         book.positions + 1,
         book.strategies[p.strategy := Exposure(book, p.strategy) + p.notional])
  }

  /** Booking adds the notional to the totals it counts for, to its strategy, new or not, and to no other. */
  lemma BookedExactly(book: Book, p: Proposal)
    ensures
      var after := Booked(book, p);
      && after.total == book.total + p.notional && after.positions == book.positions + 1
      && after.correlated == book.correlated + (if p.isCorrelated then p.notional else 0.0)
      && after.strategies.Keys == book.strategies.Keys + {p.strategy}
      && after.strategies[p.strategy]
         == (if p.strategy in book.strategies then book.strategies[p.strategy] + p.notional else p.notional)
      && forall s :: s in book.strategies && s != p.strategy ==> after.strategies[s] == book.strategies[s]
  {
  }

  function Approved(equity: real, limits: Limits, book: Book, p: Proposal): bool
  {
    Violations(Snapshot(equity, book, p), limits.(killSwitch := p.killSwitch)) == []
  }

  /** The book after a run of proposals, each assessed against the book so far. */
  function Run(equity: real, limits: Limits, book: Book, proposals: seq<Proposal>): Book
    decreases |proposals|
  {
    if proposals == [] then book
    else
      Run(equity, limits,
          if Approved(equity, limits, book, proposals[0]) then Booked(book, proposals[0]) else book,
          proposals[1..])
  }

  ghost predicate WithinLimits(equity: real, limits: Limits, book: Book)
  {
    && book.total <= Money(limits.total, equity)
    && book.correlated <= Money(limits.correlated, equity)
    && book.positions <= limits.positions
    && (limits.strategy.AtMost? ==>
          forall s :: s in book.strategies ==> book.strategies[s] <= Money(limits.strategy.fraction, equity))
  }

  lemma StepKeepsLimits(equity: real, limits: Limits, book: Book, p: Proposal)
    requires WithinLimits(equity, limits, book) && Approved(equity, limits, book, p)
    ensures WithinLimits(equity, limits, Booked(book, p))
  {
    hide Violations;
    ApprovedExactly(Snapshot(equity, book, p), limits.(killSwitch := p.killSwitch));
  }

  /** Exposure and position count stay inside the limits over any sequence of proposals. */
  lemma {:induction false} LimitsHoldOverEveryRun(equity: real, limits: Limits, book: Book, proposals: seq<Proposal>)
    requires WithinLimits(equity, limits, book)
    ensures WithinLimits(equity, limits, Run(equity, limits, book, proposals))
    decreases |proposals|
  {
    if proposals != [] {
      var p := proposals[0];
      if Approved(equity, limits, book, p) {
        StepKeepsLimits(equity, limits, book, p);
        LimitsHoldOverEveryRun(equity, limits, Booked(book, p), proposals[1..]);
      } else {
        LimitsHoldOverEveryRun(equity, limits, book, proposals[1..]);
      }
    }
  }

  /** Proposals all assessed against one snapshot, then booked together. */
  function BookedAll(book: Book, proposals: seq<Proposal>): Book
    decreases |proposals|
  {
    if proposals == [] then book else Booked(BookedAll(book, proposals[..|proposals| - 1]), proposals[|proposals| - 1])
  }

  /** Assessed against one snapshot, `k` proposals can overshoot the book's total by at most `k` single trades. */
  lemma {:induction false} StaleSnapshotOvershoot(equity: real, limits: Limits, book: Book, proposals: seq<Proposal>)
    requires forall i :: 0 <= i < |proposals| ==> Approved(equity, limits, book, proposals[i])
    ensures BookedAll(book, proposals).total <= book.total + (|proposals| as real) * (Money(limits.perTrade, equity))
    decreases |proposals|
  {
    hide Violations;
    hide Approved;
    if proposals != [] {
      var n := |proposals| - 1;
      StaleSnapshotOvershoot(equity, limits, book, proposals[..n]);
      ApprovedIsSmall(equity, limits, book, proposals[n]);
      assert (|proposals| as real) * (Money(limits.perTrade, equity))
             == (n as real) * (Money(limits.perTrade, equity)) + Money(limits.perTrade, equity);
    }
  }

  lemma ApprovedIsSmall(equity: real, limits: Limits, book: Book, p: Proposal)
    requires Approved(equity, limits, book, p)
    ensures p.notional <= Money(limits.perTrade, equity)
  {
    hide Violations;
    ApprovedExactly(Snapshot(equity, book, p), limits.(killSwitch := p.killSwitch));
  }

  /** With the default limits, three such proposals do leave the book above its total limit. */
  lemma StaleSnapshotBreaksTheLimit()
    ensures exists limits: Limits, book: Book, p: Proposal ::
              WithinLimits(100.0, limits, book) && Approved(100.0, limits, book, p)
              && !WithinLimits(100.0, limits, BookedAll(book, [p, p, p]))
  {
    hide Violations;
    var limits := Limits(0.02, 0.05, 0.03, 0.03, 10, Unlimited, false);
    var book := Book(0.0, 0.0, 0, map[]);
    var p := Proposal("s", 2.0, false, 0.0, false);
    assert Fits(Snapshot(100.0, book, p), limits.(killSwitch := false));
    ApprovedExactly(Snapshot(100.0, book, p), limits.(killSwitch := false));
    assert [p, p, p][..2] == [p, p] && [p, p][..1] == [p] && [p][..0] == [];
    assert BookedAll(book, [p]) == Booked(book, p);
    assert BookedAll(book, [p, p]) == Booked(Booked(book, p), p);
    assert BookedAll(book, [p, p, p]).total == 6.0;
    assert WithinLimits(100.0, limits, book) && Approved(100.0, limits, book, p);
    assert !WithinLimits(100.0, limits, BookedAll(book, [p, p, p]));
  }

  // ------------------------------------------ when a stale batch is still safe

  function Least(x: real, y: real): real
  {
    if x <= y then x else y
  }

  /** What a limit leaves room for, in money. */
  function TotalRoom(equity: real, limits: Limits, book: Book): real
  {
    Money(limits.total, equity) - book.total
  }

  function CorrelatedRoom(equity: real, limits: Limits, book: Book): real
  {
    Money(limits.correlated, equity) - book.correlated
  }

  function StrategyRoom(equity: real, limits: Limits, book: Book, strategy: string): real
    requires limits.strategy.AtMost?
  {
    Money(limits.strategy.fraction, equity) - Exposure(book, strategy)
  }

  /** The largest notional that the snapshot admits for a strategy. */
  function Cap(equity: real, limits: Limits, book: Book, strategy: string, isCorrelated: bool): real
  {
    var open := Least(Money(limits.perTrade, equity), TotalRoom(equity, limits, book));
    var mixed := if isCorrelated then Least(open, CorrelatedRoom(equity, limits, book)) else open;
    if limits.strategy.AtMost? then Least(mixed, StrategyRoom(equity, limits, book, strategy)) else mixed
  }

  /** A book inside its limits that can take one more position. */
  ghost predicate Tradeable(equity: real, limits: Limits, book: Book)
  {
    equity > 0.0 && WithinLimits(equity, limits, book) && book.positions < limits.positions
  }

  /** On a tradeable snapshot the notional alone decides, once nothing has been halted. */
  lemma ApprovedUpToCap(equity: real, limits: Limits, book: Book, p: Proposal)
    requires Tradeable(equity, limits, book)
    ensures Approved(equity, limits, book, p)
            <==> !p.killSwitch && p.dailyPnl > Money(-limits.dailyLoss, equity)
                 && p.notional <= Cap(equity, limits, book, p.strategy, p.isCorrelated)
  {
    hide Money;
    hide Violations;
    ApprovedExactly(Snapshot(equity, book, p), limits.(killSwitch := p.killSwitch));
  }

  /** A batch of proposals of the strategies of one desk, all approved on one snapshot. */
  ghost predicate StaleBatch(equity: real, limits: Limits, book: Book, desk: set<string>, batch: seq<Proposal>)
  {
    forall i :: 0 <= i < |batch| ==> batch[i].strategy in desk && Approved(equity, limits, book, batch[i])
  }

  /** `k` copies of the largest proposal the snapshot admits. */
  function Largest(equity: real, limits: Limits, book: Book, strategy: string, isCorrelated: bool): Proposal
  {
    Proposal(strategy, Cap(equity, limits, book, strategy, isCorrelated), isCorrelated,
             1.0 + Money(-limits.dailyLoss, equity), false)
  }

  function Copies(p: Proposal, k: nat): seq<Proposal>
  {
    seq(k, _ => p)
  }

  lemma LargestBatch(equity: real, limits: Limits, book: Book, desk: set<string>, strategy: string, isCorrelated: bool, k: nat)
    requires Tradeable(equity, limits, book) && strategy in desk
    ensures StaleBatch(equity, limits, book, desk, Copies(Largest(equity, limits, book, strategy, isCorrelated), k))
  {
    hide Money;
    hide Approved;
    hide Cap;
    ApprovedUpToCap(equity, limits, book, Largest(equity, limits, book, strategy, isCorrelated));
  }

  /** What a batch adds to one of the book's figures. */
  function Added(batch: seq<Proposal>, counts: Proposal -> bool): real
    decreases |batch|
  {
    if batch == [] then 0.0
    else
      var p := batch[|batch| - 1];
      Added(batch[..|batch| - 1], counts) + if counts(p) then p.notional else 0.0
  }

  predicate Always(p: Proposal)
  {
    true
  }

  predicate IsCorrelated(p: Proposal)
  {
    p.isCorrelated
  }

  predicate IsOf(strategy: string, p: Proposal)
  {
    p.strategy == strategy
  }

  lemma {:induction false} BatchAdds(book: Book, batch: seq<Proposal>, strategy: string)
    ensures var after := BookedAll(book, batch);
      && after.total == book.total + Added(batch, Always)
      && after.correlated == book.correlated + Added(batch, IsCorrelated)
      && after.positions == book.positions + |batch|
      && Exposure(after, strategy) == Exposure(book, strategy) + Added(batch, p => IsOf(strategy, p))
      && (strategy in after.strategies <==> strategy in book.strategies || exists i :: 0 <= i < |batch| && batch[i].strategy == strategy)
    decreases |batch|
  {
    if batch != [] { BatchAdds(book, batch[..|batch| - 1], strategy); }
  }

  /** `k` times an amount. */
  function Times(k: nat, x: real): real
  {
    k as real * x
  }

  lemma {:induction false} CopiesAdd(p: Proposal, k: nat, counts: Proposal -> bool)
    requires counts(p)
    ensures Added(Copies(p, k), counts) == Times(k, p.notional)
  {
    if k > 0 {
      assert Copies(p, k)[..k - 1] == Copies(p, k - 1);
      CopiesAdd(p, k - 1, counts);
      TimesAdds(k - 1, p.notional, 0.0);
    }
  }

  lemma Multiples(k: nat, x: real, cap: real, room: real)
    requires x <= cap && Times(k, cap) <= room
    ensures Times(k, x) <= room
  {
    NotNegative(k as real, cap - x);
    assert k as real * (cap - x) == k as real * cap - k as real * x;
  }

  lemma NotNegative(x: real, y: real)
    requires x >= 0.0 && y >= 0.0
    ensures x * y >= 0.0
  {
  }

  lemma TimesAdds(k: nat, x: real, y: real)
    ensures Times(k, x + y) == Times(k, x) + Times(k, y)
    ensures Times(k + 1, x) == Times(k, x) + x
    ensures Times(k, 0.0) == 0.0 && Times(0, x) == 0.0
  {
  }

  /** Summands that fit `k` times into the room fit together if there are at most `k`. */
  lemma {:induction false} AddedFits(batch: seq<Proposal>, counts: Proposal -> bool, k: nat, room: real)
    requires room >= 0.0
    requires forall i :: 0 <= i < |batch| && counts(batch[i]) ==> Times(k, batch[i].notional) <= room
    ensures Times(k, Added(batch, counts)) <= Times(|batch|, room)
    decreases |batch|
  {
    hide Times;
    TimesAdds(k, 0.0, 0.0);
    TimesAdds(0, room, 0.0);
    if batch != [] {
      var n := |batch| - 1;
      AddedFits(batch[..n], counts, k, room);
      var more := if counts(batch[n]) then batch[n].notional else 0.0;
      TimesAdds(k, Added(batch[..n], counts), more);
      TimesAdds(n, room, 0.0);
    }
  }

  lemma AllFits(batch: seq<Proposal>, counts: Proposal -> bool, room: real)
    requires batch != [] && room >= 0.0
    requires forall i :: 0 <= i < |batch| && counts(batch[i]) ==> Times(|batch|, batch[i].notional) <= room
    ensures Added(batch, counts) <= room
  {
    AddedFits(batch, counts, |batch|, room);
    TimesOrders(|batch|, Added(batch, counts), room);
  }

  lemma TimesOrders(k: nat, x: real, y: real)
    requires k > 0 && Times(k, x) <= Times(k, y)
    ensures x <= y
  {
    Scales(x, y, k as real);
    assert x * k as real == k as real * x && y * k as real == k as real * y;
  }

  /** Summands below a negative room stay below it, once there is one. */
  lemma {:induction false} NegativeFits(batch: seq<Proposal>, counts: Proposal -> bool, room: real)
    requires room < 0.0
    requires forall i :: 0 <= i < |batch| && counts(batch[i]) ==> batch[i].notional <= room
    ensures Added(batch, counts) <= 0.0
    ensures (exists i :: 0 <= i < |batch| && counts(batch[i])) ==> Added(batch, counts) <= room
    decreases |batch|
  {
    if batch != [] { NegativeFits(batch[..|batch| - 1], counts, room); }
  }

  /** The notionals of a batch are at most the caps of their kind. */
  lemma BatchIsCapped(equity: real, limits: Limits, book: Book, desk: set<string>, batch: seq<Proposal>, i: nat)
    requires Tradeable(equity, limits, book) && StaleBatch(equity, limits, book, desk, batch) && i < |batch|
    ensures batch[i].notional <= Cap(equity, limits, book, batch[i].strategy, batch[i].isCorrelated)
    ensures Cap(equity, limits, book, batch[i].strategy, batch[i].isCorrelated) <= Cap(equity, limits, book, batch[i].strategy, false)
  {
    hide Money;
    hide Approved;
    ApprovedUpToCap(equity, limits, book, batch[i]);
  }

  predicate KeepsTotal(equity: real, limits: Limits, after: Book)
  {
    after.total <= Money(limits.total, equity)
  }

  /** Whatever batch of `k` the desk has approved on one snapshot, the total limit survives exactly when `k` times each cap fits. */
  lemma StaleTotalExactly(equity: real, limits: Limits, book: Book, desk: set<string>, k: nat)
    requires Tradeable(equity, limits, book) && k > 0
    ensures (forall batch | |batch| == k && StaleBatch(equity, limits, book, desk, batch) :: KeepsTotal(equity, limits, BookedAll(book, batch)))
            <==> forall s :: s in desk ==> Times(k, Cap(equity, limits, book, s, false)) <= TotalRoom(equity, limits, book)
  {
    hide Times;
    hide Money;
    hide Cap;
    hide Tradeable;
    var room := TotalRoom(equity, limits, book);
    if forall batch | |batch| == k && StaleBatch(equity, limits, book, desk, batch) :: KeepsTotal(equity, limits, BookedAll(book, batch)) {
      forall s | s in desk ensures Times(k, Cap(equity, limits, book, s, false)) <= room {
        var p := Largest(equity, limits, book, s, false);
        LargestBatch(equity, limits, book, desk, s, false, k);
        assert KeepsTotal(equity, limits, BookedAll(book, Copies(p, k)));
        BatchAdds(book, Copies(p, k), s);
        CopiesAdd(p, k, Always);
      }
    }
    if forall s :: s in desk ==> Times(k, Cap(equity, limits, book, s, false)) <= room {
      forall batch: seq<Proposal> | |batch| == k && StaleBatch(equity, limits, book, desk, batch) ensures KeepsTotal(equity, limits, BookedAll(book, batch)) {
        TotalFits(equity, limits, book, desk, batch);
      }
    }
  }

  lemma TotalFits(equity: real, limits: Limits, book: Book, desk: set<string>, batch: seq<Proposal>)
    requires Tradeable(equity, limits, book) && StaleBatch(equity, limits, book, desk, batch) && batch != []
    requires forall s :: s in desk ==> Times(|batch|, Cap(equity, limits, book, s, false)) <= TotalRoom(equity, limits, book)
    ensures KeepsTotal(equity, limits, BookedAll(book, batch))
  {
    hide Times;
    hide Money;
    hide Cap;
    var room := TotalRoom(equity, limits, book);
    forall i | 0 <= i < |batch| && Always(batch[i]) ensures Times(|batch|, batch[i].notional) <= room {
      BatchIsCapped(equity, limits, book, desk, batch, i);
      Multiples(|batch|, batch[i].notional, Cap(equity, limits, book, batch[i].strategy, false), room);
    }
    AllFits(batch, Always, room);
    BatchAdds(book, batch, batch[0].strategy);
  }

  predicate KeepsCorrelated(equity: real, limits: Limits, after: Book)
  {
    after.correlated <= Money(limits.correlated, equity)
  }

  /** The correlated limit survives exactly when `k` times each correlated cap fits. */
  lemma StaleCorrelatedExactly(equity: real, limits: Limits, book: Book, desk: set<string>, k: nat)
    requires Tradeable(equity, limits, book) && k > 0
    ensures (forall batch | |batch| == k && StaleBatch(equity, limits, book, desk, batch) :: KeepsCorrelated(equity, limits, BookedAll(book, batch)))
            <==> forall s :: s in desk ==> Times(k, Cap(equity, limits, book, s, true)) <= CorrelatedRoom(equity, limits, book)
  {
    hide Times;
    hide Money;
    hide Cap;
    hide Tradeable;
    var room := CorrelatedRoom(equity, limits, book);
    if forall batch | |batch| == k && StaleBatch(equity, limits, book, desk, batch) :: KeepsCorrelated(equity, limits, BookedAll(book, batch)) {
      forall s | s in desk ensures Times(k, Cap(equity, limits, book, s, true)) <= room {
        var p := Largest(equity, limits, book, s, true);
        LargestBatch(equity, limits, book, desk, s, true, k);
        assert KeepsCorrelated(equity, limits, BookedAll(book, Copies(p, k)));
        BatchAdds(book, Copies(p, k), s);
        CopiesAdd(p, k, IsCorrelated);
      }
    }
    if forall s :: s in desk ==> Times(k, Cap(equity, limits, book, s, true)) <= room {
      forall batch: seq<Proposal> | |batch| == k && StaleBatch(equity, limits, book, desk, batch) ensures KeepsCorrelated(equity, limits, BookedAll(book, batch)) {
        CorrelatedFits(equity, limits, book, desk, batch);
      }
    }
  }

  lemma CorrelatedFits(equity: real, limits: Limits, book: Book, desk: set<string>, batch: seq<Proposal>)
    requires Tradeable(equity, limits, book) && StaleBatch(equity, limits, book, desk, batch) && batch != []
    requires forall s :: s in desk ==> Times(|batch|, Cap(equity, limits, book, s, true)) <= CorrelatedRoom(equity, limits, book)
    ensures KeepsCorrelated(equity, limits, BookedAll(book, batch))
  {
    hide Times;
    hide Money;
    hide Cap;
    var room := CorrelatedRoom(equity, limits, book);
    forall i | 0 <= i < |batch| && IsCorrelated(batch[i]) ensures Times(|batch|, batch[i].notional) <= room {
      BatchIsCapped(equity, limits, book, desk, batch, i);
      Multiples(|batch|, batch[i].notional, Cap(equity, limits, book, batch[i].strategy, true), room);
    }
    AllFits(batch, IsCorrelated, room);
    BatchAdds(book, batch, batch[0].strategy);
  }

  predicate KeepsStrategies(equity: real, limits: Limits, after: Book)
  {
    limits.strategy.AtMost? ==> forall s :: s in after.strategies ==> after.strategies[s] <= Money(limits.strategy.fraction, equity)
  }

  /** The strategy limit survives exactly when `k` times each cap fits into the room of its own strategy. */
  lemma StaleStrategyExactly(equity: real, limits: Limits, book: Book, desk: set<string>, k: nat)
    requires Tradeable(equity, limits, book) && k > 0 && limits.strategy.AtMost?
    ensures (forall batch | |batch| == k && StaleBatch(equity, limits, book, desk, batch) :: KeepsStrategies(equity, limits, BookedAll(book, batch)))
            <==> forall s :: s in desk ==> Times(k, Cap(equity, limits, book, s, false)) <= StrategyRoom(equity, limits, book, s)
  {
    hide Times;
    hide Money;
    hide Cap;
    hide Tradeable;
    if forall batch | |batch| == k && StaleBatch(equity, limits, book, desk, batch) :: KeepsStrategies(equity, limits, BookedAll(book, batch)) {
      forall s | s in desk ensures Times(k, Cap(equity, limits, book, s, false)) <= StrategyRoom(equity, limits, book, s) {
        var p := Largest(equity, limits, book, s, false);
        LargestBatch(equity, limits, book, desk, s, false, k);
        assert KeepsStrategies(equity, limits, BookedAll(book, Copies(p, k)));
        BatchAdds(book, Copies(p, k), s);
        assert Copies(p, k)[0].strategy == s;
        CopiesAdd(p, k, q => IsOf(s, q));
      }
    }
    if forall s :: s in desk ==> Times(k, Cap(equity, limits, book, s, false)) <= StrategyRoom(equity, limits, book, s) {
      forall batch: seq<Proposal> | |batch| == k && StaleBatch(equity, limits, book, desk, batch) ensures KeepsStrategies(equity, limits, BookedAll(book, batch)) {
        var after := BookedAll(book, batch);
        forall s | s in after.strategies ensures after.strategies[s] <= Money(limits.strategy.fraction, equity) {
          StrategyFits(equity, limits, book, desk, batch, s);
        }
      }
    }
  }

  lemma StrategyFits(equity: real, limits: Limits, book: Book, desk: set<string>, batch: seq<Proposal>, s: string)
    requires Tradeable(equity, limits, book) && StaleBatch(equity, limits, book, desk, batch) && batch != []
    requires limits.strategy.AtMost? && s in BookedAll(book, batch).strategies
    requires forall s :: s in desk ==> Times(|batch|, Cap(equity, limits, book, s, false)) <= StrategyRoom(equity, limits, book, s)
    ensures Exposure(BookedAll(book, batch), s) <= Money(limits.strategy.fraction, equity)
  {
    hide Times;
    hide Money;
    var room := StrategyRoom(equity, limits, book, s);
    var counts := (p: Proposal) => IsOf(s, p);
    BatchAdds(book, batch, s);
    forall i | 0 <= i < |batch| && counts(batch[i])
      ensures Times(|batch|, batch[i].notional) <= room && batch[i].notional <= room
    {
      BatchIsCapped(equity, limits, book, desk, batch, i);
      CapInRoom(equity, limits, book, s);
      Multiples(|batch|, batch[i].notional, Cap(equity, limits, book, s, false), room);
    }
    hide Cap;
    if room >= 0.0 { AllFits(batch, counts, room); } else { NegativeFits(batch, counts, room); }
  }

  lemma CapInRoom(equity: real, limits: Limits, book: Book, s: string)
    requires limits.strategy.AtMost?
    ensures Cap(equity, limits, book, s, false) <= StrategyRoom(equity, limits, book, s)
  {
    hide Money;
  }

  /** The position limit survives exactly when there are `k` free positions. */
  lemma StalePositionsExactly(equity: real, limits: Limits, book: Book, desk: set<string>, k: nat)
    requires Tradeable(equity, limits, book) && desk != {}
    ensures (forall batch | |batch| == k && StaleBatch(equity, limits, book, desk, batch) :: BookedAll(book, batch).positions <= limits.positions)
            <==> book.positions + k <= limits.positions
  {
    hide Times;
    hide Money;
    hide Cap;
    hide Tradeable;
    var s :| s in desk;
    var copies := Copies(Largest(equity, limits, book, s, false), k);
    LargestBatch(equity, limits, book, desk, s, false, k);
    BatchAdds(book, copies, s);
    assert |copies| == k;
    forall batch | |batch| == k && StaleBatch(equity, limits, book, desk, batch)
      ensures BookedAll(book, batch).positions == book.positions + k
    {
      BatchAdds(book, batch, s);
    }
  }

  /**
   Without a strategy limit the cap is one figure: `k` stale approvals keep the
   total limit exactly when `k` times the smaller of a single trade and the room
   fits into the room.
   */
  lemma StaleTotalWithoutStrategies(equity: real, limits: Limits, book: Book, k: nat)
    requires Tradeable(equity, limits, book) && k > 0 && limits.strategy.Unlimited?
    ensures
      var room := TotalRoom(equity, limits, book);
      (forall batch | |batch| == k && (forall i :: 0 <= i < |batch| ==> Approved(equity, limits, book, batch[i])) ::
         KeepsTotal(equity, limits, BookedAll(book, batch)))
      <==> Times(k, Least(Money(limits.perTrade, equity), room)) <= room
  {
    hide Times;
    hide Money;
    hide Tradeable;
    hide Approved;
    var room := TotalRoom(equity, limits, book);
    var cap := Least(Money(limits.perTrade, equity), room);
    assert forall s :: Cap(equity, limits, book, s, false) == cap;
    hide Cap;
    if forall batch | |batch| == k && (forall i :: 0 <= i < |batch| ==> Approved(equity, limits, book, batch[i])) ::
         KeepsTotal(equity, limits, BookedAll(book, batch))
    {
      var copies := Copies(Largest(equity, limits, book, "", false), k);
      LargestBatch(equity, limits, book, {""}, "", false, k);
      assert KeepsTotal(equity, limits, BookedAll(book, copies));
      BatchAdds(book, copies, "");
      CopiesAdd(Largest(equity, limits, book, "", false), k, Always);
    }
    if Times(k, cap) <= room {
      forall batch: seq<Proposal> | |batch| == k && (forall i :: 0 <= i < |batch| ==> Approved(equity, limits, book, batch[i]))
        ensures KeepsTotal(equity, limits, BookedAll(book, batch))
      {
        var desk := set i | 0 <= i < |batch| :: batch[i].strategy;
        TotalFits(equity, limits, book, desk, batch);
      }
    }
  }

  // -------------------------------------------------------------------- sizing

  datatype Side = Buy | Sell | OtherSide

  datatype SizingError =
    | AtrNotPositive | PipSizeNotPositive | EquityNotPositive
    | RiskOutOfRange | StopNotPositive | PipValueNotPositive | SideUnknown

  datatype Result<T> = Ok(value: T) | Err(error: SizingError)

  datatype Size = Size(base: real, final: real, stopDistance: real, stopPrice: real)

  /** Rounding toward zero at two places. */
  function RoundDown(x: real): real
  {
    if x >= 0.0 then ((x * 100.0).Floor as real) / 100.0 else -(((-x * 100.0).Floor as real) / 100.0)
  }

  /** Whole hundredths of a lot. */
  predicate IsHundredths(x: real)
  {
    (x * 100.0).Floor as real == x * 100.0
  }

  function BaseVolume(equity: real, risk: real, stopPips: real, pipValue: real): Result<real>
  {
    if equity <= 0.0 then Err(EquityNotPositive)
    else if risk <= 0.0 || risk >= 1.0 then Err(RiskOutOfRange)
    else if stopPips <= 0.0 then Err(StopNotPositive)
    else if pipValue <= 0.0 then Err(PipValueNotPositive)
    else DenominatorPositive(stopPips, pipValue); Ok(RoundDown(equity * risk / (stopPips * pipValue)))
  }

  lemma DenominatorPositive(a: real, b: real)
    requires a > 0.0 && b > 0.0
    ensures a * b > 0.0
  {
  }

  function Clamp(volume: real, low: real, high: real): real
  {
    if volume < low then low else if volume > high then high else volume
  }

  /** The base volume scaled by a risk multiplier, inside the broker's range. */
  function ScaledVolume(base: real, multiplier: real, low: real, high: real): real
  {
    Clamp(base * multiplier, low, high)
  }

  function StopPrice(entry: real, distance: real, side: Side): Result<real>
  {
    match side
    case Buy => Ok(entry - distance)
    case Sell => Ok(entry + distance)
    case OtherSide => Err(SideUnknown)
  }

  /** The broker and account figures a trade is sized with. */
  datatype Terms = Terms(risk: real, atrMultiplier: real, pipValue: real, pipSize: real, low: real, high: real)

  function StopDistance(atr: real, multiplier: real): real
  {
    atr * multiplier
  }

  function StopPips(atr: real, terms: Terms): real
    requires terms.pipSize != 0.0
  {
    StopDistance(atr, terms.atrMultiplier) / terms.pipSize
  }

  function CalculateSize(entry: real, atr: real, equity: real, terms: Terms, side: Side, multiplier: real): Result<Size>
  {
    if atr <= 0.0 then Err(AtrNotPositive)
    else if terms.pipSize <= 0.0 then Err(PipSizeNotPositive)
    else
      var distance := StopDistance(atr, terms.atrMultiplier);
      match BaseVolume(equity, terms.risk, StopPips(atr, terms), terms.pipValue)
      case Err(error) => Err(error)
      case Ok(base) =>
        match StopPrice(entry, distance, side)
        case Err(error) => Err(error)
        case Ok(stop) => Ok(Size(base, ScaledVolume(base, multiplier, terms.low, terms.high), distance, stop))
  }

  ghost predicate Sizeable(atr: real, equity: real, terms: Terms, side: Side)
  {
    && atr > 0.0 && terms.pipSize > 0.0 && equity > 0.0 && 0.0 < terms.risk < 1.0
    && terms.atrMultiplier > 0.0 && terms.pipValue > 0.0 && side != OtherSide
  }

  /** Sizing succeeds exactly on well-formed figures, whatever the entry price and the multiplier. */
  lemma SizedExactly(entry: real, atr: real, equity: real, terms: Terms, side: Side, multiplier: real)
    ensures CalculateSize(entry, atr, equity, terms, side, multiplier).Ok? <==> Sizeable(atr, equity, terms, side)
  {
    hide RoundDown;
    hide StopPips;
    if atr > 0.0 && terms.pipSize > 0.0 { StopPipsSign(atr, terms); }
  }

  lemma StopPipsSign(atr: real, terms: Terms)
    requires atr > 0.0 && terms.pipSize > 0.0
    ensures StopPips(atr, terms) > 0.0 <==> terms.atrMultiplier > 0.0
    ensures StopDistance(atr, terms.atrMultiplier) > 0.0 <==> terms.atrMultiplier > 0.0
  {
    SameSign(atr, terms.atrMultiplier);
    QuotientSign(atr * terms.atrMultiplier, terms.pipSize);
  }

  lemma SameSign(a: real, b: real)
    requires a > 0.0
    ensures a * b > 0.0 <==> b > 0.0
  {
    if b <= 0.0 { assert a * -b >= 0.0; }
  }

  lemma QuotientSign(a: real, b: real)
    requires b > 0.0
    ensures a / b > 0.0 <==> a > 0.0
  {
    var q := a / b;
    assert q * b == a;
    SameSign(b, q);
  }

  /** Rounding down gives the largest number of whole hundredths that does not exceed the volume. */
  lemma RoundDownIsLargest(x: real, y: real)
    requires x >= 0.0
    ensures 0.0 <= RoundDown(x) <= x < RoundDown(x) + 0.01
    ensures IsHundredths(RoundDown(x))
    ensures IsHundredths(y) && y <= x ==> y <= RoundDown(x)
  {
    assert RoundDown(x) * 100.0 == (x * 100.0).Floor as real;
    if IsHundredths(y) && y <= x {
      assert (y * 100.0).Floor <= (x * 100.0).Floor;
    }
  }

  /** Rounding is toward zero: a negative volume rounds like its opposite. */
  lemma RoundDownIsOdd(x: real)
    ensures RoundDown(-x) == -RoundDown(x)
  {
    assert -(-x) == x;
    assert RoundDown(0.0) == 0.0;
  }

  /** What a position of `volume` lots loses when its stop is reached. */
  function LossAtStop(volume: real, atr: real, terms: Terms): real
    requires terms.pipSize != 0.0
  {
    volume * (StopPips(atr, terms) * terms.pipValue)
  }

  /** The base volume risks at most the budget, and one hundredth of a lot more would exceed it. */
  lemma BaseUsesTheBudget(equity: real, risk: real, stopPips: real, pipValue: real, base: real)
    requires BaseVolume(equity, risk, stopPips, pipValue) == Ok(base)
    ensures base >= 0.0 && IsHundredths(base)
    ensures base * (stopPips * pipValue) <= equity * risk < (base + 0.01) * (stopPips * pipValue)
  {
    hide RoundDown;
    hide IsHundredths;
    DenominatorPositive(equity, risk);
    DenominatorPositive(stopPips, pipValue);
    RoundedQuotient(equity * risk, stopPips * pipValue, base);
  }

  lemma RoundedQuotient(budget: real, perLot: real, base: real)
    requires budget > 0.0 && perLot > 0.0 && base == RoundDown(budget / perLot)
    ensures base >= 0.0 && IsHundredths(base)
    ensures base * perLot <= budget < (base + 0.01) * perLot
  {
    hide RoundDown;
    hide IsHundredths;
    var volume := budget / perLot;
    QuotientSign(budget, perLot);
    RoundDownIsLargest(volume, 0.0);
    QuotientTimes(budget, perLot, volume);
    CrossMultiplied(base, volume, base + 0.01, perLot, budget);
  }

  lemma QuotientTimes(a: real, b: real, q: real)
    requires b != 0.0 && q == a / b
    ensures q * b == a
  {
  }

  lemma CrossMultiplied(low: real, x: real, high: real, e: real, budget: real)
    requires e > 0.0 && low <= x < high && x * e == budget
    ensures low * e <= budget < high * e
  {
    Scales(high, x, e);
    Scales(low, x, e);
  }

  /** A clamped volume is in range, and unless it is the minimum it does not exceed what was asked for. */
  lemma ClampBounds(volume: real, low: real, high: real)
    ensures low <= high ==> low <= Clamp(volume, low, high) <= high
    ensures Clamp(volume, low, high) == low || Clamp(volume, low, high) <= volume
  {
  }

  /**
   A sized volume is the minimum lot or risks at most `multiplier` times the
   budget at its stop.  A negative multiplier, which the policy can hold, can
   only give the minimum lot.
   */
  lemma ScaledVolumeIsBounded(atr: real, equity: real, terms: Terms, side: Side, base: real, multiplier: real)
    requires Sizeable(atr, equity, terms, side) && 0.0 < terms.low <= terms.high
    requires BaseVolume(equity, terms.risk, StopPips(atr, terms), terms.pipValue) == Ok(base)
    ensures
      var final := ScaledVolume(base, multiplier, terms.low, terms.high);
      && terms.low <= final <= terms.high
      && (final == terms.low
          || (multiplier > 0.0 && LossAtStop(final, atr, terms) <= multiplier * (terms.risk * equity)))
  {
    hide BaseVolume;
    hide IsHundredths;
    hide StopPips;
    hide Clamp;
    var perLot := StopPips(atr, terms) * terms.pipValue;
    BaseUsesTheBudget(equity, terms.risk, StopPips(atr, terms), terms.pipValue, base);
    StopPipsSign(atr, terms);
    DenominatorPositive(StopPips(atr, terms), terms.pipValue);
    var final := ScaledVolume(base, multiplier, terms.low, terms.high);
    ClampBounds(base * multiplier, terms.low, terms.high);
    if final != terms.low {
      FactorPositive(base, multiplier);
      ScaledLoss(final, base, multiplier, perLot, terms.risk * equity);
    }
  }

  lemma FactorPositive(a: real, b: real)
    requires a >= 0.0 && a * b > 0.0
    ensures b > 0.0
  {
  }

  lemma ScaledLoss(final: real, base: real, multiplier: real, perLot: real, budget: real)
    requires perLot > 0.0 && multiplier > 0.0 && final <= base * multiplier && base * perLot <= budget
    ensures final * perLot <= multiplier * budget
  {
    Scales(final, base * multiplier, perLot);
    Scales(budget, base * perLot, multiplier);
    assert base * multiplier * perLot == base * perLot * multiplier;
  }

  /** The stop stands on the losing side of the entry, at the sized distance. */
  lemma StopIsOnTheLosingSide(entry: real, atr: real, equity: real, terms: Terms, side: Side, multiplier: real)
    requires CalculateSize(entry, atr, equity, terms, side, multiplier).Ok?
    ensures
      var size := CalculateSize(entry, atr, equity, terms, side, multiplier).value;
      && size.stopDistance > 0.0
      && (side == Buy ==> size.stopPrice < entry && entry - size.stopPrice == size.stopDistance)
      && (side == Sell ==> size.stopPrice > entry && size.stopPrice - entry == size.stopDistance)
  {
    hide BaseVolume;
    hide StopPips;
    hide StopDistance;
    hide ScaledVolume;
    SizedExactly(entry, atr, equity, terms, side, multiplier);
    StopPipsSign(atr, terms);
  }

  lemma SizeHasBase(entry: real, atr: real, equity: real, terms: Terms, side: Side, multiplier: real)
    requires CalculateSize(entry, atr, equity, terms, side, multiplier).Ok?
    ensures Sizeable(atr, equity, terms, side)
    ensures BaseVolume(equity, terms.risk, StopPips(atr, terms), terms.pipValue)
            == Ok(CalculateSize(entry, atr, equity, terms, side, multiplier).value.base)
  {
    hide Sizeable;
    hide BaseVolume;
    hide StopPips;
    hide ScaledVolume;
    SizedExactly(entry, atr, equity, terms, side, multiplier);
  }

  /** Which figure a sizing is refused for: the first of them in the order of the checks. */
  lemma SizingErrorExactly(entry: real, atr: real, equity: real, terms: Terms, side: Side, multiplier: real)
    ensures
      var r := CalculateSize(entry, atr, equity, terms, side, multiplier);
      && (atr <= 0.0 ==> r == Err(AtrNotPositive))
      && (atr > 0.0 && terms.pipSize <= 0.0 ==> r == Err(PipSizeNotPositive))
      && (atr > 0.0 && terms.pipSize > 0.0 ==>
            && (equity <= 0.0 ==> r == Err(EquityNotPositive))
            && (equity > 0.0 && !(0.0 < terms.risk < 1.0) ==> r == Err(RiskOutOfRange))
            && (equity > 0.0 && 0.0 < terms.risk < 1.0 && terms.atrMultiplier <= 0.0 ==> r == Err(StopNotPositive))
            && (equity > 0.0 && 0.0 < terms.risk < 1.0 && terms.atrMultiplier > 0.0 && terms.pipValue <= 0.0 ==>
                  r == Err(PipValueNotPositive))
            && (equity > 0.0 && 0.0 < terms.risk < 1.0 && terms.atrMultiplier > 0.0 && terms.pipValue > 0.0 && side == OtherSide ==>
                  r == Err(SideUnknown)))
  {
    hide RoundDown;
    hide StopPips;
    hide ScaledVolume;
    if atr > 0.0 && terms.pipSize > 0.0 { StopPipsSign(atr, terms); }
  }

  /** The figures of a sized trade: the largest hundredths inside the budget, scaled into range, and the stop one distance away. */
  lemma SizeExactly(entry: real, atr: real, equity: real, terms: Terms, side: Side, multiplier: real)
    requires CalculateSize(entry, atr, equity, terms, side, multiplier).Ok?
    ensures
      var size := CalculateSize(entry, atr, equity, terms, side, multiplier).value;
      var perLot := atr * terms.atrMultiplier / terms.pipSize * terms.pipValue;
      && terms.pipSize > 0.0
      && size.base >= 0.0 && (size.base * 100.0).Floor as real == size.base * 100.0
      && size.base * perLot <= equity * terms.risk < (size.base + 0.01) * perLot
      && size.final == (if size.base * multiplier < terms.low then terms.low
                        else if size.base * multiplier > terms.high then terms.high
                        else size.base * multiplier)
      && size.stopDistance == atr * terms.atrMultiplier
      && (side == Buy ==> size.stopPrice == entry - atr * terms.atrMultiplier)
      && (side == Sell ==> size.stopPrice == entry + atr * terms.atrMultiplier)
  {
    var size := CalculateSize(entry, atr, equity, terms, side, multiplier).value;
    SizeHasBase(entry, atr, equity, terms, side, multiplier);
    SizeFields(entry, atr, equity, terms, side, multiplier);
    hide CalculateSize;
    BaseUsesTheBudget(equity, terms.risk, StopPips(atr, terms), terms.pipValue, size.base);
    hide BaseVolume;
  }

  lemma SizeFields(entry: real, atr: real, equity: real, terms: Terms, side: Side, multiplier: real)
    requires CalculateSize(entry, atr, equity, terms, side, multiplier).Ok?
    ensures
      var size := CalculateSize(entry, atr, equity, terms, side, multiplier).value;
      && size.final == (if size.base * multiplier < terms.low then terms.low
                        else if size.base * multiplier > terms.high then terms.high
                        else size.base * multiplier)
      && size.stopDistance == atr * terms.atrMultiplier
      && (side == Buy ==> size.stopPrice == entry - atr * terms.atrMultiplier)
      && (side == Sell ==> size.stopPrice == entry + atr * terms.atrMultiplier)
  {
    hide BaseVolume;
    hide StopPips;
  }

  // ------------------------------------------------------- the advisory multiplier

  /** A policy value: a number, or something that is not one. */
  datatype Raw = Missing | Number(value: real) | NotANumber

  datatype BandMap = Bands(bands: map<string, Raw>) | NotAMap

  function ResolveRiskAdjustment(adjustments: map<string, BandMap>, bucket: string, band: string): real
  {
    if bucket !in adjustments then 1.0
    else
      match adjustments[bucket]
      case NotAMap => 1.0
      case Bands(bands) => if band in bands && bands[band].Number? then bands[band].value else 1.0
  }

  /** The validated output of the advisory stage. */
  datatype Advice = Advice(veto: bool, bucket: string)

  datatype Assessed = Assessed(final: real, multiplier: real, bucket: string, veto: bool)

  function ApplyAssessment(advice: Advice, base: real, adjustments: map<string, BandMap>, band: string, low: real, high: real): Assessed
  {
    var multiplier := ResolveRiskAdjustment(adjustments, advice.bucket, band);
    Assessed(ScaledVolume(base, multiplier, low, high), multiplier, advice.bucket, advice.veto)
  }

  /** A multiplier other than one is always a number the policy itself holds; the adviser only picks the bucket. */
  lemma MultiplierComesFromPolicy(adjustments: map<string, BandMap>, bucket: string, band: string)
    ensures
      var m := ResolveRiskAdjustment(adjustments, bucket, band);
      m != 1.0 ==> bucket in adjustments && adjustments[bucket].Bands?
                   && band in adjustments[bucket].bands && adjustments[bucket].bands[band] == Number(m)
  {
  }

  /** The advised size of a sized trade is the minimum lot or within the multiplied budget. */
  lemma AdvisedSizeIsBounded(entry: real, atr: real, equity: real, terms: Terms, side: Side, size: Size,
                             advice: Advice, adjustments: map<string, BandMap>, band: string)
    requires CalculateSize(entry, atr, equity, terms, side, 1.0) == Ok(size) && 0.0 < terms.low <= terms.high
    ensures
      var assessed := ApplyAssessment(advice, size.base, adjustments, band, terms.low, terms.high);
      && terms.pipSize != 0.0
      && terms.low <= assessed.final <= terms.high
      && (assessed.final == terms.low
          || LossAtStop(assessed.final, atr, terms) <= assessed.multiplier * (terms.risk * equity))
  {
    hide CalculateSize;
    hide BaseVolume;
    hide StopPips;
    hide ScaledVolume;
    hide LossAtStop;
    hide ResolveRiskAdjustment;
    SizeHasBase(entry, atr, equity, terms, side, 1.0);
    ScaledVolumeIsBounded(atr, equity, terms, side, size.base, ResolveRiskAdjustment(adjustments, advice.bucket, band));
  }
}
