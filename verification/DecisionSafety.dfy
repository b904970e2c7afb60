/**
 What decision cycles keep: when a command reaches the router, what has been
 committed by then, and what a run of many cycles never does.
 */
module DecisionSafety {
  import opened RiskSizing
  import opened Orchestrator

  // ------------------------------------------------------ the shape of a cycle

  predicate Trades(c: Cycle)
  {
    c.action == BUY || c.action == SELL
  }

  /** Every check, stage and journal row up to the proposal goes well. */
  ghost predicate StagesPass(c: Cycle)
  {
    && AnalystsPass(c)
    && (if c.debateHeld then c.clock.debate > FORUM_RESERVE && c.debate.ok && DebateValidated !in c.failingSteps
        else DebateSkipped !in c.failingSteps)
    && c.clock.forum > FORUM_RESERVE && c.forum.ok && IcValidated !in c.failingSteps
    && c.clock.proposer > PROPOSER_RESERVE && c.proposer.ok && ProposalValidated !in c.failingSteps
  }

  ghost predicate AnalystsPass(c: Cycle)
  {
    && c.clock.analysts > ANALYST_RESERVE
    && c.technical.ok && c.macroStage.ok && c.news.ok && c.smc.ok
    && c.technical.traces != [] && c.macroStage.traces != [] && c.news.traces != [] && c.smc.traces != []
    && AnalystsValidated !in c.failingSteps
  }

  ghost predicate AdvicePasses(c: Cycle)
  {
    Sizing(c).Ok? && c.clock.assessor > RISK_RESERVE && c.assessor.ok
  }

  /** The trace ids a proposal lists. */
  function ProposalTraces(c: Cycle): seq<TraceId>
  {
    AnalystTraces(c) + (if c.debateHeld then c.debate.traces else []) + c.forum.traces + c.proposer.traces
  }

  lemma DebateExactly(p: Progress, c: Cycle)
    requires p.Going? && p.ids != []
    ensures DebatePhase(p, c).Going?
            <==> if c.debateHeld then c.clock.debate > FORUM_RESERVE && c.debate.ok && DebateValidated !in c.failingSteps
                 else DebateSkipped !in c.failingSteps
    ensures DebatePhase(p, c).Going? ==> DebatePhase(p, c).ids == p.ids + if c.debateHeld then c.debate.traces else []
  {
    hide WithTraces;
  }

  lemma ForumExactly(p: Progress, c: Cycle)
    requires p.Going? && p.ids != []
    ensures ForumPhase(p, c).Going? <==> c.clock.forum > FORUM_RESERVE && c.forum.ok && IcValidated !in c.failingSteps
    ensures ForumPhase(p, c).Going? ==> ForumPhase(p, c).ids == p.ids + c.forum.traces
  {
    hide WithTraces;
  }

  lemma HaltedPhases(p: Progress, c: Cycle)
    requires p.Halted?
    ensures DebatePhase(p, c) == p && ForumPhase(p, c) == p && ProposalPhase(p, c) == p
  {
  }

  /** The deliberation reaches a proposal exactly when every stage passes. */
  lemma DeliberationExactly(desk: Desk, c: Cycle)
    ensures Deliberation(desk, c).Going? <==> StagesPass(c)
    ensures Deliberation(desk, c).Going? ==> Deliberation(desk, c).ids == ProposalTraces(c) && ProposalTraces(c) != []
  {
    hide WithTraces;
    hide DebatePhase;
    hide ForumPhase;
    var analysts := AnalystPhase(Going(desk, []), c);
    assert [] + AnalystTraces(c) == AnalystTraces(c);
    if analysts.Halted? {
      HaltedPhases(analysts, c);
    } else {
      DebateExactly(analysts, c);
      var debated := DebatePhase(analysts, c);
      if debated.Halted? {
        HaltedPhases(debated, c);
      } else {
        ForumExactly(debated, c);
        if ForumPhase(debated, c).Halted? { HaltedPhases(ForumPhase(debated, c), c); }
      }
    }
  }

  /** The volume a trading cycle arrives at. */
  function VolumeOf(c: Cycle): real
  {
    match Sizing(c)
    case Err(_) => 0.0
    case Ok(size) => Assessing(c, size).final
  }

  function ReasonsOf(c: Cycle): seq<Reason>
  {
    match Sizing(c)
    case Err(_) => []
    case Ok(size) => Reasons(c, Assessing(c, size))
  }

  function CommandOf(c: Cycle): Command
  {
    Command(c.id, c.action, VolumeOf(c), if Sizing(c).Ok? then Sizing(c).value.stopPrice else 0.0)
  }

  /** The lineage row a cycle writes if it gets that far. */
  function RecordOf(c: Cycle): Record
  {
    if !Trades(c) || Sizing(c).Err? then NoTradeRecord(c, ProposalTraces(c))
    else
      TradeRecord(c, if ReasonsOf(c) != [] then Rejected else Approved, Assessing(c, Sizing(c).value), ProposalTraces(c))
  }

  /** The result a cycle returns if nothing fails. */
  function ResultOf(c: Cycle): Orchestrator.Result
  {
    if !Trades(c) then Returned(c.id, NoTrade, c.action, 0.0, [NoTradeWanted])
    else Returned(c.id, RecordOf(c).verdict, c.action, VolumeOf(c), ReasonsOf(c))
  }

  /** The cycle up to the point where the lineage row is written. */
  function Prepared(desk: Desk, c: Cycle): Progress
  {
    var p := Deliberation(desk, c);
    if p.Halted? || !Trades(c) then p
    else
      match Sizing(c)
      case Err(reason) => Halted(p.desk, SizingFailed(reason))
      case Ok(_) => Evidenced(Staged(Checked(p, c.clock.assessor, RISK_RESERVE), c.assessor))
  }

  function EvidenceOf(c: Cycle): seq<TraceId>
  {
    ProposalTraces(c) + if Trades(c) then c.assessor.traces else []
  }

  lemma PreparedExactly(desk: Desk, c: Cycle)
    ensures Prepared(desk, c).Going? <==> StagesPass(c) && (Trades(c) ==> AdvicePasses(c))
    ensures Prepared(desk, c).Going? ==> Prepared(desk, c).ids == EvidenceOf(c) && EvidenceOf(c) != []
  {
    hide WithTraces;
    hide StagesPass;
    hide Deliberation;
    hide Sizing;
    DeliberationExactly(desk, c);
    assert ProposalTraces(c) + [] == ProposalTraces(c);
  }

  /** The last step of a cycle whose lineage row is committed. */
  function LastStep(c: Cycle): Step
  {
    match RecordOf(c).verdict
    case NoTrade => Noop
    case Rejected => RiskRejected
    case Approved => Dispatched
  }

  /** Everything the cycle leaves behind, from the point where the lineage row is written. */
  function Closing(written: Progress, c: Cycle): Ending
  {
    var handed := if RecordOf(c).verdict == Approved then Handing(Built(written, c), c, CommandOf(c)) else written;
    EndAs(Journaled(handed, c, LastStep(c), Linked(c.id)), ResultOf(c))
  }

  /** A cycle is its preparation, one lineage transaction, and a closing. */
  lemma AfterShape(desk: Desk, c: Cycle)
    ensures After(desk, c) == Closing(LineageWritten(Prepared(desk, c), c, RecordOf(c)), c)
  {
    hide StagesPass;
    hide Deliberation;
    hide ProposalTraces;
    hide WithTraces;
    hide Committed;
    hide Sizing;
    hide Assessing;
    hide Reasons;
    DeliberationExactly(desk, c);
  }

  // ---------------------------------------------------------- when it dispatches

  /** The lineage row can be committed. */
  ghost predicate Recordable(desk: Desk, c: Cycle)
  {
    && StagesPass(c) && (Trades(c) ==> AdvicePasses(c))
    && c.id !in desk.lineage && c.flushes && c.commits
  }

  /** The row that is committed approves a trade. */
  ghost predicate Approvable(desk: Desk, c: Cycle)
  {
    && Recordable(desk, c) && Trades(c)
    && Fits(RiskInputs(c, VolumeOf(c)), RiskLimits(c))
    && !c.advice.veto
  }

  /** All that must hold before a command may leave. */
  ghost predicate Cleared(desk: Desk, c: Cycle)
  {
    Approvable(desk, c) && c.replyArrives && c.commandBuilds
  }

  lemma NoReasonsExactly(c: Cycle)
    requires Sizing(c).Ok?
    ensures ReasonsOf(c) == [] <==> Fits(RiskInputs(c, VolumeOf(c)), RiskLimits(c)) && !c.advice.veto
  {
    hide Fits;
    hide Violations;
    hide Sizing;
    hide ScaledVolume;
    ApprovedExactly(RiskInputs(c, VolumeOf(c)), RiskLimits(c));
    var violations := Violations(RiskInputs(c, VolumeOf(c)), RiskLimits(c));
    assert |BrokenLimits(violations)| == |violations|;
  }

  lemma ApprovedRecordExactly(desk: Desk, c: Cycle)
    requires Recordable(desk, c)
    ensures RecordOf(c).verdict == Approved <==> Approvable(desk, c)
  {
    hide Fits;
    hide Sizing;
    hide StagesPass;
    hide ReasonsOf;
    hide VolumeOf;
    if Trades(c) { NoReasonsExactly(c); }
  }

  lemma WrittenExactly(desk: Desk, c: Cycle)
    ensures
      var prepared, written := Prepared(desk, c), LineageWritten(Prepared(desk, c), c, RecordOf(c));
      && (written.Going? <==> Recordable(desk, c) && c.replyArrives)
      && written.desk == if Recordable(desk, c) then Committed(prepared.desk, c, RecordOf(c), EvidenceOf(c)) else prepared.desk
    ensures Prepared(desk, c).desk.lineage == desk.lineage && Prepared(desk, c).desk.log == desk.log
  {
    hide StagesPass;
    hide RecordOf;
    hide Prepared;
    hide Committed;
    hide AdvicePasses;
    PreparedExactly(desk, c);
    PreparedExtends(desk, c);
  }

  /**
   The visible events of one cycle: nothing unless recordable, then its one row, and
   behind it its command exactly when cleared; the row approves exactly the
   approvable, so an approved row without a command is left exactly when the
   reply of the commit is lost or the command cannot be built.
   */
  lemma EventsExactly(desk: Desk, c: Cycle)
    ensures After(desk, c).desk.log
            == desk.log + if Cleared(desk, c) then [RowCommitted(RecordOf(c)), Handed(CommandOf(c))]
                          else if Recordable(desk, c) then [RowCommitted(RecordOf(c))]
                          else []
    ensures Recordable(desk, c) ==> (RecordOf(c).verdict == Approved <==> Approvable(desk, c))
  {
    hide StagesPass;
    hide Prepared;
    hide RecordOf;
    hide ResultOf;
    hide CommandOf;
    hide Fits;
    hide Linking;
    hide Relinking;
    AfterShape(desk, c);
    WrittenExactly(desk, c);
    if Recordable(desk, c) { ApprovedRecordExactly(desk, c); }
    assert desk.log + [RowCommitted(RecordOf(c))] + [Handed(CommandOf(c))]
           == desk.log + [RowCommitted(RecordOf(c)), Handed(CommandOf(c))];
    assert desk.log + [] == desk.log;
  }

  /** A cycle can raise although its command has been handed over: exactly on a router error or a failing last journal row. */
  lemma RaisedAfterDispatchExactly(desk: Desk, c: Cycle)
    requires Cleared(desk, c)
    ensures After(desk, c).result.Raised? <==> c.router.RouterRaises? || Dispatched in c.failingSteps
    ensures After(desk, c).result.Returned? ==> After(desk, c).result == Returned(c.id, Approved, c.action, VolumeOf(c), [])
  {
    hide StagesPass;
    hide Prepared;
    hide CommandOf;
    hide ReasonsOf;
    hide VolumeOf;
    hide Fits;
    hide Committed;
    AfterShape(desk, c);
    WrittenExactly(desk, c);
    ApprovedRecordExactly(desk, c);
  }

  /** A cycle returns, instead of raising, exactly when its row is committed and nothing behind the commit fails. */
  lemma ReturnsExactly(desk: Desk, c: Cycle)
    ensures After(desk, c).result.Returned?
            <==> Recordable(desk, c) && c.replyArrives && LastStep(c) !in c.failingSteps
                 && (Approvable(desk, c) ==> c.commandBuilds && c.router.Answer?)
  {
    hide StagesPass;
    hide Prepared;
    hide RecordOf;
    hide CommandOf;
    hide Fits;
    hide Committed;
    hide LastStep;
    AfterShape(desk, c);
    WrittenExactly(desk, c);
    if Recordable(desk, c) { ApprovedRecordExactly(desk, c); }
    ResultIsReturned(c);
    hide ResultOf;
  }

  lemma ResultIsReturned(c: Cycle)
    ensures ResultOf(c).Returned?
  {
  }

  /** A result that is returned belongs to the row that was committed. */
  lemma ResultIsOfTheRow(desk: Desk, c: Cycle)
    requires After(desk, c).result.Returned?
    ensures
      var result, lineage := After(desk, c).result, After(desk, c).desk.lineage;
      && Recordable(desk, c) && result == ResultOf(c) && lineage == desk.lineage[c.id := RecordOf(c)]
  {
    hide StagesPass;
    hide Prepared;
    hide RecordOf;
    hide ResultOf;
    hide CommandOf;
    hide Linking;
    hide Relinking;
    AfterShape(desk, c);
    WrittenExactly(desk, c);
    RecordNamesCycle(c);
  }

  /** The volume a row stands for: an empty size column is no volume. */
  function StoredVolume(record: Record): real
  {
    match record.size
    case NullSize => 0.0
    case StoredSize(volume) => volume
  }

  /** The reasons that can be read off a row: its violations and its veto flag. */
  function StoredReasons(record: Record): seq<Reason>
  {
    record.violations + if record.veto == VetoEntry(true) then [AssessorVeto] else []
  }

  lemma RecordGivesResult(c: Cycle)
    requires Trades(c) ==> Sizing(c).Ok?
    ensures
      var record, result := RecordOf(c), ResultOf(c);
      && result.Returned? && record.id == c.id == result.id && result.verdict == record.verdict
      && StoredVolume(record) == ToFourPlaces(result.volume)
      && result.reasons == StoredReasons(record)
      && (record.size == NullSize <==> !Trades(c))
      && (record.violations == result.reasons <==> !(Trades(c) && c.advice.veto))
  {
    hide Sizing;
    hide Violations;
    hide ScaledVolume;
    hide VolatilityBand;
    hide ResolveRiskAdjustment;
    assert ToFourPlaces(0.0) == 0.0;
    hide ToFourPlaces;
    if Trades(c) {
      var assessed := Assessing(c, Sizing(c).value);
      assert assessed.veto == c.advice.veto;
      OneMore(Broke(c, assessed), AssessorVeto);
      assert Broke(c, assessed) + [] == Broke(c, assessed);
    }
  }

  lemma OneMore<T>(s: seq<T>, x: T)
    ensures s != s + [x]
  {
    assert |s + [x]| == |s| + 1;
  }

  /**
   A returned result can be read off the committed row: the verdict, the reasons
   as violations and veto flag, and the volume to four places, which is the volume
   itself exactly when that is a whole number of ten-thousandths.  The stored
   violations alone are the returned reasons exactly when a trade was not vetoed,
   and the size column is empty exactly for hold and reject.
   */
  lemma ResultIsRecorded(desk: Desk, c: Cycle)
    requires After(desk, c).result.Returned?
    ensures
      var result, lineage := After(desk, c).result, After(desk, c).desk.lineage;
      && c.id !in desk.lineage && c.id in lineage && lineage[c.id].id == result.id == c.id
      && lineage[c.id].verdict == result.verdict
      && StoredVolume(lineage[c.id]) == ToFourPlaces(result.volume)
      && (StoredVolume(lineage[c.id]) == result.volume <==> IsFourPlaces(result.volume))
      && StoredReasons(lineage[c.id]) == result.reasons
      && (lineage[c.id].size == NullSize <==> !Trades(c))
      && (lineage[c.id].violations == result.reasons <==> !(Trades(c) && c.advice.veto))
  {
    hide StagesPass;
    hide RecordOf;
    hide ResultOf;
    hide StoredReasons;
    hide StoredVolume;
    hide After;
    hide ToFourPlaces;
    hide IsFourPlaces;
    ResultIsOfTheRow(desk, c);
    RecordGivesResult(c);
    RoundingKeepsExactly(After(desk, c).result.volume);
  }

  /** Four places keep exactly the ten-thousandths, and are never further off than half of one. */
  lemma RoundingKeepsExactly(x: real)
    ensures ToFourPlaces(x) == x <==> IsFourPlaces(x)
    ensures -0.00005 <= ToFourPlaces(x) - x <= 0.00005
    ensures IsFourPlaces(ToFourPlaces(x))
  {
    MagnitudeKeepsExactly(if x >= 0.0 then x else -x);
    NegationKeepsPlaces(x);
    NegationKeepsPlaces(ToFourPlaces(x));
    hide RoundMagnitude;
    hide IsFourPlaces;
  }

  lemma MagnitudeKeepsExactly(x: real)
    ensures RoundMagnitude(x) == x <==> IsFourPlaces(x)
    ensures -0.00005 <= RoundMagnitude(x) - x <= 0.00005
    ensures IsFourPlaces(RoundMagnitude(x))
  {
    var v, r := x * TEN_THOUSANDTHS, RoundMagnitude(x);
    var n := (v + 0.5).Floor;
    NearestInteger(v);
    Unscaled(r, n as real);
    Unscaled(x, v);
    assert r == n as real / TEN_THOUSANDTHS;
    WholeFloor(n);
  }

  lemma NearestInteger(v: real)
    ensures var n := (v + 0.5).Floor;
      -0.5 <= n as real - v <= 0.5 && (n as real == v <==> v.Floor as real == v)
  {
    var k := v.Floor;
    if k as real == v { WholeFloor(k); }
  }

  lemma WholeFloor(n: int)
    ensures (n as real).Floor == n && (n as real + 0.5).Floor == n
  {
  }

  lemma Unscaled(r: real, v: real)
    ensures r == v / TEN_THOUSANDTHS <==> r * TEN_THOUSANDTHS == v
  {
  }

  lemma NegationKeepsPlaces(x: real)
    ensures IsFourPlaces(-x) <==> IsFourPlaces(x)
  {
    var v := x * TEN_THOUSANDTHS;
    assert -x * TEN_THOUSANDTHS == -v;
    NegatedWhole(v);
  }

  lemma NegatedWhole(v: real)
    ensures (-v).Floor as real == -v <==> v.Floor as real == v
  {
    var k, l := v.Floor, (-v).Floor;
    WholeFloor(-k);
    WholeFloor(-l);
    assert k as real == v ==> -v == (-k) as real;
    assert l as real == -v ==> v == (-l) as real;
  }

  /** A base of 1.01 lots with a multiplier of an eighth, approved. */
  const EIGHTH: Cycle := VETOED.(
    advice := Advice(false, "calm"),
    adjustments := map["calm" := Bands(map["high" := Number(0.125)])],
    portfolio := VETOED.portfolio.(equity := 10100.0))

  lemma EighthIsSized()
    ensures Sizing(EIGHTH) == RiskSizing.Ok(Size(1.01, 1.01, 1.0, 0.0))
    ensures VolumeOf(EIGHTH) == 0.12625 && ReasonsOf(EIGHTH) == []
  {
    assert StopDistance(1.0, 1.0) == 1.0 && StopPips(1.0, EIGHTH.terms) == 10.0;
    assert BaseVolume(10100.0, 0.01, 10.0, 10.0) == RiskSizing.Ok(RoundDown(1.01));
    assert (1.01 * 100.0).Floor == 101 && RoundDown(1.01) == 1.01;
    assert VolatilityBand(1.0, 1.0) == "high";
    assert Assessing(EIGHTH, Sizing(EIGHTH).value) == Assessed(0.12625, 0.125, "calm", false);
    hide Sizing;
    hide Assessing;
    assert Fits(RiskInputs(EIGHTH, 0.12625), RiskLimits(EIGHTH));
    NoReasonsExactly(EIGHTH);
  }

  /** The input: 0.12625 lots are returned and sent, 0.1263 are stored. */
  lemma RoundedInput()
    ensures var ending := After(Desk(map[], map[], [], []), EIGHTH);
      && ending.result == Returned(7, Approved, BUY, 0.12625, [])
      && |ending.desk.log| == 2 && ending.desk.log[1] == Handed(Command(7, BUY, 0.12625, 0.0))
      && 7 in ending.desk.lineage && ending.desk.lineage[7].size == StoredSize(0.1263)
  {
    var desk := Desk(map[], map[], [], []);
    EighthIsSized();
    EighthPasses(desk);
    hide StagesPass;
    hide After;
    hide Sizing;
    hide Fits;
    hide Violations;
    hide Assessing;
    EventsExactly(desk, EIGHTH);
    RaisedAfterDispatchExactly(desk, EIGHTH);
    ReturnsExactly(desk, EIGHTH);
    ResultIsOfTheRow(desk, EIGHTH);
    RecordGivesResult(EIGHTH);
    assert (0.12625 * TEN_THOUSANDTHS + 0.5).Floor == 1263;
  }

  lemma EighthPasses(desk: Desk)
    requires 7 !in desk.lineage
    ensures Cleared(desk, EIGHTH)
  {
    EighthIsSized();
    hide Sizing;
    hide VolumeOf;
    hide ReasonsOf;
    hide Fits;
    NoReasonsExactly(EIGHTH);
  }

  /** A veto of a trade that breaks no limit is returned as the one reason and stored as no violation. */
  lemma VetoIsNoStoredViolation(desk: Desk, c: Cycle)
    requires After(desk, c).result.Returned? && Trades(c) && c.advice.veto
    requires Fits(RiskInputs(c, VolumeOf(c)), RiskLimits(c))
    ensures After(desk, c).result.reasons == [AssessorVeto]
    ensures c.id in After(desk, c).desk.lineage && After(desk, c).desk.lineage[c.id].violations == []
  {
    hide StagesPass;
    hide Fits;
    hide After;
    hide Sizing;
    hide Violations;
    hide VolatilityBand;
    hide ResolveRiskAdjustment;
    ResultIsOfTheRow(desk, c);
    ApprovedExactly(RiskInputs(c, VolumeOf(c)), RiskLimits(c));
  }

  lemma RecordNamesCycle(c: Cycle)
    ensures RecordOf(c).id == c.id && RecordOf(c).reasoning == ProposalTraces(c)
  {
    hide Sizing;
  }

  /** What leaves is sized within the risk budget, its stop on the losing side. */
  lemma CommandIsBounded(desk: Desk, c: Cycle)
    requires Cleared(desk, c) && 0.0 < c.terms.low <= c.terms.high
    ensures
      var command := CommandOf(c);
      var multiplier := Assessing(c, Sizing(c).value).multiplier;
      && c.terms.low <= command.volume <= c.terms.high
      && (command.volume == c.terms.low
          || LossAtStop(command.volume, c.atr, c.terms)
             <= multiplier * (c.terms.risk * c.portfolio.equity))
      && (c.action == BUY ==> command.stopLoss < c.entry)
      && (c.action == SELL ==> command.stopLoss > c.entry)
  {
    hide StagesPass;
    hide Fits;
    hide CalculateSize;
    hide ApplyAssessment;
    hide LossAtStop;
    hide VolatilityBand;
    var side := if c.action == BUY then Buy else Sell;
    var size := Sizing(c).value;
    StopIsOnTheLosingSide(c.entry, c.atr, c.portfolio.equity, c.terms, side, 1.0);
    AdvisedSizeIsBounded(c.entry, c.atr, c.portfolio.equity, c.terms, side, size,
                         c.advice, c.adjustments, VolatilityBand(c.atr, c.entry));
  }

  /** A vetoed buy of ten lots within every limit. */
  const VETOED: Cycle := Cycle(
    7, "w", Clock(9000, 9000, 9000, 9000, 9000),
    Stage(true, [1]), Stage(true, [2]), Stage(true, [3]), Stage(true, [4]),
    false, Stage(true, []), Stage(true, [5]), Stage(true, [6]), Stage(true, [8]),
    BUY, Advice(true, "calm"), map[],
    1.0, 1.0, Terms(0.01, 1.0, 10.0, 0.1, 0.01, 100.0),
    Portfolio(100000.0, 0.0, 0.0, 0.0, 0, 0.0, true, false),
    Limits(0.02, 0.05, 0.03, 0.03, 10, Unlimited, false),
    {}, {}, true, true, true, true, Answer("filled"))

  lemma VetoedIsSized()
    ensures Sizing(VETOED) == RiskSizing.Ok(Size(10.0, 10.0, 1.0, 0.0))
    ensures VolumeOf(VETOED) == 10.0
  {
    assert StopDistance(1.0, 1.0) == 1.0 && StopPips(1.0, VETOED.terms) == 10.0;
    assert BaseVolume(100000.0, 0.01, 10.0, 10.0) == RiskSizing.Ok(RoundDown(10.0));
    assert (10.0 * 100.0).Floor == 1000 && RoundDown(10.0) == 10.0;
  }

  /** The input: its result names the veto, its row lists no violation. */
  lemma VetoedInput()
    ensures var ending := After(Desk(map[], map[], [], []), VETOED);
      && ending.result == Returned(7, Rejected, BUY, 10.0, [AssessorVeto])
      && 7 in ending.desk.lineage && ending.desk.lineage[7].violations == []
  {
    var desk := Desk(map[], map[], [], []);
    VetoedPasses(desk);
    hide StagesPass;
    hide After;
    hide Sizing;
    hide Fits;
    hide Violations;
    VetoedIsSized();
    ReturnsExactly(desk, VETOED);
    ResultIsOfTheRow(desk, VETOED);
    VetoIsNoStoredViolation(desk, VETOED);
  }

  lemma VetoedPasses(desk: Desk)
    requires 7 !in desk.lineage
    ensures Recordable(desk, VETOED) && Fits(RiskInputs(VETOED, VolumeOf(VETOED)), RiskLimits(VETOED))
  {
    VetoedIsSized();
    hide Sizing;
    hide VolumeOf;
  }

  // ------------------------------------------------------ what a cycle leaves alone

  /** Stages and checkpoints only add: unlinked trace rows and unlinked journal rows. */
  ghost predicate Extends(a: Desk, b: Desk)
  {
    && a.lineage == b.lineage && a.log == b.log
    && a.journal <= b.journal
    && (forall i :: |a.journal| <= i < |b.journal| ==> b.journal[i].link == Unlinked)
    && (forall t :: t in a.traces ==> t in b.traces && b.traces[t] == a.traces[t])
    && (forall t :: t in b.traces && t !in a.traces ==> b.traces[t] == Unlinked)
  }

  lemma ExtendsFurther(a: Desk, b: Desk, c: Desk)
    requires Extends(a, b) && Extends(b, c)
    ensures Extends(a, c)
  {
  }

  ghost predicate IdsStored(p: Progress)
  {
    p.Going? ==> forall t :: t in p.ids ==> t in p.desk.traces
  }

  ghost predicate StepsOn(p: Progress, q: Progress)
  {
    Extends(p.desk, q.desk) && (IdsStored(p) ==> IdsStored(q))
  }

  lemma StepsOnFurther(p: Progress, q: Progress, r: Progress)
    requires StepsOn(p, q) && StepsOn(q, r)
    ensures StepsOn(p, r)
  {
    hide IdsStored;
    ExtendsFurther(p.desk, q.desk, r.desk);
  }

  lemma StageStepsOn(p: Progress, stage: Stage)
    ensures StepsOn(p, Staged(p, stage))
  {
  }

  lemma JournalStepsOn(p: Progress, c: Cycle, step: Step)
    ensures StepsOn(p, Journaled(p, c, step, Unlinked))
  {
  }

  /** A check, a stage and a journal row. */
  lemma CheckpointStepsOn(p: Progress, c: Cycle, remaining: int, reserve: int, stage: Stage, needsEvidence: bool, step: Step)
    ensures
      var staged := Staged(Checked(p, remaining, reserve), stage);
      StepsOn(p, staged) && StepsOn(p, Evidenced(staged))
      && StepsOn(p, Journaled(if needsEvidence then Evidenced(staged) else staged, c, step, Unlinked))
  {
    hide Extends;
    hide WithTraces;
    hide WithJournal;
    var checked := Checked(p, remaining, reserve);
    var staged := Staged(checked, stage);
    assert StepsOn(p, checked) by { SameDesk(p.desk); }
    StageStepsOn(checked, stage);
    StepsOnFurther(p, checked, staged);
    assert StepsOn(staged, Evidenced(staged)) by { SameDesk(staged.desk); }
    StepsOnFurther(p, staged, Evidenced(staged));
    var ready := if needsEvidence then Evidenced(staged) else staged;
    JournalStepsOn(ready, c, step);
    StepsOnFurther(p, ready, Journaled(ready, c, step, Unlinked));
  }

  lemma SameDesk(desk: Desk)
    ensures Extends(desk, desk)
  {
  }

  lemma AnalystsStepOn(p: Progress, c: Cycle)
    ensures StepsOn(p, AnalystPhase(p, c))
  {
    hide Journaled;
    var started := Checked(p, c.clock.analysts, ANALYST_RESERVE);
    if started.Going? {
      var ready := Going(WithTraces(started.desk, AnalystTraces(c)), started.ids + AnalystTraces(c));
      assert StepsOn(p, ready);
      JournalStepsOn(ready, c, AnalystsValidated);
      StepsOnFurther(p, ready, Journaled(ready, c, AnalystsValidated, Unlinked));
    }
  }

  /** Up to the lineage transaction a cycle commits nothing but unlinked traces and journal rows. */
  lemma PreparedExtends(desk: Desk, c: Cycle)
    ensures Extends(desk, Prepared(desk, c).desk) && IdsStored(Prepared(desk, c))
  {
    hide Extends;
    hide Staged;
    hide Checked;
    hide Evidenced;
    hide Journaled;
    hide AnalystPhase;
    hide Sizing;
    var p0 := Going(desk, []);
    var p1 := AnalystPhase(p0, c);
    AnalystsStepOn(p0, c);
    var p2 := DebatePhase(p1, c);
    if c.debateHeld { CheckpointStepsOn(p1, c, c.clock.debate, FORUM_RESERVE, c.debate, true, DebateValidated); }
    else { JournalStepsOn(p1, c, DebateSkipped); }
    StepsOnFurther(p0, p1, p2);
    var p3 := ForumPhase(p2, c);
    CheckpointStepsOn(p2, c, c.clock.forum, FORUM_RESERVE, c.forum, true, IcValidated);
    StepsOnFurther(p0, p2, p3);
    var p4 := ProposalPhase(p3, c);
    CheckpointStepsOn(p3, c, c.clock.proposer, PROPOSER_RESERVE, c.proposer, false, ProposalValidated);
    StepsOnFurther(p0, p3, p4);
    var p5 := Evidenced(Staged(Checked(p4, c.clock.assessor, RISK_RESERVE), c.assessor));
    CheckpointStepsOn(p4, c, c.clock.assessor, RISK_RESERVE, c.assessor, true, Dispatched);
    StepsOnFurther(p0, p4, p5);
  }

  /** The database after a cycle whose lineage row is committed, apart from the log and the closing journal row. */
  function Base(desk: Desk, c: Cycle): Desk
  {
    Committed(Prepared(desk, c).desk, c, RecordOf(c), EvidenceOf(c))
  }

  lemma ClosingKeepsTables(written: Progress, c: Cycle)
    ensures
      var after := Closing(written, c).desk;
      && after.lineage == written.desk.lineage && after.traces == written.desk.traces
      && (after.journal == written.desk.journal
          || after.journal == written.desk.journal + [JournalRow(c.workflow, LastStep(c), Linked(c.id))])
      && (written.Halted? ==> after == written.desk)
  {
    hide RecordOf;
    hide ResultOf;
    hide CommandOf;
  }

  /** Lineage, links and journal of a cycle: untouched links before the commit, the committed base after it. */
  lemma TablesAfter(desk: Desk, c: Cycle)
    ensures
      var after := After(desk, c).desk;
      if Recordable(desk, c) then
        && after.lineage == desk.lineage[c.id := RecordOf(c)]
        && after.traces == Base(desk, c).traces
        && (after.journal == Base(desk, c).journal
            || after.journal == Base(desk, c).journal + [JournalRow(c.workflow, LastStep(c), Linked(c.id))])
      else Extends(desk, after)
  {
    hide StagesPass;
    hide AdvicePasses;
    hide Prepared;
    hide RecordOf;
    hide CommandOf;
    hide Linking;
    hide Relinking;
    hide Closing;
    AfterShape(desk, c);
    ClosingKeepsTables(LineageWritten(Prepared(desk, c), c, RecordOf(c)), c);
    WrittenExactly(desk, c);
    PreparedExactly(desk, c);
    PreparedExtends(desk, c);
    RecordNamesCycle(c);
  }

  // ------------------------------------------------ links commit with the row or not at all

  /** No trace and no journal row names a lineage that does not exist. */
  ghost predicate NoDangling(desk: Desk)
  {
    && (forall t :: t in desk.traces && desk.traces[t].Linked? ==> desk.traces[t].id in desk.lineage)
    && forall i :: 0 <= i < |desk.journal| && desk.journal[i].link.Linked? ==> desk.journal[i].link.id in desk.lineage
  }

  lemma CycleLeavesNoDangling(desk: Desk, c: Cycle)
    requires NoDangling(desk)
    ensures NoDangling(After(desk, c).desk)
  {
    hide Recordable;
    hide Prepared;
    hide RecordOf;
    hide After;
    TablesAfter(desk, c);
    PreparedExtends(desk, c);
  }

  /** Stage traces are new rows, and no two stages share one. */
  ghost predicate Fresh(desk: Desk, c: Cycle)
  {
    && (forall t :: t in EvidenceOf(c) ==> t !in desk.traces)
    && forall t :: t in ProposalTraces(c) ==> t !in c.assessor.traces
  }

  ghost predicate IsLinked(desk: Desk, t: TraceId, id: LineageId)
  {
    t in desk.traces && desk.traces[t] == Linked(id)
  }

  /**
   The lineage row and the links of its traces are one unit: with the row, the
   traces of the cycle are linked to it and to nothing else; without it, none is.
   */
  lemma LinksCommitTogether(desk: Desk, c: Cycle, t: TraceId)
    requires NoDangling(desk) && Fresh(desk, c) && c.id !in desk.lineage
    ensures IsLinked(After(desk, c).desk, t, c.id) <==> c.id in After(desk, c).desk.lineage && t in EvidenceOf(c)
    ensures t in desk.traces ==> t in After(desk, c).desk.traces && After(desk, c).desk.traces[t] == desk.traces[t]
  {
    hide Prepared;
    hide StagesPass;
    hide AdvicePasses;
    hide RecordOf;
    hide EvidenceOf;
    hide After;
    TablesAfter(desk, c);
    PreparedExactly(desk, c);
    PreparedExtends(desk, c);
  }

  /**
   The trace ids stored in the row's own proposal leave out the risk assessor's,
   which are linked all the same: the stored list is complete exactly when there are none.
   */
  lemma StoredTracesCompleteExactly(desk: Desk, c: Cycle)
    requires NoDangling(desk) && Fresh(desk, c) && Recordable(desk, c)
    ensures
      var after := After(desk, c).desk;
      && c.id in after.lineage
      && (forall t :: t in after.lineage[c.id].reasoning ==> IsLinked(after, t, c.id))
      && ((forall t :: IsLinked(after, t, c.id) ==> t in after.lineage[c.id].reasoning)
          <==> !Trades(c) || c.assessor.traces == [])
  {
    hide Prepared;
    hide StagesPass;
    hide RecordOf;
    hide IsLinked;
    hide NoDangling;
    hide After;
    TablesAfter(desk, c);
    RecordNamesCycle(c);
    var after := After(desk, c).desk;
    forall t ensures IsLinked(after, t, c.id) <==> t in EvidenceOf(c) {
      LinksCommitTogether(desk, c, t);
    }
    if Trades(c) && c.assessor.traces != [] {
      var t := c.assessor.traces[0];
      assert t in EvidenceOf(c) && t !in ProposalTraces(c);
      assert IsLinked(after, t, c.id);
    }
  }

  /** An earlier journal row keeps its link exactly when this cycle records nothing or belongs to another workflow. */
  lemma JournalLinkKeptExactly(desk: Desk, c: Cycle, i: nat)
    requires NoDangling(desk) && i < |desk.journal|
    ensures i < |After(desk, c).desk.journal|
    ensures After(desk, c).desk.journal[i].link == desk.journal[i].link
            <==> !Recordable(desk, c) || desk.journal[i].workflow != c.workflow
  {
    hide Prepared;
    hide StagesPass;
    hide AdvicePasses;
    hide RecordOf;
    hide After;
    TablesAfter(desk, c);
    PreparedExtends(desk, c);
  }

  const BARE := Desk(map[], map[], [], [])

  /** The input: the risk assessor's trace 8 is linked to the row that does not list it. */
  lemma UnlistedTraceInput()
    ensures var after := After(BARE, EIGHTH).desk;
      7 in after.lineage && IsLinked(after, 8, 7) && 8 !in after.lineage[7].reasoning
  {
    hide StagesPass;
    hide Cleared;
    hide Approvable;
    hide Recordable;
    hide After;
    hide RecordOf;
    hide EvidenceOf;
    hide ProposalTraces;
    hide Base;
    hide Fresh;
    hide NoDangling;
    hide IsLinked;
    EighthPasses(BARE);
    ClearedIsRecordable(BARE, EIGHTH);
    RecordNamesCycle(EIGHTH);
    EighthIsFresh();
    TablesAfter(BARE, EIGHTH);
    LinksCommitTogether(BARE, EIGHTH, 8);
  }

  lemma EighthIsFresh()
    ensures Fresh(BARE, EIGHTH) && NoDangling(BARE)
    ensures 8 in EvidenceOf(EIGHTH) && 8 !in ProposalTraces(EIGHTH)
  {
  }

  /** The input: the router raises, and the command has been handed over. */
  lemma RaisedInput()
    ensures var ending := After(BARE, EIGHTH.(router := RouterRaises));
      ending.result.Raised? && |ending.desk.log| == 2 && ending.desk.log[1].Handed?
  {
    hide Cleared;
    hide After;
    hide RecordOf;
    hide CommandOf;
    hide Recordable;
    hide Approvable;
    var c := EIGHTH.(router := RouterRaises);
    EighthPasses(BARE);
    SameUntilRouter(BARE, EIGHTH, c);
    EventsExactly(BARE, c);
    RaisedAfterDispatchExactly(BARE, c);
  }

  lemma SameUntilRouter(desk: Desk, c: Cycle, d: Cycle)
    requires d == c.(router := d.router) && Cleared(desk, c)
    ensures Cleared(desk, d)
  {
    hide Fits;
    assert Sizing(d) == Sizing(c);
    assert VolumeOf(d) == VolumeOf(c);
    assert RiskInputs(d, VolumeOf(d)) == RiskInputs(c, VolumeOf(c)) && RiskLimits(d) == RiskLimits(c);
  }

  /** The input: a row of the workflow that was linked to lineage 3 is linked to lineage 7 afterwards. */
  lemma MovedLinkInput()
    ensures
      var earlier := Record(3, NoTrade, HOLD, NullSize, [NoTradeWanted], NoVetoEntry, [0]);
      var desk := Desk(map[3 := earlier], map[0 := Linked(3)], [JournalRow("w", Noop, Linked(3))], []);
      NoDangling(desk) && |After(desk, EIGHTH).desk.journal| > 0 && After(desk, EIGHTH).desk.journal[0].link != Linked(3)
  {
    var earlier := Record(3, NoTrade, HOLD, NullSize, [NoTradeWanted], NoVetoEntry, [0]);
    var desk := Desk(map[3 := earlier], map[0 := Linked(3)], [JournalRow("w", Noop, Linked(3))], []);
    EighthPasses(desk);
    hide After;
    hide StagesPass;
    JournalLinkKeptExactly(desk, EIGHTH, 0);
  }

  // ------------------------------------------------------------ runs of many cycles

  function Run(desk: Desk, cycles: seq<Cycle>): Desk
  {
    if |cycles| == 0 then desk else After(Run(desk, cycles[..|cycles| - 1]), cycles[|cycles| - 1]).desk
  }

  /** A command stands directly behind the approved row it was made from. */
  ghost predicate Backed(log: seq<Event>, i: nat)
    requires i < |log| && log[i].Handed?
  {
    var command := log[i].command;
    && i > 0 && log[i - 1].RowCommitted?
    && var record := log[i - 1].record;
       record.id == command.order && record.verdict == Approved && record.violations == [] && record.veto == VetoEntry(false)
       && record.action == command.action && record.size == StoredSize(ToFourPlaces(command.volume))
  }

  /** The log tells the truth about the lineage table, and no row is committed twice. */
  ghost predicate Faithful(desk: Desk)
  {
    && (forall i :: 0 <= i < |desk.log| && desk.log[i].RowCommitted? ==>
          var record := desk.log[i].record; record.id in desk.lineage && desk.lineage[record.id] == record)
    && (forall i, j :: 0 <= i < j < |desk.log| && desk.log[i].RowCommitted? && desk.log[j].RowCommitted? ==>
          desk.log[i].record.id != desk.log[j].record.id)
    && forall i :: 0 <= i < |desk.log| && desk.log[i].Handed? ==> Backed(desk.log, i)
  }

  lemma RowIsFaithful(desk: Desk, record: Record, lineage: map<LineageId, Record>)
    requires Faithful(desk) && record.id !in desk.lineage && lineage == desk.lineage[record.id := record]
    ensures Faithful(desk.(lineage := lineage, log := desk.log + [RowCommitted(record)]))
  {
    hide Backed;
    var log := desk.log + [RowCommitted(record)];
    forall i | 0 <= i < |log| && log[i].Handed? ensures Backed(log, i) {
      BackedStays(desk.log, [RowCommitted(record)], i);
    }
  }

  lemma BackedStays(log: seq<Event>, more: seq<Event>, i: nat)
    requires i < |log| && log[i].Handed? && Backed(log, i)
    ensures Backed(log + more, i)
  {
  }

  lemma CommandIsFaithful(desk: Desk, record: Record, command: Command)
    requires Faithful(desk) && desk.log != [] && desk.log[|desk.log| - 1] == RowCommitted(record)
    requires record.verdict == Approved && record.violations == [] && record.veto == VetoEntry(false)
    requires record.id == command.order && record.action == command.action && record.size == StoredSize(ToFourPlaces(command.volume))
    ensures Faithful(desk.(log := desk.log + [Handed(command)]))
  {
    var log := desk.log + [Handed(command)];
    forall i | 0 <= i < |log| && log[i].Handed? ensures Backed(log, i) {
      if i < |desk.log| { BackedStays(desk.log, [Handed(command)], i); }
    }
  }

  lemma CycleStaysFaithful(desk: Desk, c: Cycle)
    requires Faithful(desk)
    ensures Faithful(After(desk, c).desk)
  {
    hide Recordable;
    hide Cleared;
    hide Faithful;
    hide After;
    TablesAfter(desk, c);
    EventsExactly(desk, c);
    RecordNamesCycle(c);
    var after := After(desk, c).desk;
    if Recordable(desk, c) {
      NewId(desk, c);
      var record := RecordOf(c);
      RowIsFaithful(desk, record, after.lineage);
      var booked := desk.(lineage := after.lineage, log := desk.log + [RowCommitted(record)]);
      if Cleared(desk, c) {
        ClearedIsRecordable(desk, c);
        CommandMatchesRecord(c);
        CommandIsFaithful(booked, record, CommandOf(c));
        assert booked.log + [Handed(CommandOf(c))] == after.log;
        SameLogSameTruth(booked.(log := booked.log + [Handed(CommandOf(c))]), after);
      } else {
        SameLogSameTruth(booked, after);
      }
    } else {
      ClearedIsRecordable(desk, c);
      assert desk.log + [] == desk.log;
      SameLogSameTruth(desk, after);
    }
  }

  lemma NewId(desk: Desk, c: Cycle)
    requires Recordable(desk, c)
    ensures c.id !in desk.lineage
  {
  }

  lemma ClearedIsRecordable(desk: Desk, c: Cycle)
    ensures Cleared(desk, c) ==> Recordable(desk, c) && Approvable(desk, c)
  {
  }

  lemma SameLogSameTruth(a: Desk, b: Desk)
    requires Faithful(a) && a.lineage == b.lineage && a.log == b.log
    ensures Faithful(b)
  {
  }

  lemma CommandMatchesRecord(c: Cycle)
    requires RecordOf(c).verdict == Approved
    ensures var record, command := RecordOf(c), CommandOf(c);
      && record.id == command.order && record.action == command.action && record.size == StoredSize(ToFourPlaces(command.volume))
      && record.violations == [] && record.veto == VetoEntry(false)
  {
    hide Sizing;
    hide Violations;
    hide VolatilityBand;
    hide ResolveRiskAdjustment;
  }

  /** Over every run the log stays faithful: each command is backed by its own approved row, committed before it. */
  lemma {:induction false} RunsStayFaithful(desk: Desk, cycles: seq<Cycle>)
    requires Faithful(desk)
    ensures Faithful(Run(desk, cycles))
    decreases |cycles|
  {
    hide After;
    if |cycles| > 0 {
      RunsStayFaithful(desk, cycles[..|cycles| - 1]);
      CycleStaysFaithful(Run(desk, cycles[..|cycles| - 1]), cycles[|cycles| - 1]);
    }
  }

  /** At most one command per lineage in any run, even if two cycles drew the same id. */
  lemma AtMostOneCommand(desk: Desk, cycles: seq<Cycle>, i: nat, j: nat)
    requires Faithful(desk)
    requires i < j < |Run(desk, cycles).log| && Run(desk, cycles).log[i].Handed? && Run(desk, cycles).log[j].Handed?
    ensures Run(desk, cycles).log[i].command.order != Run(desk, cycles).log[j].command.order
  {
    hide Run;
    RunsStayFaithful(desk, cycles);
    var log := Run(desk, cycles).log;
    assert Backed(log, i) && Backed(log, j);
    assert log[i - 1].record.id != log[j - 1].record.id;
  }

  /** Every command of a run comes from a cycle that was cleared at its own moment. */
  lemma {:induction false} EveryCommandWasCleared(desk: Desk, cycles: seq<Cycle>, i: nat) returns (k: nat)
    requires |desk.log| <= i < |Run(desk, cycles).log| && Run(desk, cycles).log[i].Handed?
    ensures k < |cycles| && Cleared(Run(desk, cycles[..k]), cycles[k])
    ensures Run(desk, cycles).log[i].command == CommandOf(cycles[k])
    decreases |cycles|
  {
    hide After;
    hide Cleared;
    hide CommandOf;
    hide RecordOf;
    hide Recordable;
    var n := |cycles| - 1;
    var before := Run(desk, cycles[..n]);
    EventsExactly(before, cycles[n]);
    if i < |before.log| {
      k := EveryCommandWasCleared(desk, cycles[..n], i);
      assert cycles[..n][..k] == cycles[..k];
    } else {
      k := n;
    }
  }

  /** Every limit on a trade of this volume in this cycle, with the kill switch off. */
  ghost predicate InsideLimits(volume: real, c: Cycle)
  {
    var notional, portfolio, limits := volume * c.entry, c.portfolio, c.limits;
    && !portfolio.killSwitch && portfolio.equity > 0.0
    && notional <= limits.perTrade * portfolio.equity
    && portfolio.totalNotional + notional <= limits.total * portfolio.equity
    && portfolio.correlatedNotional + (if portfolio.isCorrelated then notional else 0.0) <= limits.correlated * portfolio.equity
    && portfolio.dailyPnl > -limits.dailyLoss * portfolio.equity
    && portfolio.openPositions < limits.positions
    && (limits.strategy.AtMost? ==>
          portfolio.strategyNotional + notional <= limits.strategy.fraction * portfolio.equity)
  }

  /** Every command of a run was inside every limit, the kill switch off, of the portfolio its cycle was given. */
  lemma EveryCommandFits(desk: Desk, cycles: seq<Cycle>, i: nat) returns (k: nat)
    requires |desk.log| <= i < |Run(desk, cycles).log| && Run(desk, cycles).log[i].Handed?
    ensures k < |cycles| && Run(desk, cycles).log[i].command == CommandOf(cycles[k])
    ensures InsideLimits(Run(desk, cycles).log[i].command.volume, cycles[k])
  {
    hide Run;
    hide InsideLimits;
    hide Cleared;
    hide CommandOf;
    k := EveryCommandWasCleared(desk, cycles, i);
    ClearedFits(Run(desk, cycles[..k]), cycles[k]);
  }

  lemma ClearedFits(desk: Desk, c: Cycle)
    requires Cleared(desk, c)
    ensures InsideLimits(CommandOf(c).volume, c)
  {
    hide Recordable;
    hide Sizing;
    hide Assessing;
  }

  // ------------------------------------------------------- the size of a command

  /** The band of an average true range at a price: up to half a percent, up to one, and above. */
  predicate InBand(atr: real, price: real, band: string)
  {
    if price <= 0.0 || 200.0 * atr < price then band == "low"
    else if 100.0 * atr < price then band == "med"
    else band == "high"
  }

  lemma BandExactly(atr: real, price: real)
    ensures price > 0.0 ==> (VolatilityBand(atr, price) == "low" <==> 200.0 * atr < price)
    ensures price > 0.0 ==> (VolatilityBand(atr, price) == "med" <==> price <= 200.0 * atr && 100.0 * atr < price)
    ensures price > 0.0 ==> (VolatilityBand(atr, price) == "high" <==> price <= 100.0 * atr)
    ensures price <= 0.0 ==> VolatilityBand(atr, price) == "low"
    ensures InBand(atr, price, VolatilityBand(atr, price))
  {
    assert "low"[0] == 'l' && "med"[0] == 'm' && "high"[0] == 'h';
    if price > 0.0 {
      QuotientBelow(atr, price, 0.005);
      QuotientBelow(atr, price, 0.01);
    }
  }

  lemma QuotientBelow(x: real, price: real, limit: real)
    requires price > 0.0
    ensures x / price < limit <==> x < limit * price
  {
    var q := x / price;
    assert q * price == x;
    Scales(limit, q, price);
  }

  /** The policy's number for a bucket and a band, one where it has none. */
  predicate IsPolicyNumber(adjustments: map<string, BandMap>, bucket: string, band: string, number: real)
  {
    if bucket in adjustments && adjustments[bucket].Bands? && band in adjustments[bucket].bands
       && adjustments[bucket].bands[band].Number?
    then adjustments[bucket].bands[band] == Number(number)
    else number == 1.0
  }

  /** The largest whole hundredths of a lot whose loss at the stop keeps the risk budget. */
  ghost predicate IsBase(c: Cycle, base: real)
    requires c.terms.pipSize > 0.0
  {
    var perLot := c.atr * c.terms.atrMultiplier / c.terms.pipSize * c.terms.pipValue;
    && base >= 0.0 && (base * 100.0).Floor as real == base * 100.0
    && base * perLot <= c.portfolio.equity * c.terms.risk < (base + 0.01) * perLot
  }

  /** The command of a cycle: its volume is the base times the policy's number, kept in range; its stop is one distance away. */
  ghost predicate IsSizedFor(command: Command, c: Cycle)
  {
    && command.order == c.id && command.action == c.action && c.terms.pipSize > 0.0
    && command.stopLoss == (if c.action == BUY then c.entry - c.atr * c.terms.atrMultiplier
                            else c.entry + c.atr * c.terms.atrMultiplier)
    && exists base, band, number ::
         && IsBase(c, base) && InBand(c.atr, c.entry, band) && IsPolicyNumber(c.adjustments, c.advice.bucket, band, number)
         && command.volume == (if base * number < c.terms.low then c.terms.low
                               else if base * number > c.terms.high then c.terms.high
                               else base * number)
  }

  lemma BaseOfCycle(c: Cycle)
    requires Sizing(c).Ok? && Trades(c)
    ensures c.terms.pipSize > 0.0 && IsBase(c, Sizing(c).value.base)
    ensures Sizing(c).value.stopPrice == (if c.action == BUY then c.entry - c.atr * c.terms.atrMultiplier
                                          else c.entry + c.atr * c.terms.atrMultiplier)
  {
    var side := if c.action == BUY then Buy else Sell;
    SizeHasBase(c.entry, c.atr, c.portfolio.equity, c.terms, side, 1.0);
    StopStands(c);
    hide CalculateSize;
    BaseUsesTheBudget(c.portfolio.equity, c.terms.risk, StopPips(c.atr, c.terms), c.terms.pipValue, Sizing(c).value.base);
    hide BaseVolume;
  }

  lemma StopStands(c: Cycle)
    requires Sizing(c).Ok? && Trades(c)
    ensures Sizing(c).value.stopPrice == (if c.action == BUY then c.entry - c.atr * c.terms.atrMultiplier
                                          else c.entry + c.atr * c.terms.atrMultiplier)
  {
    hide BaseVolume;
    hide ScaledVolume;
    hide StopPips;
  }

  lemma VolumeOfCycle(c: Cycle, base: real, number: real)
    requires Sizing(c).Ok? && base == Sizing(c).value.base
    requires number == ResolveRiskAdjustment(c.adjustments, c.advice.bucket, VolatilityBand(c.atr, c.entry))
    ensures VolumeOf(c) == (if base * number < c.terms.low then c.terms.low
                            else if base * number > c.terms.high then c.terms.high
                            else base * number)
  {
    hide Sizing;
    hide ResolveRiskAdjustment;
    hide VolatilityBand;
  }

  lemma PolicyNumber(adjustments: map<string, BandMap>, bucket: string, band: string)
    ensures IsPolicyNumber(adjustments, bucket, band, ResolveRiskAdjustment(adjustments, bucket, band))
  {
  }

  lemma CommandIsSized(c: Cycle)
    requires Sizing(c).Ok? && Trades(c)
    ensures IsSizedFor(CommandOf(c), c)
  {
    hide Sizing;
    hide InBand;
    hide IsBase;
    hide IsPolicyNumber;
    hide VolumeOf;
    var base, band := Sizing(c).value.base, VolatilityBand(c.atr, c.entry);
    var number := ResolveRiskAdjustment(c.adjustments, c.advice.bucket, band);
    hide ResolveRiskAdjustment;
    hide VolatilityBand;
    BaseOfCycle(c);
    BandExactly(c.atr, c.entry);
    PolicyNumber(c.adjustments, c.advice.bucket, band);
    VolumeOfCycle(c, base, number);
    assert IsBase(c, base) && InBand(c.atr, c.entry, band) && IsPolicyNumber(c.adjustments, c.advice.bucket, band, number);
  }

  /** Every command of a run has the volume and the stop that its own cycle's figures and policy give. */
  lemma EveryCommandIsSized(desk: Desk, cycles: seq<Cycle>, i: nat) returns (k: nat)
    requires |desk.log| <= i < |Run(desk, cycles).log| && Run(desk, cycles).log[i].Handed?
    ensures k < |cycles| && IsSizedFor(Run(desk, cycles).log[i].command, cycles[k])
  {
    hide Run;
    hide IsSizedFor;
    k := EveryCommandWasCleared(desk, cycles, i);
    ClearedIsSizeable(Run(desk, cycles[..k]), cycles[k]);
    hide Cleared;
    hide CommandOf;
    CommandIsSized(cycles[k]);
  }

  lemma ClearedIsSizeable(desk: Desk, c: Cycle)
    requires Cleared(desk, c)
    ensures Sizing(c).Ok? && Trades(c)
  {
    hide StagesPass;
    hide Fits;
    hide Sizing;
  }

  lemma {:induction false} RunsLeaveNoDangling(desk: Desk, cycles: seq<Cycle>)
    requires NoDangling(desk)
    ensures NoDangling(Run(desk, cycles))
    decreases |cycles|
  {
    hide After;
    if |cycles| > 0 {
      RunsLeaveNoDangling(desk, cycles[..|cycles| - 1]);
      CycleLeavesNoDangling(Run(desk, cycles[..|cycles| - 1]), cycles[|cycles| - 1]);
    }
  }

  /** Lineage rows are immutable: a run adds rows and changes none. */
  lemma {:induction false} LineageIsAppendOnly(desk: Desk, cycles: seq<Cycle>, id: LineageId)
    requires id in desk.lineage
    ensures id in Run(desk, cycles).lineage && Run(desk, cycles).lineage[id] == desk.lineage[id]
    decreases |cycles|
  {
    hide After;
    hide RecordOf;
    hide StagesPass;
    hide AdvicePasses;
    if |cycles| > 0 {
      LineageIsAppendOnly(desk, cycles[..|cycles| - 1], id);
      TablesAfter(Run(desk, cycles[..|cycles| - 1]), cycles[|cycles| - 1]);
    }
  }
}
