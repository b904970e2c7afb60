/**
 One decision cycle (autogen_pipeline/orchestrator.py): staged deliberation,
 sizing and risk, the lineage row written before dispatch, and runs of many
 cycles over one database.  Clocks, stages, commits and the router's answer are
 inputs of a cycle, so every way each of them can fail is covered.
 */
module Orchestrator {
  import opened RiskSizing

  const ANALYST_RESERVE := 500
  const FORUM_RESERVE := 800
  const PROPOSER_RESERVE := 1000
  const RISK_RESERVE := 500

  // -------------------------------------------------------------- inputs of a cycle

  type TraceId = nat
  type LineageId = nat

  /** A stage commits one trace row per model call, whether or not it ends well. */
  datatype Stage = Stage(ok: bool, traces: seq<TraceId>)

  /** Milliseconds left when each deadline check is made. */
  datatype Clock = Clock(analysts: int, debate: int, forum: int, proposer: int, assessor: int)

  datatype Action = BUY | SELL | HOLD | REJECT

  datatype Step =
    | AnalystsValidated | DebateValidated | DebateSkipped | IcValidated
    | ProposalValidated | Noop | RiskRejected | Dispatched

  datatype Portfolio = Portfolio(
    equity: real, totalNotional: real, correlatedNotional: real, dailyPnl: real,
    openPositions: int, strategyNotional: real, isCorrelated: bool, killSwitch: bool)

  datatype RouterAnswer = Answer(status: string) | RouterRaises

  datatype Cycle = Cycle(
    id: LineageId, workflow: string, clock: Clock,
    technical: Stage, macroStage: Stage, news: Stage, smc: Stage,
    debateHeld: bool, debate: Stage, forum: Stage, proposer: Stage, assessor: Stage,
    action: Action, advice: Advice, adjustments: map<string, BandMap>,
    entry: real, atr: real, terms: Terms, portfolio: Portfolio, limits: Limits,
    failingSteps: set<Step>, lostSteps: set<Step>,
    flushes: bool, commits: bool, replyArrives: bool, commandBuilds: bool, router: RouterAnswer)

  // ------------------------------------------------------------------- the database

  datatype Link = Unlinked | Linked(id: LineageId)

  datatype Verdict = Approved | Rejected | NoTrade

  datatype Reason = Broken(violation: Violation) | AssessorVeto | NoTradeWanted

  /** A nullable column, and an entry that a JSON column may lack. */
  datatype SizeColumn = NullSize | StoredSize(volume: real)

  datatype VetoEntry = NoVetoEntry | VetoEntry(veto: bool)

  /**
   A lineage row: its columns, the violations and the veto flag of its risk
   context, and the trace ids stored in its proposal.  It has no column of reasons.
   */
  datatype Record = Record(
    id: LineageId, verdict: Verdict, action: Action, size: SizeColumn,
    violations: seq<Reason>, veto: VetoEntry, reasoning: seq<TraceId>)

  datatype JournalRow = JournalRow(workflow: string, step: Step, link: Link)

  datatype Command = Command(order: LineageId, action: Action, volume: real, stopLoss: real)

  /** What is visible outside, in the order in which it happens. */
  datatype Event = RowCommitted(record: Record) | Handed(command: Command)

  datatype Desk = Desk(
    lineage: map<LineageId, Record>, traces: map<TraceId, Link>, journal: seq<JournalRow>, log: seq<Event>)

  datatype Error =
    | DeadlineExceeded | StageFailed | MissingEvidence | JournalFailed
    | SizingFailed(reason: SizingError) | LineageFailed | CommandFailed | DispatchFailed

  datatype Result =
    | Raised(error: Error)
    | Returned(id: LineageId, verdict: Verdict, action: Action, volume: real, reasons: seq<Reason>)

  // ------------------------------------------------------------ steps of a cycle

  datatype Progress = Going(desk: Desk, ids: seq<TraceId>) | Halted(desk: Desk, error: Error)

  function WithTraces(desk: Desk, ids: seq<TraceId>): Desk
  {
    desk.(traces := map t | t in desk.traces.Keys + (set i | i in ids) :: if t in desk.traces then desk.traces[t] else Unlinked)
  }

  function WithJournal(desk: Desk, row: JournalRow): Desk
  {
    desk.(journal := desk.journal + [row])
  }

  function Checked(p: Progress, remaining: int, reserve: int): Progress
  {
    if p.Going? && remaining <= reserve then Halted(p.desk, DeadlineExceeded) else p
  }

  function Staged(p: Progress, stage: Stage): Progress
  {
    if p.Halted? then p
    else
      var desk := WithTraces(p.desk, stage.traces);
      if stage.ok then Going(desk, p.ids + stage.traces) else Halted(desk, StageFailed)
  }

  function Evidenced(p: Progress): Progress
  {
    if p.Going? && p.ids == [] then Halted(p.desk, MissingEvidence) else p
  }

  /** A journal row in its own transaction; a commit that fails may have lost its reply only. */
  function Journaled(p: Progress, c: Cycle, step: Step, link: Link): Progress
  {
    if p.Halted? then p
    else
      var desk := WithJournal(p.desk, JournalRow(c.workflow, step, link));
      if step in c.failingSteps then Halted(if step in c.lostSteps then desk else p.desk, JournalFailed)
      else Going(desk, p.ids)
  }

  function AnalystTraces(c: Cycle): seq<TraceId>
  {
    c.technical.traces + c.macroStage.traces + c.news.traces + c.smc.traces
  }

  /** The four analysts run side by side; each must end well and leave evidence of its own. */
  function AnalystPhase(p: Progress, c: Cycle): Progress
  {
    var started := Checked(p, c.clock.analysts, ANALYST_RESERVE);
    if started.Halted? then started
    else
      var desk := WithTraces(started.desk, AnalystTraces(c));
      if !(c.technical.ok && c.macroStage.ok && c.news.ok && c.smc.ok) then Halted(desk, StageFailed)
      else if c.technical.traces == [] || c.macroStage.traces == [] || c.news.traces == [] || c.smc.traces == [] then
        Halted(desk, MissingEvidence)
      else Journaled(Going(desk, started.ids + AnalystTraces(c)), c, AnalystsValidated, Unlinked)
  }

  function DebatePhase(p: Progress, c: Cycle): Progress
  {
    if c.debateHeld then
      Journaled(Evidenced(Staged(Checked(p, c.clock.debate, FORUM_RESERVE), c.debate)), c, DebateValidated, Unlinked)
    else Journaled(p, c, DebateSkipped, Unlinked)
  }

  function ForumPhase(p: Progress, c: Cycle): Progress
  {
    Journaled(Evidenced(Staged(Checked(p, c.clock.forum, FORUM_RESERVE), c.forum)), c, IcValidated, Unlinked)
  }

  function ProposalPhase(p: Progress, c: Cycle): Progress
  {
    Journaled(Staged(Checked(p, c.clock.proposer, PROPOSER_RESERVE), c.proposer), c, ProposalValidated, Unlinked)
  }

  /** Everything up to the proposal. */
  function Deliberation(desk: Desk, c: Cycle): Progress
  {
    ProposalPhase(ForumPhase(DebatePhase(AnalystPhase(Going(desk, []), c), c), c), c)
  }

  function Linking(traces: map<TraceId, Link>, ids: seq<TraceId>, id: LineageId): map<TraceId, Link>
  {
    map t | t in traces :: if t in ids then Linked(id) else traces[t]
  }

  /** Every journal row of the workflow is linked, rows of earlier cycles included. */
  function Relinking(journal: seq<JournalRow>, workflow: string, id: LineageId): seq<JournalRow>
  {
    seq(|journal|, i requires 0 <= i < |journal| =>
      if journal[i].workflow == workflow then journal[i].(link := Linked(id)) else journal[i])
  }

  function Committed(desk: Desk, c: Cycle, record: Record, ids: seq<TraceId>): Desk
  {
    Desk(desk.lineage[record.id := record], Linking(desk.traces, ids, c.id),
         Relinking(desk.journal, c.workflow, c.id), desk.log + [RowCommitted(record)])
  }

  /** The lineage row and the links of its evidence, in one transaction, whose reply can be lost behind the commit. */
  function LineageWritten(p: Progress, c: Cycle, record: Record): Progress
  {
    if p.Halted? then p
    else if p.ids == [] then Halted(p.desk, MissingEvidence)
    else if c.id in p.desk.lineage || !c.flushes || !c.commits then Halted(p.desk, LineageFailed)
    else
      var desk := Committed(p.desk, c, record, p.ids);
      if c.replyArrives then Going(desk, p.ids) else Halted(desk, LineageFailed)
  }

  function VolatilityBand(atr: real, price: real): string
  {
    var pct := if price > 0.0 then atr / price else 0.0;
    if pct < 0.005 then "low" else if pct < 0.01 then "med" else "high"
  }

  function Sizing(c: Cycle): RiskSizing.Result<Size>
  {
    CalculateSize(c.entry, c.atr, c.portfolio.equity, c.terms, if c.action == BUY then Buy else Sell, 1.0)
  }

  function Assessing(c: Cycle, size: Size): Assessed
  {
    ApplyAssessment(c.advice, size.base, c.adjustments, VolatilityBand(c.atr, c.entry), c.terms.low, c.terms.high)
  }

  function RiskInputs(c: Cycle, volume: real): Inputs
  {
    Inputs(c.portfolio.equity, volume * c.entry, c.portfolio.totalNotional, c.portfolio.correlatedNotional,
           c.portfolio.dailyPnl, c.portfolio.openPositions, c.portfolio.strategyNotional, c.portfolio.isCorrelated)
  }

  /** The kill switch is the portfolio's, whatever the configured limits say. */
  function RiskLimits(c: Cycle): Limits
  {
    c.limits.(killSwitch := c.portfolio.killSwitch)
  }

  function BrokenLimits(violations: seq<Violation>): seq<Reason>
  {
    seq(|violations|, i requires 0 <= i < |violations| => Broken(violations[i]))
  }

  /** The violations that go into the risk context. */
  function Broke(c: Cycle, assessed: Assessed): seq<Reason>
  {
    BrokenLimits(Violations(RiskInputs(c, assessed.final), RiskLimits(c)))
  }

  /** The reasons of the verdict: the violations, then the veto. */
  function Reasons(c: Cycle, assessed: Assessed): seq<Reason>
  {
    Broke(c, assessed) + if assessed.veto then [AssessorVeto] else []
  }

  datatype Ending = Ending(desk: Desk, result: Result)

  function EndAs(p: Progress, result: Result): Ending
  {
    if p.Halted? then Ending(p.desk, Raised(p.error)) else Ending(p.desk, result)
  }

  /** Without a risk context the reasons stand in for its violations, and no size is passed. */
  function NoTradeRecord(c: Cycle, reasoning: seq<TraceId>): Record
  {
    Record(c.id, NoTrade, c.action, NullSize, [NoTradeWanted], NoVetoEntry, reasoning)
  }

  const TEN_THOUSANDTHS := 10000.0

  /** A whole number of ten-thousandths. */
  predicate IsFourPlaces(x: real)
  {
    (x * TEN_THOUSANDTHS).Floor as real == x * TEN_THOUSANDTHS
  }

  /** A magnitude to four places, halves upward. */
  function RoundMagnitude(x: real): real
  {
    (x * TEN_THOUSANDTHS + 0.5).Floor as real / TEN_THOUSANDTHS
  }

  /** The size column keeps four places and rounds half away from zero. */
  function ToFourPlaces(x: real): real
  {
    if x >= 0.0 then RoundMagnitude(x) else -RoundMagnitude(-x)
  }

  /** With a risk context its own violations are stored, which leave out the veto. */
  function TradeRecord(c: Cycle, verdict: Verdict, assessed: Assessed, reasoning: seq<TraceId>): Record
  {
    Record(c.id, verdict, c.action, StoredSize(ToFourPlaces(assessed.final)), Broke(c, assessed), VetoEntry(assessed.veto), reasoning)
  }

  /** Hold and reject: a lineage row, nothing sent. */
  function Refrain(p: Progress, c: Cycle, reasoning: seq<TraceId>): Ending
  {
    EndAs(Journaled(LineageWritten(p, c, NoTradeRecord(c, reasoning)), c, Noop, Linked(c.id)),
          Returned(c.id, NoTrade, c.action, 0.0, [NoTradeWanted]))
  }

  function Refuse(p: Progress, c: Cycle, reasoning: seq<TraceId>, assessed: Assessed): Ending
  {
    EndAs(Journaled(LineageWritten(p, c, TradeRecord(c, Rejected, assessed, reasoning)), c, RiskRejected, Linked(c.id)),
          Returned(c.id, Rejected, c.action, assessed.final, Reasons(c, assessed)))
  }

  /** Between the commit and the router the command and its TCA context are built, which can fail. */
  function Built(p: Progress, c: Cycle): Progress
  {
    if p.Going? && !c.commandBuilds then Halted(p.desk, CommandFailed) else p
  }

  function Handing(p: Progress, c: Cycle, command: Command): Progress
  {
    if p.Halted? then p
    else
      var desk := p.desk.(log := p.desk.log + [Handed(command)]);
      if c.router.RouterRaises? then Halted(desk, DispatchFailed) else Going(desk, p.ids)
  }

  /** The lineage row first, then the command, then the router. */
  function Approve(p: Progress, c: Cycle, reasoning: seq<TraceId>, size: Size, assessed: Assessed): Ending
  {
    var written := LineageWritten(p, c, TradeRecord(c, Approved, assessed, reasoning));
    var handed := Handing(Built(written, c), c, Command(c.id, c.action, assessed.final, size.stopPrice));
    EndAs(Journaled(handed, c, Dispatched, Linked(c.id)),
          Returned(c.id, Approved, c.action, assessed.final, []))
  }

  /** Sizing, the advisory stage, risk validation and what follows from it. */
  function Trade(p: Progress, c: Cycle): Ending
  {
    if p.Halted? then Ending(p.desk, Raised(p.error))
    else
      match Sizing(c)
      case Err(reason) => Ending(p.desk, Raised(SizingFailed(reason)))
      case Ok(size) =>
        var advised := Evidenced(Staged(Checked(p, c.clock.assessor, RISK_RESERVE), c.assessor));
        var assessed := Assessing(c, size);
        if Reasons(c, assessed) != [] then Refuse(advised, c, p.ids, assessed)
        else Approve(advised, c, p.ids, size, assessed)
  }

  function After(desk: Desk, c: Cycle): Ending
  {
    var p := Deliberation(desk, c);
    if p.Halted? then Ending(p.desk, Raised(p.error))
    else if c.action == HOLD || c.action == REJECT then Refrain(p, c, p.ids)
    else Trade(p, c)
  }

  // ------------------------------------------------------------- the cycle itself

  datatype Status = Fine | Failed(error: Error)

  function ProgressOf(desk: Desk, ids: seq<TraceId>, status: Status): Progress
  {
    match status
    case Fine => Going(desk, ids)
    case Failed(error) => Halted(desk, error)
  }

  class DecisionOrchestrator {
    var lineage: map<LineageId, Record>
    var traces: map<TraceId, Link>
    var journal: seq<JournalRow>
    var log: seq<Event>

    ghost function State(): Desk
      reads this
    {
      Desk(lineage, traces, journal, log)
    }

    /** A journal row in its own transaction. */
    method Journal(c: Cycle, step: Step, link: Link, ids: seq<TraceId>) returns (status: Status)
      modifies this`journal
      ensures ProgressOf(State(), ids, status) == Journaled(Going(old(State()), ids), c, step, link)
    {
      if step !in c.failingSteps || step in c.lostSteps {
        journal := journal + [JournalRow(c.workflow, step, link)];
      }
      if step in c.failingSteps {
        return Failed(JournalFailed);
      }
      status := Fine;
    }

    /** A stage, its trace rows in transactions of their own. */
    method RunStage(stage: Stage, was: seq<TraceId>) returns (ids: seq<TraceId>, status: Status)
      modifies this`traces
      ensures ProgressOf(State(), ids, status) == Staged(Going(old(State()), was), stage)
    {
      WriteTraces(stage.traces);
      ids := was + stage.traces;
      status := if stage.ok then Fine else Failed(StageFailed);
    }

    method WriteTraces(ids: seq<TraceId>)
      modifies this`traces
      ensures State() == WithTraces(old(State()), ids)
    {
      var all := traces.Keys + set i | i in ids;
      traces := map t | t in all :: if t in traces then traces[t] else Unlinked;
    }

    method RunAnalysts(c: Cycle) returns (ids: seq<TraceId>, status: Status)
      modifies this
      ensures ProgressOf(State(), ids, status) == AnalystPhase(Going(old(State()), []), c)
    {
      hide WithTraces;
      ids := [];
      if c.clock.analysts <= ANALYST_RESERVE {
        return [], Failed(DeadlineExceeded);
      }
      WriteTraces(AnalystTraces(c));
      if !(c.technical.ok && c.macroStage.ok && c.news.ok && c.smc.ok) {
        return [], Failed(StageFailed);
      }
      if c.technical.traces == [] || c.macroStage.traces == [] || c.news.traces == [] || c.smc.traces == [] {
        return [], Failed(MissingEvidence);
      }
      ids := AnalystTraces(c);
      assert [] + AnalystTraces(c) == ids;
      status := Journal(c, AnalystsValidated, Unlinked, ids);
    }

    /** A checked stage followed by its journal row. */
    method RunCheckpoint(c: Cycle, remaining: int, reserve: int, stage: Stage, needsEvidence: bool, step: Step, was: seq<TraceId>)
      returns (ids: seq<TraceId>, status: Status)
      modifies this
      ensures ProgressOf(State(), ids, status)
              == var staged := Staged(Checked(Going(old(State()), was), remaining, reserve), stage);
                 Journaled(if needsEvidence then Evidenced(staged) else staged, c, step, Unlinked)
    {
      hide WithTraces;
      ids := was;
      if remaining <= reserve {
        return was, Failed(DeadlineExceeded);
      }
      ids, status := RunStage(stage, was);
      if status.Failed? {
        return ids, status;
      }
      if needsEvidence && ids == [] {
        return ids, Failed(MissingEvidence);
      }
      status := Journal(c, step, Unlinked, ids);
    }

    method Deliberate(c: Cycle) returns (ids: seq<TraceId>, status: Status)
      modifies this
      ensures ProgressOf(State(), ids, status) == Deliberation(old(State()), c)
    {
      hide WithTraces;
      hide AnalystPhase;
      ids, status := RunAnalysts(c);
      if status.Failed? { return ids, status; }
      if c.debateHeld {
        ids, status := RunCheckpoint(c, c.clock.debate, FORUM_RESERVE, c.debate, true, DebateValidated, ids);
      } else {
        status := Journal(c, DebateSkipped, Unlinked, ids);
      }
      if status.Failed? { return ids, status; }
      ids, status := RunCheckpoint(c, c.clock.forum, FORUM_RESERVE, c.forum, true, IcValidated, ids);
      if status.Failed? { return ids, status; }
      ids, status := RunCheckpoint(c, c.clock.proposer, PROPOSER_RESERVE, c.proposer, false, ProposalValidated, ids);
    }

    /** The row is flushed, the links are written, and one commit makes all of it visible. */
    method WriteLineage(c: Cycle, record: Record, ids: seq<TraceId>) returns (status: Status)
      requires record.id == c.id
      modifies this
      ensures ProgressOf(State(), ids, status) == LineageWritten(Going(old(State()), ids), c, record)
    {
      if ids == [] {
        return Failed(MissingEvidence);
      }
      if c.id in lineage || !c.flushes {
        return Failed(LineageFailed);
      }
      var pendingRows := lineage[c.id := record];
      var pendingTraces := Linking(traces, ids, c.id);
      var pendingJournal := Relinking(journal, c.workflow, c.id);
      if !c.commits {
        return Failed(LineageFailed);
      }
      lineage, traces, journal := pendingRows, pendingTraces, pendingJournal;
      log := log + [RowCommitted(record)];
      status := if c.replyArrives then Fine else Failed(LineageFailed);
    }

    /** A lineage row and the journal row that names it. */
    method Conclude(c: Cycle, record: Record, step: Step, ids: seq<TraceId>) returns (status: Status)
      requires record.id == c.id
      modifies this
      ensures ProgressOf(State(), ids, status)
              == Journaled(LineageWritten(Going(old(State()), ids), c, record), c, step, Linked(c.id))
    {
      hide Committed;
      status := WriteLineage(c, record, ids);
      if status.Failed? { return status; }
      status := Journal(c, step, Linked(c.id), ids);
    }

    method Dispatch(c: Cycle, command: Command, ids: seq<TraceId>) returns (status: Status)
      modifies this`log
      ensures ProgressOf(State(), ids, status) == Handing(Going(old(State()), ids), c, command)
    {
      log := log + [Handed(command)];
      status := if c.router.RouterRaises? then Failed(DispatchFailed) else Fine;
    }

    method Execute(c: Cycle) returns (result: Result)
      modifies this
      ensures Ending(State(), result) == After(old(State()), c)
    {
      hide Deliberation;
      hide LineageWritten;
      hide Trade;
      var ids, status := Deliberate(c);
      if status.Failed? {
        return Raised(status.error);
      }
      if c.action == HOLD || c.action == REJECT {
        status := Conclude(c, NoTradeRecord(c, ids), Noop, ids);
        if status.Failed? { return Raised(status.error); }
        return Returned(c.id, NoTrade, c.action, 0.0, [NoTradeWanted]);
      }
      result := RunTrade(c, ids);
    }

    method RunTrade(c: Cycle, reasoning: seq<TraceId>) returns (result: Result)
      modifies this
      ensures Ending(State(), result) == Trade(Going(old(State()), reasoning), c)
    {
      hide Committed;
      hide WithTraces;
      hide Sizing;
      hide Assessing;
      hide Reasons;
      var sized := Sizing(c);
      if sized.Err? {
        return Raised(SizingFailed(sized.error));
      }
      var size := sized.value;
      if c.clock.assessor <= RISK_RESERVE {
        return Raised(DeadlineExceeded);
      }
      var ids, status := RunStage(c.assessor, reasoning);
      if status.Failed? {
        return Raised(status.error);
      }
      if ids == [] {
        return Raised(MissingEvidence);
      }
      var assessed := Assessing(c, size);
      var reasons := GatherReasons(c, assessed);
      if reasons != [] {
        status := Conclude(c, TradeRecord(c, Rejected, assessed, reasoning), RiskRejected, ids);
        if status.Failed? { return Raised(status.error); }
        return Returned(c.id, Rejected, c.action, assessed.final, reasons);
      }
      result := SendApproved(c, reasoning, ids, size, assessed);
    }

    method GatherReasons(c: Cycle, assessed: Assessed) returns (reasons: seq<Reason>)
      ensures reasons == Reasons(c, assessed)
    {
      var verdict := AssessProposal(RiskInputs(c, assessed.final), RiskLimits(c));
      reasons := BrokenLimits(verdict.violations);
      if assessed.veto {
        reasons := reasons + [AssessorVeto];
      }
    }

    method SendApproved(c: Cycle, reasoning: seq<TraceId>, ids: seq<TraceId>, size: Size, assessed: Assessed) returns (result: Result)
      modifies this
      ensures Ending(State(), result) == Approve(Going(old(State()), ids), c, reasoning, size, assessed)
    {
      hide LineageWritten;
      hide Broke;
      var status := WriteLineage(c, TradeRecord(c, Approved, assessed, reasoning), ids);
      if status.Failed? { return Raised(status.error); }
      if !c.commandBuilds {
        return Raised(CommandFailed);
      }
      status := Dispatch(c, Command(c.id, c.action, assessed.final, size.stopPrice), ids);
      if status.Failed? { return Raised(status.error); }
      status := Journal(c, Dispatched, Linked(c.id), ids);
      if status.Failed? { return Raised(status.error); }
      result := Returned(c.id, Approved, c.action, assessed.final, []);
    }
  }
}
