/**
 One decision cycle in one table: which fault ends it, what it returns otherwise,
 and which journal and trace rows it leaves.  The deadlines and the steps stand here as
 numbers and names, next to the phase by phase account of the orchestrator.
 */
module CycleOutcome {
  import opened RiskSizing
  import opened Orchestrator
  import opened DecisionSafety

  // --------------------------------------------------------- how far a cycle gets

  function DebateStep(c: Cycle): Step
  {
    if c.debateHeld then DebateValidated else DebateSkipped
  }

  /** The four analysts end well with evidence, before the deadline's last half second. */
  ghost predicate AnalystsDone(c: Cycle)
  {
    && c.clock.analysts > 500
    && c.technical.ok && c.macroStage.ok && c.news.ok && c.smc.ok
    && c.technical.traces != [] && c.macroStage.traces != [] && c.news.traces != [] && c.smc.traces != []
  }

  ghost predicate DebateBegins(c: Cycle)
  {
    AnalystsDone(c) && AnalystsValidated !in c.failingSteps && (c.debateHeld ==> c.clock.debate > 800)
  }

  ghost predicate DebateDone(c: Cycle)
  {
    DebateBegins(c) && (c.debateHeld ==> c.debate.ok)
  }

  ghost predicate ForumBegins(c: Cycle)
  {
    DebateDone(c) && DebateStep(c) !in c.failingSteps && c.clock.forum > 800
  }

  ghost predicate ForumDone(c: Cycle)
  {
    ForumBegins(c) && c.forum.ok
  }

  ghost predicate ProposerBegins(c: Cycle)
  {
    ForumDone(c) && IcValidated !in c.failingSteps && c.clock.proposer > 1000
  }

  ghost predicate ProposerDone(c: Cycle)
  {
    ProposerBegins(c) && c.proposer.ok
  }

  ghost predicate Proposed(c: Cycle)
  {
    ProposerDone(c) && ProposalValidated !in c.failingSteps
  }

  /** Every figure the trade is sized with is well formed. */
  ghost predicate HasFigures(c: Cycle)
  {
    && c.atr > 0.0 && c.terms.pipSize > 0.0 && c.portfolio.equity > 0.0
    && 0.0 < c.terms.risk < 1.0 && c.terms.atrMultiplier > 0.0 && c.terms.pipValue > 0.0
  }

  ghost predicate AssessorBegins(c: Cycle)
  {
    Proposed(c) && (c.action == BUY || c.action == SELL) && HasFigures(c) && c.clock.assessor > 500
  }

  /** A cycle without a trade needs no assessor. */
  ghost predicate ReadyToRecord(c: Cycle)
  {
    if c.action == HOLD || c.action == REJECT then Proposed(c) else AssessorBegins(c) && c.assessor.ok
  }

  ghost predicate RowCommits(desk: Desk, c: Cycle)
  {
    ReadyToRecord(c) && c.id !in desk.lineage && c.flushes && c.commits
  }

  /** The trade is inside every limit and not vetoed. */
  ghost predicate IsApproved(c: Cycle)
  {
    (c.action == BUY || c.action == SELL) && !c.advice.veto && InsideLimits(VolumeOf(c), c)
  }

  ghost function FinalStep(c: Cycle): Step
  {
    if c.action == HOLD || c.action == REJECT then Noop else if IsApproved(c) then Dispatched else RiskRejected
  }

  // ------------------------------------------------------------- the first fault

  datatype Fault = NoFault | Fault(error: Error)

  ghost function FaultWhileDeliberating(c: Cycle): Fault
  {
    if c.clock.analysts <= 500 then Fault(DeadlineExceeded)
    else if !c.technical.ok || !c.macroStage.ok || !c.news.ok || !c.smc.ok then Fault(StageFailed)
    else if [] in [c.technical.traces, c.macroStage.traces, c.news.traces, c.smc.traces] then Fault(MissingEvidence)
    else if AnalystsValidated in c.failingSteps then Fault(JournalFailed)
    else if c.debateHeld && c.clock.debate <= 800 then Fault(DeadlineExceeded)
    else if c.debateHeld && !c.debate.ok then Fault(StageFailed)
    else if DebateStep(c) in c.failingSteps then Fault(JournalFailed)
    else if c.clock.forum <= 800 then Fault(DeadlineExceeded)
    else if !c.forum.ok then Fault(StageFailed)
    else if IcValidated in c.failingSteps then Fault(JournalFailed)
    else if c.clock.proposer <= 1000 then Fault(DeadlineExceeded)
    else if !c.proposer.ok then Fault(StageFailed)
    else if ProposalValidated in c.failingSteps then Fault(JournalFailed)
    else NoFault
  }

  ghost function FaultWhileAdvising(c: Cycle): Fault
  {
    if c.action == HOLD || c.action == REJECT then NoFault
    else if c.atr <= 0.0 then Fault(SizingFailed(AtrNotPositive))
    else if c.terms.pipSize <= 0.0 then Fault(SizingFailed(PipSizeNotPositive))
    else if c.portfolio.equity <= 0.0 then Fault(SizingFailed(EquityNotPositive))
    else if c.terms.risk <= 0.0 || c.terms.risk >= 1.0 then Fault(SizingFailed(RiskOutOfRange))
    else if c.terms.atrMultiplier <= 0.0 then Fault(SizingFailed(StopNotPositive))
    else if c.terms.pipValue <= 0.0 then Fault(SizingFailed(PipValueNotPositive))
    else if c.clock.assessor <= 500 then Fault(DeadlineExceeded)
    else if !c.assessor.ok then Fault(StageFailed)
    else NoFault
  }

  ghost function FaultWhileClosing(desk: Desk, c: Cycle): Fault
  {
    if c.id in desk.lineage || !c.flushes || !c.commits || !c.replyArrives then Fault(LineageFailed)
    else if IsApproved(c) && !c.commandBuilds then Fault(CommandFailed)
    else if IsApproved(c) && c.router.RouterRaises? then Fault(DispatchFailed)
    else if FinalStep(c) in c.failingSteps then Fault(JournalFailed)
    else NoFault
  }

  /** The first thing that goes wrong, in the order of the cycle. */
  ghost function FirstFault(desk: Desk, c: Cycle): Fault
  {
    if FaultWhileDeliberating(c).Fault? then FaultWhileDeliberating(c)
    else if FaultWhileAdvising(c).Fault? then FaultWhileAdvising(c)
    else FaultWhileClosing(desk, c)
  }

  // ------------------------------------------------------------- the rows it leaves

  /** The unlinked journal row of a step that is reached: there unless its transaction fails and no reply was merely lost. */
  ghost function Logged(c: Cycle, step: Step, reached: bool): seq<JournalRow>
  {
    if reached && (step !in c.failingSteps || step in c.lostSteps) then [JournalRow(c.workflow, step, Unlinked)] else []
  }

  ghost function DeliberationRows(c: Cycle): seq<JournalRow>
  {
    Logged(c, AnalystsValidated, AnalystsDone(c)) + Logged(c, DebateStep(c), DebateDone(c))
    + Logged(c, IcValidated, ForumDone(c)) + Logged(c, ProposalValidated, ProposerDone(c))
  }

  /** Whether a model call with this trace was made by the cycle. */
  ghost predicate IsTraced(c: Cycle, t: TraceId)
  {
    || (c.clock.analysts > 500 && (t in c.technical.traces || t in c.macroStage.traces || t in c.news.traces || t in c.smc.traces))
    || (c.debateHeld && DebateBegins(c) && t in c.debate.traces)
    || (ForumBegins(c) && t in c.forum.traces)
    || (ProposerBegins(c) && t in c.proposer.traces)
    || (AssessorBegins(c) && t in c.assessor.traces)
  }

  ghost predicate LastRowIsWritten(c: Cycle)
  {
    && c.replyArrives
    && (IsApproved(c) ==> c.commandBuilds && c.router.Answer?)
    && (FinalStep(c) in c.failingSteps ==> FinalStep(c) in c.lostSteps)
  }

  /** Every row of the workflow is linked to the new lineage row, and no other row is touched. */
  ghost predicate IsRelinked(was: seq<JournalRow>, now: seq<JournalRow>, workflow: string, id: LineageId)
  {
    && |now| == |was|
    && forall i :: 0 <= i < |was| ==>
         && now[i].workflow == was[i].workflow && now[i].step == was[i].step
         && now[i].link == if was[i].workflow == workflow then Linked(id) else was[i].link
  }

  /** The journal after a cycle: the deliberation's rows, linked if the lineage row commits, and then the closing row. */
  ghost predicate IsJournalAfter(desk: Desk, c: Cycle, after: seq<JournalRow>)
  {
    var open := desk.journal + DeliberationRows(c);
    if !RowCommits(desk, c) then after == open
    else
      exists linked :: IsRelinked(open, linked, c.workflow, c.id)
        && after == linked + if LastRowIsWritten(c) then [JournalRow(c.workflow, FinalStep(c), Linked(c.id))] else []
  }

  // --------------------------------------------------------------------- one stage

  /** What a part of a cycle adds to journal and traces. */
  ghost predicate Adds(p: Progress, q: Progress, rows: seq<JournalRow>, traces: seq<TraceId>)
  {
    && q.desk.journal == p.desk.journal + rows
    && forall t :: t in q.desk.traces <==> t in p.desk.traces || t in traces
  }

  lemma AddsNothing(p: Progress)
    ensures Adds(p, p, [], [])
  {
  }

  lemma AddsThen(p: Progress, q: Progress, r: Progress, a: seq<JournalRow>, s: seq<TraceId>, b: seq<JournalRow>, u: seq<TraceId>)
    requires Adds(p, q, a, s) && Adds(q, r, b, u)
    ensures Adds(p, r, a + b, s + u)
  {
  }

  /** The fault of a checked stage and its journal row. */
  ghost function StageFault(c: Cycle, remaining: int, reserve: int, stage: Stage, step: Step): Fault
  {
    if remaining <= reserve then Fault(DeadlineExceeded)
    else if !stage.ok then Fault(StageFailed)
    else if step in c.failingSteps then Fault(JournalFailed)
    else NoFault
  }

  function Part<T>(happens: bool, xs: seq<T>): seq<T>
  {
    if happens then xs else []
  }

  lemma CheckpointExactly(p: Progress, c: Cycle, remaining: int, reserve: int, stage: Stage, needsEvidence: bool, step: Step)
    requires p.Going? && p.ids != []
    ensures
      var staged := Staged(Checked(p, remaining, reserve), stage);
      var q := Journaled(if needsEvidence then Evidenced(staged) else staged, c, step, Unlinked);
      && Adds(p, q, Logged(c, step, remaining > reserve && stage.ok), Part(remaining > reserve, stage.traces))
      && (q.Going? <==> StageFault(c, remaining, reserve, stage, step) == NoFault)
      && (q.Halted? ==> StageFault(c, remaining, reserve, stage, step) == Fault(q.error))
      && (q.Going? ==> q.ids != [])
  {
  }

  lemma AnalystsExactly(desk: Desk, c: Cycle)
    ensures
      var p, q := Going(desk, []), AnalystPhase(Going(desk, []), c);
      && Adds(p, q, Logged(c, AnalystsValidated, AnalystsDone(c)), Part(c.clock.analysts > 500, AnalystTraces(c)))
      && (q.Going? <==> AnalystsDone(c) && AnalystsValidated !in c.failingSteps)
      && (q.Going? ==> q.ids != [])
  {
  }

  lemma AnalystFault(desk: Desk, c: Cycle)
    requires AnalystPhase(Going(desk, []), c).Halted?
    ensures FaultWhileDeliberating(c) == Fault(AnalystPhase(Going(desk, []), c).error)
  {
    hide WithTraces;
  }

  // ------------------------------------------------------------- phase by phase

  lemma HaltedAddsNothing(p: Progress, c: Cycle)
    requires p.Halted?
    ensures DebatePhase(p, c) == p && ForumPhase(p, c) == p && ProposalPhase(p, c) == p
    ensures Adds(p, p, [], [])
  {
    HaltedPhases(p, c);
  }

  lemma DebateOutcome(p: Progress, c: Cycle)
    requires p.Going? <==> AnalystsDone(c) && AnalystsValidated !in c.failingSteps
    requires p.Going? ==> p.ids != []
    ensures
      var q := DebatePhase(p, c);
      && Adds(p, q, Logged(c, DebateStep(c), DebateDone(c)), Part(c.debateHeld && DebateBegins(c), c.debate.traces))
      && (q.Going? <==> DebateDone(c) && DebateStep(c) !in c.failingSteps)
      && (q.Going? ==> q.ids != [])
      && (p.Going? && q.Halted? ==> FaultWhileDeliberating(c) == Fault(q.error))
      && (p.Halted? ==> q == p)
  {
    hide AnalystsDone;
    hide WithTraces;
    if p.Halted? {
      HaltedAddsNothing(p, c);
    } else if c.debateHeld {
      CheckpointExactly(p, c, c.clock.debate, FORUM_RESERVE, c.debate, true, DebateValidated);
      DebateFault(c);
    } else {
      assert DebatePhase(p, c) == Journaled(p, c, DebateSkipped, Unlinked);
      DebateFault(c);
    }
    hide Staged;
    hide Checked;
    hide Evidenced;
  }

  lemma DebateFault(c: Cycle)
    requires AnalystsDone(c) && AnalystsValidated !in c.failingSteps
    ensures
      var fault := if c.debateHeld then StageFault(c, c.clock.debate, 800, c.debate, DebateValidated)
                   else if DebateSkipped in c.failingSteps then Fault(JournalFailed) else NoFault;
      fault != NoFault ==> FaultWhileDeliberating(c) == fault
  {
  }

  lemma ForumOutcome(p: Progress, c: Cycle)
    requires p.Going? <==> DebateDone(c) && DebateStep(c) !in c.failingSteps
    requires p.Going? ==> p.ids != []
    ensures
      var q := ForumPhase(p, c);
      && Adds(p, q, Logged(c, IcValidated, ForumDone(c)), Part(ForumBegins(c), c.forum.traces))
      && (q.Going? <==> ForumDone(c) && IcValidated !in c.failingSteps)
      && (q.Going? ==> q.ids != [])
      && (p.Going? && q.Halted? ==> FaultWhileDeliberating(c) == Fault(q.error))
      && (p.Halted? ==> q == p)
  {
    hide WithTraces;
    if p.Halted? {
      HaltedAddsNothing(p, c);
    } else {
      CheckpointExactly(p, c, c.clock.forum, FORUM_RESERVE, c.forum, true, IcValidated);
      ForumFault(c);
    }
    hide Staged;
    hide Checked;
    hide Evidenced;
    hide DebateDone;
  }

  lemma ForumFault(c: Cycle)
    requires DebateDone(c) && DebateStep(c) !in c.failingSteps
    ensures var fault := StageFault(c, c.clock.forum, 800, c.forum, IcValidated);
      fault != NoFault ==> FaultWhileDeliberating(c) == fault
  {
  }

  lemma ProposalOutcome(p: Progress, c: Cycle)
    requires p.Going? <==> ForumDone(c) && IcValidated !in c.failingSteps
    requires p.Going? ==> p.ids != []
    ensures
      var q := ProposalPhase(p, c);
      && Adds(p, q, Logged(c, ProposalValidated, ProposerDone(c)), Part(ProposerBegins(c), c.proposer.traces))
      && (q.Going? <==> Proposed(c)) && (q.Going? ==> FaultWhileDeliberating(c) == NoFault)
      && (p.Going? && q.Halted? ==> FaultWhileDeliberating(c) == Fault(q.error))
      && (p.Halted? ==> q == p)
  {
    hide WithTraces;
    if p.Halted? {
      HaltedAddsNothing(p, c);
    } else {
      CheckpointExactly(p, c, c.clock.proposer, PROPOSER_RESERVE, c.proposer, false, ProposalValidated);
      ProposalFault(c);
    }
    hide Staged;
    hide Checked;
    hide Evidenced;
    hide ForumDone;
  }

  lemma ProposalFault(c: Cycle)
    requires ForumDone(c) && IcValidated !in c.failingSteps
    ensures StageFault(c, c.clock.proposer, 1000, c.proposer, ProposalValidated) == FaultWhileDeliberating(c)
  {
  }

  /** The traces of the deliberation. */
  ghost function DeliberationTraces(c: Cycle): seq<TraceId>
  {
    Part(c.clock.analysts > 500, AnalystTraces(c)) + Part(c.debateHeld && DebateBegins(c), c.debate.traces)
    + Part(ForumBegins(c), c.forum.traces) + Part(ProposerBegins(c), c.proposer.traces)
  }

  lemma DeliberationOutcome(desk: Desk, c: Cycle)
    ensures
      var q := Deliberation(desk, c);
      && Adds(Going(desk, []), q, DeliberationRows(c), DeliberationTraces(c))
      && (q.Going? <==> Proposed(c))
      && FaultWhileDeliberating(c) == if q.Going? then NoFault else Fault(q.error)
  {
    hide *;
    var p0 := Going(desk, []);
    var p1 := AnalystPhase(p0, c);
    var p2 := DebatePhase(p1, c);
    var p3 := ForumPhase(p2, c);
    var p4 := ProposalPhase(p3, c);
    DeliberationIs(desk, c);
    AnalystsExactly(desk, c);
    if p1.Halted? { AnalystFault(desk, c); }
    DebateOutcome(p1, c);
    ForumOutcome(p2, c);
    ProposalOutcome(p3, c);
    var r1, r2 := Logged(c, AnalystsValidated, AnalystsDone(c)), Logged(c, DebateStep(c), DebateDone(c));
    var r3, r4 := Logged(c, IcValidated, ForumDone(c)), Logged(c, ProposalValidated, ProposerDone(c));
    var t1, t2 := Part(c.clock.analysts > 500, AnalystTraces(c)), Part(c.debateHeld && DebateBegins(c), c.debate.traces);
    var t3, t4 := Part(ForumBegins(c), c.forum.traces), Part(ProposerBegins(c), c.proposer.traces);
    AddsThen(p0, p1, p2, r1, t1, r2, t2);
    AddsThen(p0, p2, p3, r1 + r2, t1 + t2, r3, t3);
    AddsThen(p0, p3, p4, r1 + r2 + r3, t1 + t2 + t3, r4, t4);
    RowsAre(c);
  }

  lemma DeliberationIs(desk: Desk, c: Cycle)
    ensures Deliberation(desk, c) == ProposalPhase(ForumPhase(DebatePhase(AnalystPhase(Going(desk, []), c), c), c), c)
  {
    hide ProposalPhase;
    hide ForumPhase;
    hide DebatePhase;
    hide AnalystPhase;
  }

  lemma RowsAre(c: Cycle)
    ensures DeliberationRows(c)
            == Logged(c, AnalystsValidated, AnalystsDone(c)) + Logged(c, DebateStep(c), DebateDone(c))
             + Logged(c, IcValidated, ForumDone(c)) + Logged(c, ProposalValidated, ProposerDone(c))
    ensures DeliberationTraces(c)
            == Part(c.clock.analysts > 500, AnalystTraces(c)) + Part(c.debateHeld && DebateBegins(c), c.debate.traces)
             + Part(ForumBegins(c), c.forum.traces) + Part(ProposerBegins(c), c.proposer.traces)
  {
    hide Logged;
  }

  // --------------------------------------------------------- advice and preparation

  /** The sizing of a trade, which names the first figure that is not well formed. */
  lemma SizingOutcome(c: Cycle)
    requires c.action == BUY || c.action == SELL
    ensures Sizing(c).Ok? <==> HasFigures(c)
    ensures Sizing(c).Err? ==> FaultWhileAdvising(c) == Fault(SizingFailed(Sizing(c).error))
    ensures HasFigures(c) ==>
              FaultWhileAdvising(c)
              == if c.clock.assessor <= 500 then Fault(DeadlineExceeded)
                 else if !c.assessor.ok then Fault(StageFailed) else NoFault
  {
    var side := if c.action == BUY then Buy else Sell;
    SizedExactly(c.entry, c.atr, c.portfolio.equity, c.terms, side, 1.0);
    SizingErrorExactly(c.entry, c.atr, c.portfolio.equity, c.terms, side, 1.0);
    hide CalculateSize;
  }

  lemma NoAdviceNeeded(c: Cycle)
    ensures c.action == HOLD || c.action == REJECT ==> FaultWhileAdvising(c) == NoFault
  {
  }

  lemma PreparedOutcome(desk: Desk, c: Cycle)
    ensures
      var q := Prepared(desk, c);
      && Adds(Going(desk, []), q, DeliberationRows(c), DeliberationTraces(c) + Part(AssessorBegins(c), c.assessor.traces))
      && (q.Going? <==> ReadyToRecord(c))
      && (q.Halted? ==> FirstFault(desk, c) == Fault(q.error))
      && (q.Going? ==> FirstFault(desk, c) == FaultWhileClosing(desk, c) && q.ids != [])
  {
    hide Deliberation;
    hide Proposed;
    hide DeliberationRows;
    hide DeliberationTraces;
    hide FaultWhileDeliberating;
    hide FaultWhileClosing;
    hide ProposalTraces;
    hide HasFigures;
    if c.action == BUY || c.action == SELL { SizingOutcome(c); }
    hide Sizing;
    hide FaultWhileAdvising;
    NoAdviceNeeded(c);
    DeliberationOutcome(desk, c);
    PreparedExactly(desk, c);
    DeliberationExactly(desk, c);
    hide StagesPass;
    hide AdvicePasses;
    hide EvidenceOf;
  }

  // ------------------------------------------------------------------ the verdict

  lemma InsideExactly(c: Cycle, volume: real)
    ensures Fits(RiskInputs(c, volume), RiskLimits(c)) <==> InsideLimits(volume, c)
  {
  }

  /** A trade is approved exactly when its volume is inside every limit, the kill switch off, and the assessor has no veto. */
  lemma ApprovedRowExactly(desk: Desk, c: Cycle)
    requires RowCommits(desk, c)
    ensures Recordable(desk, c)
    ensures RecordOf(c).verdict == Approved <==> IsApproved(c)
    ensures LastStep(c) == FinalStep(c)
  {
    RowCommitsExactly(desk, c);
    ApprovedRecordExactly(desk, c);
    InsideExactly(c, VolumeOf(c));
    hide Fits;
    hide InsideLimits;
    hide StagesPass;
    hide Sizing;
    hide CalculateSize;
    hide VolumeOf;
  }

  lemma RowCommitsExactly(desk: Desk, c: Cycle)
    ensures RowCommits(desk, c) <==> Recordable(desk, c)
  {
    hide Proposed;
    hide StagesPass;
    hide AdvicePasses;
    hide Prepared;
    PreparedOutcome(desk, c);
    PreparedExactly(desk, c);
  }

  // -------------------------------------------------------------------- the whole

  lemma RelinkedExactly(was: seq<JournalRow>, workflow: string, id: LineageId)
    ensures IsRelinked(was, Relinking(was, workflow, id), workflow, id)
  {
  }

  lemma ClosingOutcome(written: Progress, c: Cycle)
    requires RecordOf(c).verdict == Approved <==> IsApproved(c)
    requires LastStep(c) == FinalStep(c) && (written.Going? <==> c.replyArrives)
    ensures Closing(written, c).desk.journal
            == written.desk.journal + if LastRowIsWritten(c) then [JournalRow(c.workflow, FinalStep(c), Linked(c.id))] else []
    ensures
      var ending := Closing(written, c);
      && ending.desk.traces == written.desk.traces && ending.desk.lineage == written.desk.lineage
      && (written.Halted? ==> ending == Ending(written.desk, Raised(written.error)))
      && (written.Going? ==>
            ending.result
            == if IsApproved(c) && !c.commandBuilds then Raised(CommandFailed)
               else if IsApproved(c) && c.router.RouterRaises? then Raised(DispatchFailed)
               else if FinalStep(c) in c.failingSteps then Raised(JournalFailed)
               else ResultOf(c))
  {
    hide RecordOf;
    hide LastStep;
    hide FinalStep;
    hide IsApproved;
    hide ResultOf;
    hide CommandOf;
  }

  lemma RowOutcome(desk: Desk, c: Cycle)
    requires RowCommits(desk, c)
    ensures
      var written := LineageWritten(Prepared(desk, c), c, RecordOf(c));
      var open := desk.journal + DeliberationRows(c);
      && (written.Going? <==> c.replyArrives) && (written.Halted? ==> written.error == LineageFailed)
      && IsRelinked(open, written.desk.journal, c.workflow, c.id)
      && written.desk.lineage == desk.lineage[c.id := RecordOf(c)]
      && forall t :: t in written.desk.traces <==> t in desk.traces || IsTraced(c, t)
  {
    hide RecordOf;
    hide Prepared;
    hide DeliberationRows;
    hide DeliberationTraces;
    hide IsTraced;
    hide Relinking;
    hide IsRelinked;
    hide ReadyToRecord;
    PreparedOutcome(desk, c);
    PreparedExtends(desk, c);
    RecordNamesCycle(c);
    TracedExactly(c);
    RelinkedExactly(Prepared(desk, c).desk.journal, c.workflow, c.id);
  }

  lemma TracedExactly(c: Cycle)
    ensures forall t :: t in DeliberationTraces(c) + Part(AssessorBegins(c), c.assessor.traces) <==> IsTraced(c, t)
  {
    hide AssessorBegins;
    hide DebateBegins;
    hide ForumBegins;
    hide ProposerBegins;
  }

  /** What a returned result says: no trade wanted, or the trade's volume with its verdict and reasons. */
  ghost predicate IsReturned(c: Cycle, result: Orchestrator.Result)
  {
    && result.Returned? && result.id == c.id && result.action == c.action
    && (c.action == HOLD || c.action == REJECT ==>
          result.verdict == NoTrade && result.volume == 0.0 && result.reasons == [NoTradeWanted])
    && (c.action == BUY || c.action == SELL ==>
          && result.verdict == (if IsApproved(c) then Approved else Rejected)
          && IsSizedFor(Command(c.id, c.action, result.volume, StopOf(c)), c)
          && exists broken :: ListsBroken(broken, InputsAt(c, result.volume), c.limits.(killSwitch := c.portfolio.killSwitch), 8)
               && IsReasonList(result.reasons, broken, c.advice.veto))
  }

  function StopOf(c: Cycle): real
  {
    if c.action == BUY then c.entry - c.atr * c.terms.atrMultiplier else c.entry + c.atr * c.terms.atrMultiplier
  }

  function InputsAt(c: Cycle, volume: real): Inputs
  {
    Inputs(c.portfolio.equity, volume * c.entry, c.portfolio.totalNotional, c.portfolio.correlatedNotional,
           c.portfolio.dailyPnl, c.portfolio.openPositions, c.portfolio.strategyNotional, c.portfolio.isCorrelated)
  }

  /** The broken rules in their order, and behind them the veto if there is one. */
  ghost predicate IsReasonList(reasons: seq<Reason>, broken: seq<Violation>, veto: bool)
  {
    && |reasons| == |broken| + (if veto then 1 else 0)
    && (forall i :: 0 <= i < |broken| ==> reasons[i] == Broken(broken[i]))
    && (veto ==> reasons[|broken|] == AssessorVeto)
  }

  lemma ReturnedExactly(desk: Desk, c: Cycle)
    requires RowCommits(desk, c)
    ensures IsReturned(c, ResultOf(c))
  {
    hide HasFigures;
    hide Proposed;
    hide IsApproved;
    ApprovedRowExactly(desk, c);
    if c.action == BUY || c.action == SELL {
      SizingOutcome(c);
      TradeIsReturned(c);
    } else {
      assert ResultOf(c) == Returned(c.id, NoTrade, c.action, 0.0, [NoTradeWanted]);
    }
  }

  lemma TradeIsReturned(c: Cycle)
    requires (c.action == BUY || c.action == SELL) && Sizing(c).Ok?
    requires RecordOf(c).verdict == Approved <==> IsApproved(c)
    ensures IsReturned(c, ResultOf(c))
  {
    hide IsApproved;
    hide Sizing;
    hide IsSizedFor;
    hide ListsBroken;
    hide Assessing;
    CommandIsSized(c);
    StopIs(c);
    var broken := Violations(RiskInputs(c, VolumeOf(c)), RiskLimits(c));
    ViolationsExactly(RiskInputs(c, VolumeOf(c)), RiskLimits(c));
    hide Violations;
    VetoStays(c);
    assert IsReasonList(ReasonsOf(c), broken, c.advice.veto);
    hide IsReasonList;
    assert RiskInputs(c, VolumeOf(c)) == InputsAt(c, VolumeOf(c));
    assert RecordOf(c).verdict == if ReasonsOf(c) != [] then Rejected else Approved;
  }

  lemma VetoStays(c: Cycle)
    requires Sizing(c).Ok?
    ensures Assessing(c, Sizing(c).value).veto == c.advice.veto
  {
    hide Sizing;
    hide ResolveRiskAdjustment;
    hide VolatilityBand;
  }

  lemma StopIs(c: Cycle)
    requires Sizing(c).Ok? && Trades(c)
    ensures CommandOf(c).stopLoss == StopOf(c)
  {
    BaseOfCycle(c);
    hide Sizing;
    hide IsBase;
    hide VolumeOf;
  }

  /** The ids a proposal lists: the analysts', the debate's if it was held, the forum's and the proposer's. */
  function Listed(c: Cycle): seq<TraceId>
  {
    c.technical.traces + c.macroStage.traces + c.news.traces + c.smc.traces
    + (if c.debateHeld then c.debate.traces else []) + c.forum.traces + c.proposer.traces
  }

  /** The row of a cycle: the action and its evidence, and for a trade its verdict, rounded size, broken rules and veto flag. */
  ghost predicate IsRowOf(c: Cycle, record: Record)
  {
    && record.id == c.id && record.action == c.action && record.reasoning == Listed(c)
    && (c.action == HOLD || c.action == REJECT ==>
          && record.verdict == NoTrade && record.size == NullSize
          && record.violations == [NoTradeWanted] && record.veto == NoVetoEntry)
    && (c.action == BUY || c.action == SELL ==>
          && record.verdict == (if IsApproved(c) then Approved else Rejected)
          && record.size.StoredSize? && record.veto == VetoEntry(c.advice.veto)
          && exists volume, broken ::
               && IsSizedFor(Command(c.id, c.action, volume, StopOf(c)), c) && record.size == StoredSize(ToFourPlaces(volume))
               && ListsBroken(broken, InputsAt(c, volume), c.limits.(killSwitch := c.portfolio.killSwitch), 8)
               && IsReasonList(record.violations, broken, false))
  }

  lemma RowExactly(desk: Desk, c: Cycle)
    requires RowCommits(desk, c)
    ensures IsRowOf(c, RecordOf(c))
  {
    hide HasFigures;
    hide Proposed;
    hide IsApproved;
    ApprovedRowExactly(desk, c);
    assert ProposalTraces(c) == Listed(c);
    hide ProposalTraces;
    hide Listed;
    if c.action == BUY || c.action == SELL {
      SizingOutcome(c);
      TradeRow(c);
    }
    hide Sizing;
  }

  lemma TradeRow(c: Cycle)
    requires (c.action == BUY || c.action == SELL) && Sizing(c).Ok? && ProposalTraces(c) == Listed(c)
    requires RecordOf(c).verdict == Approved <==> IsApproved(c)
    ensures IsRowOf(c, RecordOf(c))
  {
    hide IsApproved;
    hide Sizing;
    hide IsSizedFor;
    hide ListsBroken;
    hide Assessing;
    hide ProposalTraces;
    hide Listed;
    hide ToFourPlaces;
    CommandIsSized(c);
    StopIs(c);
    var broken := Violations(RiskInputs(c, VolumeOf(c)), RiskLimits(c));
    ViolationsExactly(RiskInputs(c, VolumeOf(c)), RiskLimits(c));
    hide Violations;
    VetoStays(c);
    assert RecordOf(c).violations == BrokenLimits(broken);
    assert IsReasonList(BrokenLimits(broken), broken, false);
    hide IsReasonList;
    assert RiskInputs(c, VolumeOf(c)) == InputsAt(c, VolumeOf(c));
  }

  ghost predicate IsCommandOf(c: Cycle, event: Event)
  {
    event.Handed? && IsSizedFor(event.command, c)
  }

  /** What becomes visible: the row if it commits, and behind it the command of an approved trade whose commit is answered. */
  ghost predicate IsLogAfter(desk: Desk, c: Cycle, log: seq<Event>)
  {
    var n := |desk.log|;
    var sends := RowCommits(desk, c) && IsApproved(c) && c.replyArrives && c.commandBuilds;
    && |log| == n + (if sends then 2 else if RowCommits(desk, c) then 1 else 0)
    && log[..n] == desk.log
    && (RowCommits(desk, c) ==> log[n].RowCommitted? && IsRowOf(c, log[n].record))
    && (sends ==> IsCommandOf(c, log[n + 1]))
  }

  lemma LogExactly(desk: Desk, c: Cycle)
    ensures IsLogAfter(desk, c, After(desk, c).desk.log)
  {
    hide *;
    EventsExactly(desk, c);
    RowCommitsExactly(desk, c);
    if RowCommits(desk, c) {
      RowExactly(desk, c);
      ApprovedRowExactly(desk, c);
      SendsExactly(desk, c);
      if Cleared(desk, c) {
        ClearedIsSizeable(desk, c);
        CommandIsSized(c);
      }
    } else {
      ClearedIsRecordable(desk, c);
      assert desk.log + [] == desk.log;
    }
    LogIs(desk, c, After(desk, c).desk.log);
  }

  lemma SendsExactly(desk: Desk, c: Cycle)
    requires Recordable(desk, c) ==> (RecordOf(c).verdict == Approved <==> IsApproved(c))
    requires Recordable(desk, c) ==> (RecordOf(c).verdict == Approved <==> Approvable(desk, c))
    ensures Cleared(desk, c) <==> Recordable(desk, c) && IsApproved(c) && c.replyArrives && c.commandBuilds
  {
    hide StagesPass;
    hide AdvicePasses;
    hide RecordOf;
    hide IsApproved;
    hide Fits;
  }

  lemma LogIs(desk: Desk, c: Cycle, log: seq<Event>)
    requires RowCommits(desk, c) ==> IsRowOf(c, RecordOf(c))
    requires RowCommits(desk, c) && IsApproved(c) && c.replyArrives && c.commandBuilds ==> IsSizedFor(CommandOf(c), c)
    requires log == desk.log + if RowCommits(desk, c) && IsApproved(c) && c.replyArrives && c.commandBuilds
                               then [RowCommitted(RecordOf(c)), Handed(CommandOf(c))]
                               else if RowCommits(desk, c) then [RowCommitted(RecordOf(c))] else []
    ensures IsLogAfter(desk, c, log)
  {
    hide RowCommits;
    hide IsApproved;
    hide IsRowOf;
    hide RecordOf;
    hide CommandOf;
    hide IsSizedFor;
  }

  /**
   A cycle from outside: it raises the first thing that goes wrong and otherwise returns what its
   figures give; the deliberation's rows, the links and the closing row stand in the journal, and every
   model call that was made has its trace.
   */
  lemma CycleExactly(desk: Desk, c: Cycle)
    ensures
      var ending := After(desk, c);
      && (if FirstFault(desk, c).Fault? then ending.result == Raised(FirstFault(desk, c).error)
          else IsReturned(c, ending.result))
      && IsLogAfter(desk, c, ending.desk.log)
      && IsJournalAfter(desk, c, ending.desk.journal)
      && (forall t :: t in ending.desk.traces <==> t in desk.traces || IsTraced(c, t))
  {
    hide *;
    LogExactly(desk, c);
    AfterShape(desk, c);
    if RowCommits(desk, c) {
      RowOutcome(desk, c);
      ApprovedRowExactly(desk, c);
      ClosingOutcome(LineageWritten(Prepared(desk, c), c, RecordOf(c)), c);
      ReturnedExactly(desk, c);
      WrittenFault(desk, c);
      JournalOfRow(desk, c, LineageWritten(Prepared(desk, c), c, RecordOf(c)).desk.journal, After(desk, c).desk.journal);
    } else {
      UnwrittenOutcome(desk, c);
    }
  }

  lemma WrittenFault(desk: Desk, c: Cycle)
    requires RowCommits(desk, c)
    ensures FirstFault(desk, c)
            == if !c.replyArrives then Fault(LineageFailed)
               else if IsApproved(c) && !c.commandBuilds then Fault(CommandFailed)
               else if IsApproved(c) && c.router.RouterRaises? then Fault(DispatchFailed)
               else if FinalStep(c) in c.failingSteps then Fault(JournalFailed)
               else NoFault
  {
    hide FirstFault;
    hide Prepared;
    hide ReadyToRecord;
    hide IsApproved;
    PreparedOutcome(desk, c);
  }

  lemma JournalOfRow(desk: Desk, c: Cycle, linked: seq<JournalRow>, after: seq<JournalRow>)
    requires RowCommits(desk, c) && IsRelinked(desk.journal + DeliberationRows(c), linked, c.workflow, c.id)
    requires after == linked + if LastRowIsWritten(c) then [JournalRow(c.workflow, FinalStep(c), Linked(c.id))] else []
    ensures IsJournalAfter(desk, c, after)
  {
    hide DeliberationRows;
    hide RowCommits;
    hide IsRelinked;
    hide LastRowIsWritten;
  }

  /** Without a lineage row nothing is linked, and the cycle raises. */
  lemma UnwrittenOutcome(desk: Desk, c: Cycle)
    requires !RowCommits(desk, c)
    ensures
      var ending := After(desk, c);
      && FirstFault(desk, c).Fault? && ending.result == Raised(FirstFault(desk, c).error)
      && IsJournalAfter(desk, c, ending.desk.journal)
      && (forall t :: t in ending.desk.traces <==> t in desk.traces || IsTraced(c, t))
  {
    hide After;
    hide Prepared;
    hide RecordOf;
    hide ReadyToRecord;
    hide FirstFault;
    hide DeliberationRows;
    hide DeliberationTraces;
    hide IsTraced;
    AfterShape(desk, c);
    PreparedOutcome(desk, c);
    PreparedExtends(desk, c);
    TracedExactly(c);
    hide Closing;
    ClosingKeepsTables(LineageWritten(Prepared(desk, c), c, RecordOf(c)), c);
    HaltedClosing(LineageWritten(Prepared(desk, c), c, RecordOf(c)), c);
  }

  lemma HaltedClosing(written: Progress, c: Cycle)
    requires written.Halted?
    ensures Closing(written, c) == Ending(written.desk, Raised(written.error))
  {
    hide RecordOf;
    hide ResultOf;
    hide CommandOf;
  }
}
