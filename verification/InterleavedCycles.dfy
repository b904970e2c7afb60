/**
 Decision cycles that interleave on one database (autogen_pipeline/orchestrator.py):
 each is a plan of transactions, and between any two of them others may run.
 */
module InterleavedCycles {
  import opened RiskSizing
  import opened Orchestrator
  import opened DecisionSafety

  // ------------------------------------------------------------ a cycle as a plan

  /** What happens in one go: a check, a transaction, or a message to the router. */
  datatype Todo =
    | Check(remaining: int, reserve: int)
    | Analysts
    | RunStage(stage: Stage)
    | Evidence
    | Note(step: Step, link: Link)
    | GiveUp(error: Error)
    | WriteRow(record: Record)
    | Build
    | Hand(command: Command)

  function AnalystsDone(p: Progress, c: Cycle): Progress
  {
    if p.Halted? then p
    else
      var desk := WithTraces(p.desk, AnalystTraces(c));
      if !(c.technical.ok && c.macroStage.ok && c.news.ok && c.smc.ok) then Halted(desk, StageFailed)
      else if c.technical.traces == [] || c.macroStage.traces == [] || c.news.traces == [] || c.smc.traces == [] then
        Halted(desk, MissingEvidence)
      else Going(desk, p.ids + AnalystTraces(c))
  }

  function Do(p: Progress, c: Cycle, todo: Todo): Progress
  {
    match todo
    case Check(remaining, reserve) => Checked(p, remaining, reserve)
    case Analysts => AnalystsDone(p, c)
    case RunStage(stage) => Staged(p, stage)
    case Evidence => Evidenced(p)
    case Note(step, link) => Journaled(p, c, step, link)
    case GiveUp(error) => if p.Halted? then p else Halted(p.desk, error)
    case WriteRow(record) => LineageWritten(p, c, record)
    case Build => Built(p, c)
    case Hand(command) => Handing(p, c, command)
  }

  function Opening(c: Cycle): seq<Todo>
  {
    [Check(c.clock.analysts, ANALYST_RESERVE), Analysts, Note(AnalystsValidated, Unlinked)]
  }

  function Debating(c: Cycle): seq<Todo>
  {
    if c.debateHeld then
      [Check(c.clock.debate, FORUM_RESERVE), RunStage(c.debate), Evidence, Note(DebateValidated, Unlinked)]
    else [Note(DebateSkipped, Unlinked)]
  }

  function Proposing(c: Cycle): seq<Todo>
  {
    [Check(c.clock.forum, FORUM_RESERVE), RunStage(c.forum), Evidence, Note(IcValidated, Unlinked),
     Check(c.clock.proposer, PROPOSER_RESERVE), RunStage(c.proposer), Note(ProposalValidated, Unlinked)]
  }

  function Advising(c: Cycle): seq<Todo>
  {
    if !Trades(c) then []
    else
      match Sizing(c)
      case Err(reason) => [GiveUp(SizingFailed(reason))]
      case Ok(_) => [Check(c.clock.assessor, RISK_RESERVE), RunStage(c.assessor), Evidence]
  }

  predicate Unsized(c: Cycle)
  {
    Trades(c) && Sizing(c).Err?
  }

  function Concluding(c: Cycle): seq<Todo>
  {
    if Unsized(c) then []
    else if RecordOf(c).verdict == Approved then
      [WriteRow(RecordOf(c)), Build, Hand(CommandOf(c)), Note(LastStep(c), Linked(c.id))]
    else [WriteRow(RecordOf(c)), Note(LastStep(c), Linked(c.id))]
  }

  function Preparing(c: Cycle): seq<Todo>
  {
    Opening(c) + Debating(c) + Proposing(c) + Advising(c)
  }

  /** Everything a cycle does, in order; it stops where something fails. */
  function Plan(c: Cycle): seq<Todo>
  {
    Preparing(c) + Concluding(c)
  }

  function Play(p: Progress, c: Cycle, todos: seq<Todo>): Progress
    decreases |todos|
  {
    if todos == [] || p.Halted? then p else Play(Do(p, c, todos[0]), c, todos[1..])
  }

  lemma {:induction false} PlayAdds(p: Progress, c: Cycle, a: seq<Todo>, b: seq<Todo>)
    ensures Play(p, c, a + b) == Play(Play(p, c, a), c, b)
    decreases |a|
  {
    hide Do;
    if a == [] {
      assert a + b == b;
    } else if p.Going? {
      assert (a + b)[1..] == a[1..] + b;
      PlayAdds(Do(p, c, a[0]), c, a[1..], b);
    }
  }

  lemma PlayOne(p: Progress, c: Cycle, todo: Todo)
    ensures Play(p, c, [todo]) == if p.Halted? then p else Do(p, c, todo)
  {
    hide Do;
    assert [todo][1..] == [];
  }

  lemma HaltedStays(p: Progress, c: Cycle, todo: Todo)
    requires p.Halted?
    ensures Do(p, c, todo) == p
  {
  }

  lemma PlayStep(p: Progress, c: Cycle, todo: Todo, rest: seq<Todo>)
    ensures Play(p, c, [todo] + rest) == Play(Do(p, c, todo), c, rest)
  {
    PlayAdds(p, c, [todo], rest);
    PlayOne(p, c, todo);
    if p.Halted? { HaltedStays(p, c, todo); }
  }

  lemma PlayNothing(p: Progress, c: Cycle)
    ensures Play(p, c, []) == p
  {
  }

  lemma OpeningPlays(p: Progress, c: Cycle)
    ensures Play(p, c, Opening(c)) == AnalystPhase(p, c)
  {
    hide WithTraces;
    hide Play;
    var check, analysts, note := Check(c.clock.analysts, ANALYST_RESERVE), Analysts, Note(AnalystsValidated, Unlinked);
    assert Opening(c) == [check] + ([analysts] + ([note] + []));
    PlayStep(p, c, check, [analysts] + ([note] + []));
    var p1 := Do(p, c, check);
    PlayStep(p1, c, analysts, [note] + []);
    var p2 := Do(p1, c, analysts);
    PlayStep(p2, c, note, []);
    PlayNothing(Do(p2, c, note), c);
  }

  /** A check, a stage, its evidence and its journal row. */
  lemma CheckpointPlays(p: Progress, c: Cycle, remaining: int, reserve: int, stage: Stage, step: Step, rest: seq<Todo>)
    ensures Play(p, c, [Check(remaining, reserve), RunStage(stage), Evidence, Note(step, Unlinked)] + rest)
            == Play(Journaled(Evidenced(Staged(Checked(p, remaining, reserve), stage)), c, step, Unlinked), c, rest)
  {
    hide WithTraces;
    hide Play;
    var tail := [Evidence] + ([Note(step, Unlinked)] + rest);
    assert [Check(remaining, reserve), RunStage(stage), Evidence, Note(step, Unlinked)] + rest
           == [Check(remaining, reserve)] + ([RunStage(stage)] + tail);
    PlayStep(p, c, Check(remaining, reserve), [RunStage(stage)] + tail);
    var p1 := Checked(p, remaining, reserve);
    PlayStep(p1, c, RunStage(stage), tail);
    var p2 := Staged(p1, stage);
    PlayStep(p2, c, Evidence, [Note(step, Unlinked)] + rest);
    PlayStep(Evidenced(p2), c, Note(step, Unlinked), rest);
  }

  lemma DebatingPlays(p: Progress, c: Cycle)
    ensures Play(p, c, Debating(c)) == DebatePhase(p, c)
  {
    hide Play;
    hide Do;
    hide Staged;
    hide Journaled;
    if c.debateHeld {
      CheckpointPlays(p, c, c.clock.debate, FORUM_RESERVE, c.debate, DebateValidated, []);
      assert Debating(c) + [] == Debating(c);
      PlayNothing(DebatePhase(p, c), c);
    } else {
      PlayOne(p, c, Note(DebateSkipped, Unlinked));
      NotePlays(p, c, DebateSkipped);
    }
  }

  lemma NotePlays(p: Progress, c: Cycle, step: Step)
    ensures Do(p, c, Note(step, Unlinked)) == Journaled(p, c, step, Unlinked)
    ensures p.Halted? ==> Journaled(p, c, step, Unlinked) == p
  {
  }

  lemma ProposingPlays(p: Progress, c: Cycle)
    ensures Play(p, c, Proposing(c)) == ProposalPhase(ForumPhase(p, c), c)
  {
    hide Play;
    hide WithTraces;
    var check, stage, note := Check(c.clock.proposer, PROPOSER_RESERVE), RunStage(c.proposer), Note(ProposalValidated, Unlinked);
    CheckpointPlays(p, c, c.clock.forum, FORUM_RESERVE, c.forum, IcValidated, [check] + ([stage] + ([note] + [])));
    assert Proposing(c)
           == [Check(c.clock.forum, FORUM_RESERVE), RunStage(c.forum), Evidence, Note(IcValidated, Unlinked)]
              + ([check] + ([stage] + ([note] + [])));
    var f := ForumPhase(p, c);
    PlayStep(f, c, check, [stage] + ([note] + []));
    PlayStep(Do(f, c, check), c, stage, [note] + []);
    PlayStep(Do(Do(f, c, check), c, stage), c, note, []);
    PlayNothing(ProposalPhase(f, c), c);
  }

  lemma AdvisingPlays(desk: Desk, c: Cycle)
    ensures Play(Deliberation(desk, c), c, Advising(c)) == Prepared(desk, c)
  {
    hide Play;
    hide WithTraces;
    hide Deliberation;
    hide Sizing;
    var p := Deliberation(desk, c);
    if !Trades(c) {
      PlayNothing(p, c);
    } else if Sizing(c).Err? {
      PlayOne(p, c, GiveUp(SizingFailed(Sizing(c).error)));
    } else {
      var check, stage := Check(c.clock.assessor, RISK_RESERVE), RunStage(c.assessor);
      assert Advising(c) == [check] + ([stage] + ([Evidence] + []));
      PlayStep(p, c, check, [stage] + ([Evidence] + []));
      PlayStep(Do(p, c, check), c, stage, [Evidence] + []);
      PlayStep(Do(Do(p, c, check), c, stage), c, Evidence, []);
      PlayNothing(Evidenced(Do(Do(p, c, check), c, stage)), c);
    }
  }

  lemma PreparingPlays(desk: Desk, c: Cycle)
    ensures Play(Going(desk, []), c, Preparing(c)) == Prepared(desk, c)
  {
    hide *;
    UnfoldPreparing(c);
    var start := Going(desk, []);
    PlayAdds(start, c, Opening(c) + Debating(c) + Proposing(c), Advising(c));
    PlayAdds(start, c, Opening(c) + Debating(c), Proposing(c));
    PlayAdds(start, c, Opening(c), Debating(c));
    OpeningPlays(start, c);
    DebatingPlays(AnalystPhase(start, c), c);
    ProposingPlays(DebatePhase(AnalystPhase(start, c), c), c);
    UnfoldDeliberation(desk, c);
    AdvisingPlays(desk, c);
  }

  lemma UnfoldPreparing(c: Cycle)
    ensures Preparing(c) == Opening(c) + Debating(c) + Proposing(c) + Advising(c)
    ensures Plan(c) == Preparing(c) + Concluding(c)
  {
  }

  lemma UnfoldDeliberation(desk: Desk, c: Cycle)
    ensures Deliberation(desk, c) == ProposalPhase(ForumPhase(DebatePhase(AnalystPhase(Going(desk, []), c), c), c), c)
  {
  }

  lemma ConcludingPlays(p: Progress, c: Cycle)
    requires Unsized(c) ==> p.Halted?
    ensures EndAs(Play(p, c, Concluding(c)), ResultOf(c)) == Closing(LineageWritten(p, c, RecordOf(c)), c)
  {
    hide Play;
    hide RecordOf;
    hide CommandOf;
    hide LastStep;
    hide ResultOf;
    hide Committed;
    hide Sizing;
    var note := Note(LastStep(c), Linked(c.id));
    var row := WriteRow(RecordOf(c));
    if Unsized(c) {
      PlayNothing(p, c);
    } else if RecordOf(c).verdict == Approved {
      var hand := Hand(CommandOf(c));
      assert Concluding(c) == [row] + ([Build] + ([hand] + ([note] + [])));
      PlayStep(p, c, row, [Build] + ([hand] + ([note] + [])));
      var p1 := Do(p, c, row);
      PlayStep(p1, c, Build, [hand] + ([note] + []));
      PlayStep(Built(p1, c), c, hand, [note] + []);
      PlayStep(Handing(Built(p1, c), c, CommandOf(c)), c, note, []);
      PlayNothing(Do(Handing(Built(p1, c), c, CommandOf(c)), c, note), c);
    } else {
      assert Concluding(c) == [row] + ([note] + []);
      PlayStep(p, c, row, [note] + []);
      PlayStep(Do(p, c, row), c, note, []);
      PlayNothing(Do(Do(p, c, row), c, note), c);
    }
  }

  lemma UnsizedHalts(desk: Desk, c: Cycle)
    requires Unsized(c)
    ensures Prepared(desk, c).Halted?
  {
    hide Deliberation;
    hide Sizing;
  }

  /** Played without a pause, the plan is the cycle. */
  lemma PlanIsCycle(desk: Desk, c: Cycle)
    ensures After(desk, c) == EndAs(Play(Going(desk, []), c, Plan(c)), ResultOf(c))
  {
    hide *;
    UnfoldPreparing(c);
    PlayAdds(Going(desk, []), c, Preparing(c), Concluding(c));
    PreparingPlays(desk, c);
    if Unsized(c) { UnsizedHalts(desk, c); }
    ConcludingPlays(Prepared(desk, c), c);
    AfterShape(desk, c);
  }

  // --------------------------------------------------------------- interleaving

  /** A cycle under way: how far its plan is done, and whether it has raised. */
  datatype Proc = Proc(cycle: Cycle, at: nat, ids: seq<TraceId>, failed: bool)

  datatype State = State(desk: Desk, procs: map<nat, Proc>)

  datatype Move = Begin(proc: nat, cycle: Cycle) | Advance(proc: nat)

  predicate Enabled(s: State, move: Move)
  {
    match move
    case Begin(n, _) => n !in s.procs
    case Advance(n) => n in s.procs && !s.procs[n].failed && s.procs[n].at < |Plan(s.procs[n].cycle)|
  }

  function Stepped(desk: Desk, p: Proc): Progress
    requires p.at < |Plan(p.cycle)|
  {
    Do(Going(desk, p.ids), p.cycle, Plan(p.cycle)[p.at])
  }

  function Moved(p: Proc, q: Progress): Proc
  {
    match q
    case Going(_, ids) => Proc(p.cycle, p.at + 1, ids, false)
    case Halted(_, _) => Proc(p.cycle, p.at + 1, p.ids, true)
  }

  function Apply(s: State, move: Move): State
    requires Enabled(s, move)
  {
    match move
    case Begin(n, c) => s.(procs := s.procs[n := Proc(c, 0, [], false)])
    case Advance(n) =>
      var q := Stepped(s.desk, s.procs[n]);
      State(q.desk, s.procs[n := Moved(s.procs[n], q)])
  }

  ghost predicate Run(from: State, moves: seq<Move>, to: State)
    decreases |moves|
  {
    if moves == [] then from == to else Enabled(from, moves[0]) && Run(Apply(from, moves[0]), moves[1..], to)
  }

  /** A cycle that nobody disturbs ends as the cycle does, whatever else is under way. */
  lemma UndisturbedCycle(s: State, n: nat, c: Cycle) returns (moves: seq<Move>, to: State)
    requires n !in s.procs
    ensures Run(s, moves, to) && to.desk == After(s.desk, c).desk
    ensures n in to.procs && (to.procs[n].failed <==> After(s.desk, c).result.Raised?)
  {
    hide After;
    hide Plan;
    hide ResultOf;
    var begun := Apply(s, Begin(n, c));
    PlanIsCycle(s.desk, c);
    ResultIsReturned(c);
    assert Plan(c)[0..] == Plan(c);
    moves, to := RestOfPlan(begun, n);
    assert ([Begin(n, c)] + moves)[1..] == moves;
    moves := [Begin(n, c)] + moves;
  }

  lemma {:induction false} RestOfPlan(s: State, n: nat) returns (moves: seq<Move>, to: State)
    requires n in s.procs && !s.procs[n].failed && s.procs[n].at <= |Plan(s.procs[n].cycle)|
    ensures
      var p := s.procs[n];
      var q := Play(Going(s.desk, p.ids), p.cycle, Plan(p.cycle)[p.at..]);
      && Run(s, moves, to) && to.desk == q.desk
      && n in to.procs && (to.procs[n].failed <==> q.Halted?)
    decreases |Plan(s.procs[n].cycle)| - s.procs[n].at
  {
    hide Plan;
    hide Do;
    var p := s.procs[n];
    var todos := Plan(p.cycle)[p.at..];
    if p.at == |Plan(p.cycle)| {
      moves, to := [], s;
    } else {
      var next := Apply(s, Advance(n));
      assert todos[0] == Plan(p.cycle)[p.at] && todos[1..] == Plan(p.cycle)[p.at + 1..];
      if next.procs[n].failed {
        moves, to := [], next;
      } else {
        moves, to := RestOfPlan(next, n);
      }
      assert ([Advance(n)] + moves)[1..] == moves;
      moves := [Advance(n)] + moves;
    }
  }

  // ------------------------------------------------------ what every run keeps

  /** Where in its plan a cycle writes its row; two further on it hands over its command. */
  function RowAt(c: Cycle): nat
  {
    |Preparing(c)|
  }

  predicate IsQuiet(todo: Todo)
  {
    !todo.WriteRow? && !todo.Hand? && (todo.Note? ==> todo.link == Unlinked)
  }

  lemma PreparingIsQuiet(c: Cycle, i: nat)
    requires i < |Preparing(c)|
    ensures IsQuiet(Preparing(c)[i])
  {
    hide Sizing;
  }

  /** The row and the command have their places in the plan, and no others. */
  lemma PlanShape(c: Cycle, i: nat)
    requires i < |Plan(c)|
    ensures
      var todo, row := Plan(c)[i], RowAt(c);
      && (i < row ==> IsQuiet(todo))
      && (i >= row ==> !Unsized(c))
      && (i == row ==> todo == WriteRow(RecordOf(c)))
      && (todo.WriteRow? ==> i == row)
      && (todo.Hand? ==> i == row + 2 && todo == Hand(CommandOf(c)) && RecordOf(c).verdict == Approved)
      && (todo.Note? && i > row ==> todo.link == Linked(c.id))
      && (i == row + 2 ==> todo.Hand?)
  {
    hide Preparing;
    hide RecordOf;
    hide CommandOf;
    hide LastStep;
    hide Unsized;
    if i < RowAt(c) { PreparingIsQuiet(c, i); }
  }

  ghost predicate IsRow(log: seq<Event>, i: nat, record: Record)
  {
    i < |log| && log[i] == RowCommitted(record)
  }

  ghost predicate HasRow(log: seq<Event>, record: Record)
  {
    exists i: nat :: IsRow(log, i, record)
  }

  predicate Matches(record: Record, command: Command)
  {
    && record.id == command.order && record.verdict == Approved
    && record.violations == [] && record.veto == VetoEntry(false)
    && record.action == command.action && record.size == StoredSize(ToFourPlaces(command.volume))
  }

  /** An approved row of the same decision stands somewhere before the command. */
  ghost predicate Backed(log: seq<Event>, i: nat)
    requires i < |log| && log[i].Handed?
  {
    exists j :: 0 <= j < i && log[j].RowCommitted? && Matches(log[j].record, log[i].command)
  }

  ghost predicate HandedFor(log: seq<Event>, id: LineageId)
  {
    exists i :: 0 <= i < |log| && log[i].Handed? && log[i].command.order == id
  }

  /** The log tells the truth about the table, no row is logged twice, every command is backed, none handed twice. */
  ghost predicate TrueLog(desk: Desk)
  {
    && (forall i :: 0 <= i < |desk.log| && desk.log[i].RowCommitted? ==>
          desk.log[i].record.id in desk.lineage && desk.lineage[desk.log[i].record.id] == desk.log[i].record)
    && (forall i :: 0 <= i < |desk.log| && desk.log[i].Handed? ==> Backed(desk.log, i))
    && (forall i, j :: 0 <= i < j < |desk.log| && desk.log[i].Handed? && desk.log[j].Handed? ==>
          desk.log[i].command.order != desk.log[j].command.order)
  }

  /** A cycle that is past its row and has not raised. */
  predicate IsPast(p: Proc)
  {
    !p.failed && p.at > RowAt(p.cycle)
  }

  /** What such a cycle owns: its row, and until it hands over, the right to its command. */
  ghost predicate Owns(desk: Desk, p: Proc)
  {
    && HasRow(desk.log, RecordOf(p.cycle))
    && (p.at <= RowAt(p.cycle) + 2 ==> !HandedFor(desk.log, p.cycle.id))
  }

  ghost predicate Safe(s: State)
  {
    && TrueLog(s.desk)
    && (forall n :: n in s.procs && IsPast(s.procs[n]) ==> Owns(s.desk, s.procs[n]))
    && (forall n, m :: n in s.procs && m in s.procs && n != m && IsPast(s.procs[n]) && IsPast(s.procs[m]) ==>
          s.procs[n].cycle.id != s.procs[m].cycle.id)
  }

  lemma QuietKeepsLog(p: Progress, c: Cycle, todo: Todo)
    requires p.Going? && !todo.WriteRow? && !todo.Hand?
    ensures Do(p, c, todo).desk.log == p.desk.log && Do(p, c, todo).desk.lineage == p.desk.lineage
  {
  }

  /** A row goes into the log exactly when it goes into the table, and only under a new id. */
  lemma RowIsLogged(p: Progress, c: Cycle, record: Record)
    requires p.Going? && record.id == c.id
    ensures
      var q := LineageWritten(p, c, record);
      || (q.desk.log == p.desk.log && q.desk.lineage == p.desk.lineage && q.Halted?)
      || (q.desk.log == p.desk.log + [RowCommitted(record)] && record.id !in p.desk.lineage
          && q.desk.lineage == p.desk.lineage[record.id := record])
  {
  }

  lemma HandIsLogged(p: Progress, c: Cycle, command: Command)
    requires p.Going?
    ensures Handing(p, c, command).desk.log == p.desk.log + [Handed(command)]
    ensures Handing(p, c, command).desk.lineage == p.desk.lineage
  {
  }

  lemma BackedStays(log: seq<Event>, more: Event, i: nat)
    requires i < |log| && log[i].Handed? && Backed(log, i)
    ensures Backed(log + [more], i)
  {
    var j :| 0 <= j < i && log[j].RowCommitted? && Matches(log[j].record, log[i].command);
    assert (log + [more])[j] == log[j];
  }

  lemma RowStays(log: seq<Event>, more: Event, record: Record)
    requires HasRow(log, record)
    ensures HasRow(log + [more], record)
  {
    var i: nat :| IsRow(log, i, record);
    assert IsRow(log + [more], i, record);
  }

  lemma HandedGrows(log: seq<Event>, more: Event, id: LineageId)
    ensures HandedFor(log + [more], id) <==> HandedFor(log, id) || (more.Handed? && more.command.order == id)
  {
    var all := log + [more];
    assert all[|log|] == more;
    if HandedFor(log, id) {
      var i :| 0 <= i < |log| && log[i].Handed? && log[i].command.order == id;
      assert all[i] == log[i];
    }
  }

  /** A handed command names a row of the table. */
  lemma HandedIsKnown(desk: Desk, id: LineageId)
    requires TrueLog(desk) && HandedFor(desk.log, id)
    ensures id in desk.lineage
  {
    var i :| 0 <= i < |desk.log| && desk.log[i].Handed? && desk.log[i].command.order == id;
    assert Backed(desk.log, i);
    var j :| 0 <= j < i && desk.log[j].RowCommitted? && Matches(desk.log[j].record, desk.log[i].command);
  }

  lemma OwnedIsKnown(desk: Desk, p: Proc)
    requires TrueLog(desk) && Owns(desk, p)
    ensures p.cycle.id in desk.lineage
  {
    hide RecordOf;
    RecordNamesCycle(p.cycle);
    var i: nat :| IsRow(desk.log, i, RecordOf(p.cycle));
  }

  lemma RowKeepsTruth(desk: Desk, record: Record, next: Desk)
    requires TrueLog(desk) && record.id !in desk.lineage
    requires next.log == desk.log + [RowCommitted(record)] && next.lineage == desk.lineage[record.id := record]
    ensures TrueLog(next)
  {
    hide Backed;
    forall i | 0 <= i < |next.log| && next.log[i].Handed? ensures Backed(next.log, i) {
      BackedStays(desk.log, RowCommitted(record), i);
    }
  }

  lemma HandKeepsTruth(desk: Desk, record: Record, command: Command, next: Desk)
    requires TrueLog(desk) && HasRow(desk.log, record) && Matches(record, command) && !HandedFor(desk.log, command.order)
    requires next.log == desk.log + [Handed(command)] && next.lineage == desk.lineage
    ensures TrueLog(next)
  {
    var k: nat :| IsRow(desk.log, k, record);
    assert next.log[k] == RowCommitted(record);
    forall i | 0 <= i < |next.log| && next.log[i].Handed? ensures Backed(next.log, i) {
      if i < |desk.log| { BackedStays(desk.log, Handed(command), i); }
    }
  }

  lemma CommandMatches(c: Cycle)
    requires RecordOf(c).verdict == Approved
    ensures Matches(RecordOf(c), CommandOf(c)) && CommandOf(c).order == c.id
  {
    hide RecordOf;
    CommandMatchesRecord(c);
    hide Sizing;
  }

  /** What an advance does to the log, by the kind of transaction. */
  lemma AdvanceKinds(desk: Desk, p: Proc)
    requires p.at < |Plan(p.cycle)|
    ensures
      var q, c := Stepped(desk, p), p.cycle;
      || (q.desk.log == desk.log && q.desk.lineage == desk.lineage
          && (p.at == RowAt(c) ==> q.Halted?) && (p.at == RowAt(c) + 2 ==> false))
      || (p.at == RowAt(c) && c.id !in desk.lineage && q.desk.log == desk.log + [RowCommitted(RecordOf(c))]
          && q.desk.lineage == desk.lineage[c.id := RecordOf(c)])
      || (p.at == RowAt(c) + 2 && RecordOf(c).verdict == Approved
          && q.desk.log == desk.log + [Handed(CommandOf(c))] && q.desk.lineage == desk.lineage)
  {
    PlanShape(p.cycle, p.at);
    RecordNamesCycle(p.cycle);
    var todo, start := Plan(p.cycle)[p.at], Going(desk, p.ids);
    hide Plan;
    hide RowAt;
    hide RecordOf;
    hide CommandOf;
    if todo.WriteRow? {
      RowIsLogged(start, p.cycle, RecordOf(p.cycle));
    } else if todo.Hand? {
      HandIsLogged(start, p.cycle, CommandOf(p.cycle));
    } else {
      QuietKeepsLog(start, p.cycle, todo);
    }
    hide LineageWritten;
    hide Handing;
  }

  lemma QuietAdvance(s: State, n: nat)
    requires Safe(s) && Enabled(s, Advance(n))
    requires
      var p, q := s.procs[n], Stepped(s.desk, s.procs[n]);
      && q.desk.log == s.desk.log && q.desk.lineage == s.desk.lineage
      && (p.at == RowAt(p.cycle) ==> q.Halted?) && p.at != RowAt(p.cycle) + 2
    ensures Safe(Apply(s, Advance(n)))
  {
    hide Stepped;
    hide RecordOf;
    hide Backed;
    hide RowAt;
    hide Plan;
    hide HandedFor;
    hide HasRow;
    var next := Apply(s, Advance(n));
    forall m | m in next.procs && IsPast(next.procs[m])
      ensures Owns(next.desk, next.procs[m]) && m in s.procs && IsPast(s.procs[m]) && s.procs[m].cycle == next.procs[m].cycle
    {
      assert m == n ==> s.procs[n].at != RowAt(s.procs[n].cycle);
      assert IsPast(s.procs[m]);
      assert Owns(s.desk, s.procs[m]);
    }
  }

  lemma RowAdvance(s: State, n: nat)
    requires Safe(s) && Enabled(s, Advance(n))
    requires
      var c, q := s.procs[n].cycle, Stepped(s.desk, s.procs[n]);
      && s.procs[n].at == RowAt(c) && c.id !in s.desk.lineage
      && q.desk.log == s.desk.log + [RowCommitted(RecordOf(c))] && q.desk.lineage == s.desk.lineage[c.id := RecordOf(c)]
    ensures Safe(Apply(s, Advance(n)))
  {
    hide Stepped;
    hide RowAt;
    hide Plan;
    var c, next := s.procs[n].cycle, Apply(s, Advance(n));
    var event := RowCommitted(RecordOf(c));
    RecordNamesCycle(c);
    hide RecordOf;
    RowKeepsTruth(s.desk, RecordOf(c), next.desk);
    hide TrueLog;
    forall m | m in next.procs && IsPast(next.procs[m])
      ensures Owns(next.desk, next.procs[m]) && (m != n ==> next.procs[m].cycle.id != c.id)
    {
      var d := next.procs[m].cycle;
      HandedGrows(s.desk.log, event, d.id);
      if m != n {
        OwnedIsKnown(s.desk, s.procs[m]);
        RowStays(s.desk.log, event, RecordOf(d));
      } else {
        assert IsRow(next.desk.log, |s.desk.log|, RecordOf(c));
        if HandedFor(s.desk.log, c.id) { HandedIsKnown(s.desk, c.id); }
      }
    }
    hide Owns;
  }

  lemma HandAdvance(s: State, n: nat)
    requires Safe(s) && Enabled(s, Advance(n))
    requires
      var c, q := s.procs[n].cycle, Stepped(s.desk, s.procs[n]);
      && s.procs[n].at == RowAt(c) + 2 && RecordOf(c).verdict == Approved
      && q.desk.log == s.desk.log + [Handed(CommandOf(c))] && q.desk.lineage == s.desk.lineage
    ensures Safe(Apply(s, Advance(n)))
  {
    hide Stepped;
    hide RowAt;
    hide Plan;
    hide HandedFor;
    hide HasRow;
    var c, next := s.procs[n].cycle, Apply(s, Advance(n));
    var event := Handed(CommandOf(c));
    CommandMatches(c);
    hide RecordOf;
    hide CommandOf;
    hide Matches;
    assert IsPast(s.procs[n]);
    HandKeepsTruth(s.desk, RecordOf(c), CommandOf(c), next.desk);
    hide TrueLog;
    forall m | m in next.procs && IsPast(next.procs[m])
      ensures Owns(next.desk, next.procs[m]) && m in s.procs && IsPast(s.procs[m]) && s.procs[m].cycle == next.procs[m].cycle
    {
      var d := next.procs[m].cycle;
      HandedGrows(s.desk.log, event, d.id);
      RowStays(s.desk.log, event, RecordOf(d));
    }
  }

  lemma MoveKeepsSafe(s: State, move: Move)
    requires Safe(s) && Enabled(s, move)
    ensures Safe(Apply(s, move))
  {
    hide Safe;
    hide Apply;
    hide RowAt;
    hide RecordOf;
    hide CommandOf;
    hide Stepped;
    hide Plan;
    match move
    case Begin(n, c) => BeginKeepsSafe(s, n, c);
    case Advance(n) =>
      AdvanceKinds(s.desk, s.procs[n]);
      var p, q := s.procs[n], Stepped(s.desk, s.procs[n]);
      if p.at == RowAt(p.cycle) && q.desk.lineage != s.desk.lineage {
        RowAdvance(s, n);
      } else if q.desk.log != s.desk.log && p.at == RowAt(p.cycle) + 2 {
        HandAdvance(s, n);
      } else {
        SameTableSameLog(s.desk, p);
        QuietAdvance(s, n);
      }
  }

  lemma SameTableSameLog(desk: Desk, p: Proc)
    requires p.at < |Plan(p.cycle)|
    requires var q := Stepped(desk, p);
      !(p.at == RowAt(p.cycle) && q.desk.lineage != desk.lineage) && !(q.desk.log != desk.log && p.at == RowAt(p.cycle) + 2)
    ensures var q := Stepped(desk, p);
      && q.desk.log == desk.log && q.desk.lineage == desk.lineage
      && (p.at == RowAt(p.cycle) ==> q.Halted?) && p.at != RowAt(p.cycle) + 2
  {
    hide RowAt;
    hide RecordOf;
    hide CommandOf;
    hide Stepped;
    hide Plan;
    AdvanceKinds(desk, p);
    assert |desk.log + [Handed(CommandOf(p.cycle))]| == |desk.log| + 1;
    assert p.cycle.id !in desk.lineage ==> p.cycle.id in desk.lineage[p.cycle.id := RecordOf(p.cycle)];
  }

  lemma BeginKeepsSafe(s: State, n: nat, c: Cycle)
    requires Safe(s) && Enabled(s, Begin(n, c))
    ensures Safe(Apply(s, Begin(n, c)))
  {
    hide TrueLog;
    hide Owns;
  }

  lemma {:induction false} RunsStaySafe(from: State, moves: seq<Move>, to: State)
    requires Run(from, moves, to) && Safe(from)
    ensures Safe(to)
    decreases |moves|
  {
    hide Safe;
    hide Apply;
    hide Enabled;
    if moves != [] {
      MoveKeepsSafe(from, moves[0]);
      RunsStaySafe(Apply(from, moves[0]), moves[1..], to);
    }
  }

  /** A database with a truthful log and no cycle under way. */
  ghost predicate IsStart(s: State)
  {
    TrueLog(s.desk) && s.procs == map[]
  }

  /**
   However cycles interleave, every command has an approved row of its own decision
   committed somewhere before it, and no lineage sees two commands, even if several
   cycles drew one id.
   */
  lemma WriteBeforeDispatch(from: State, moves: seq<Move>, to: State)
    requires IsStart(from) && Run(from, moves, to)
    ensures forall i :: 0 <= i < |to.desk.log| && to.desk.log[i].Handed? ==> Backed(to.desk.log, i)
    ensures forall i, j :: 0 <= i < j < |to.desk.log| && to.desk.log[i].Handed? && to.desk.log[j].Handed? ==>
              to.desk.log[i].command.order != to.desk.log[j].command.order
    ensures forall i :: 0 <= i < |to.desk.log| && to.desk.log[i].RowCommitted? ==>
              to.desk.log[i].record.id in to.desk.lineage && to.desk.lineage[to.desk.log[i].record.id] == to.desk.log[i].record
  {
    hide Run;
    RunsStaySafe(from, moves, to);
    hide Backed;
  }

  // --------------------------------------------------------- who sent a command

  /** A cycle under way, or over, whose plan hands over this command. */
  ghost predicate SentBy(s: State, n: nat, command: Command)
  {
    && n in s.procs && command == CommandOf(s.procs[n].cycle)
    && Trades(s.procs[n].cycle) && !s.procs[n].cycle.advice.veto
    && Fits(RiskInputs(s.procs[n].cycle, VolumeOf(s.procs[n].cycle)), RiskLimits(s.procs[n].cycle))
  }

  ghost predicate SentByAny(s: State, command: Command)
  {
    exists n :: SentBy(s, n, command)
  }

  lemma ApprovedFits(c: Cycle)
    requires RecordOf(c).verdict == Approved
    ensures Trades(c) && !c.advice.veto && Fits(RiskInputs(c, VolumeOf(c)), RiskLimits(c))
  {
    hide Fits;
    hide Sizing;
    hide ReasonsOf;
    hide VolumeOf;
    NoReasonsExactly(c);
  }

  lemma MoveKeepsSenders(s: State, move: Move, command: Command)
    requires Enabled(s, move) && SentByAny(s, command)
    ensures SentByAny(Apply(s, move), command)
  {
    hide CommandOf;
    hide VolumeOf;
    hide Fits;
    hide Stepped;
    hide Plan;
    var n :| SentBy(s, n, command);
    assert SentBy(Apply(s, move), n, command);
  }

  /** A move logs at most one command, and its sender is the cycle that moved. */
  lemma MoveLogsOwn(s: State, move: Move, i: nat)
    requires Enabled(s, move) && |s.desk.log| <= i < |Apply(s, move).desk.log| && Apply(s, move).desk.log[i].Handed?
    ensures SentByAny(Apply(s, move), Apply(s, move).desk.log[i].command)
  {
    hide CommandOf;
    hide VolumeOf;
    hide Fits;
    hide Plan;
    hide RowAt;
    hide RecordOf;
    var p := s.procs[move.proc];
    AdvanceKinds(s.desk, p);
    hide Stepped;
    ApprovedFits(p.cycle);
    assert SentBy(Apply(s, move), move.proc, CommandOf(p.cycle));
  }

  lemma MoveKeepsLog(s: State, move: Move)
    requires Enabled(s, move)
    ensures s.desk.log <= Apply(s, move).desk.log
  {
    hide CommandOf;
    hide Plan;
    hide RowAt;
    hide RecordOf;
    if move.Advance? { AdvanceKinds(s.desk, s.procs[move.proc]); }
    hide Stepped;
  }

  /** Every command handed over in a run comes from a cycle of the run whose trade fits every limit and was not vetoed. */
  lemma {:induction false} EveryCommandHasASender(from: State, moves: seq<Move>, to: State, i: nat)
    requires Run(from, moves, to) && i < |to.desk.log| && to.desk.log[i].Handed?
    requires i < |from.desk.log| ==> SentByAny(from, to.desk.log[i].command) && from.desk.log[i] == to.desk.log[i]
    ensures SentByAny(to, to.desk.log[i].command)
    decreases |moves|
  {
    hide SentByAny;
    hide Apply;
    hide Enabled;
    if moves != [] {
      var next := Apply(from, moves[0]);
      LogIsPrefix(next, moves[1..], to);
      MoveKeepsLog(from, moves[0]);
      if i < |next.desk.log| {
        assert next.desk.log[i] == to.desk.log[i];
        if i < |from.desk.log| { MoveKeepsSenders(from, moves[0], to.desk.log[i].command); }
        else { MoveLogsOwn(from, moves[0], i); }
      }
      EveryCommandHasASender(next, moves[1..], to, i);
    }
  }

  lemma {:induction false} LogIsPrefix(from: State, moves: seq<Move>, to: State)
    requires Run(from, moves, to)
    ensures from.desk.log <= to.desk.log
    decreases |moves|
  {
    hide Apply;
    hide Enabled;
    if moves != [] {
      MoveKeepsLog(from, moves[0]);
      LogIsPrefix(Apply(from, moves[0]), moves[1..], to);
    }
  }

  // ------------------------------------------------------------ links of a run

  lemma QuietLeavesNoDangling(p: Progress, c: Cycle, todo: Todo)
    requires p.Going? && NoDangling(p.desk) && !todo.WriteRow?
    requires todo.Note? && todo.link.Linked? ==> todo.link.id in p.desk.lineage
    ensures NoDangling(Do(p, c, todo).desk)
  {
  }

  lemma RowLeavesNoDangling(p: Progress, c: Cycle, record: Record)
    requires p.Going? && NoDangling(p.desk) && record.id == c.id
    ensures NoDangling(LineageWritten(p, c, record).desk)
  {
  }

  lemma MoveLeavesNoDangling(s: State, move: Move)
    requires Safe(s) && NoDangling(s.desk) && Enabled(s, move)
    ensures NoDangling(Apply(s, move).desk)
  {
    hide NoDangling;
    hide Plan;
    hide RowAt;
    hide RecordOf;
    hide CommandOf;
    hide Do;
    if move.Advance? {
      var p := s.procs[move.proc];
      PlanShape(p.cycle, p.at);
      RecordNamesCycle(p.cycle);
      var todo := Plan(p.cycle)[p.at];
      if todo.WriteRow? {
        RowLeavesNoDangling(Going(s.desk, p.ids), p.cycle, RecordOf(p.cycle));
        DoWriteRow(Going(s.desk, p.ids), p.cycle, RecordOf(p.cycle));
      } else {
        if IsPast(p) { OwnedIsKnown(s.desk, p); }
        QuietLeavesNoDangling(Going(s.desk, p.ids), p.cycle, todo);
      }
    }
  }

  lemma DoWriteRow(p: Progress, c: Cycle, record: Record)
    ensures Do(p, c, WriteRow(record)) == LineageWritten(p, c, record)
  {
  }

  /** However cycles interleave, no trace and no journal row names a lineage that does not exist. */
  lemma {:induction false} InterleavedRunsLeaveNoDangling(from: State, moves: seq<Move>, to: State)
    requires Run(from, moves, to) && Safe(from) && NoDangling(from.desk)
    ensures NoDangling(to.desk)
    decreases |moves|
  {
    hide Safe;
    hide NoDangling;
    hide Apply;
    hide Enabled;
    if moves != [] {
      MoveKeepsSafe(from, moves[0]);
      MoveLeavesNoDangling(from, moves[0]);
      InterleavedRunsLeaveNoDangling(Apply(from, moves[0]), moves[1..], to);
    }
  }
}
