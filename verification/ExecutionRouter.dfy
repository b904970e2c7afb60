/**
 Dispatch of broker commands (trade_core/execution_router.py). Concurrent calls
 pass a database marker and an expiring claim, send, wait, and persist fill, TCA
 record and marker in one transaction. Calls interleave between any two steps.
 */
module ExecutionRouter {

  type Lineage = string
  type Key = string

  datatype Status = Pending | Sent | Acknowledged | Filled | Partial | Rejected | Error | Timeout

  /** What the bridge answers; `complete` says that price and volume are both present. */
  datatype BridgeResult = BridgeResult(status: Status, complete: bool)

  datatype Fill = Fill(id: nat, lineage: Lineage)

  datatype Tca = Tca(fillId: nat)

  datatype Outcome =
    | Replayed(status: Status)
    | Duplicate
    | ClaimBroken
    | NotSent
    | NoAnswer
    | PersistFailed
    | Reported(status: Status)

  datatype Phase =
    | Started
    | Unmarked
    | Claimed
    | Waiting
    | Answered(result: BridgeResult)
    | RolledBack
    | Done(outcome: Outcome)

  /** One call of `dispatch`; the flags record what it has done so far. */
  datatype Call = Call(
    lineage: Lineage,
    key: Key,
    wantsTca: bool,
    phase: Phase,
    claimed: bool,
    sent: bool,
    failed: bool,
    released: bool)

  datatype State = State(
    markers: map<Lineage, Status>,
    fills: seq<Fill>,
    tcas: seq<Tca>,
    held: set<Key>,
    expiries: map<Key, nat>,
    calls: map<nat, Call>)

  const EMPTY := State(map[], [], [], {}, map[], map[])

  datatype Step =
    | Start(call: nat, lineage: Lineage, key: Key, wantsTca: bool)
    | CheckMarker(call: nat)
    | Claim(call: nat)
    | ClaimBreaks(call: nat, stored: bool)
    | Send(call: nat)
    | SendFails(call: nat)
    | BridgeTimesOut(call: nat)
    | Answer(call: nat, result: BridgeResult)
    | Commit(call: nat, fillId: nat, reportedLost: bool)
    | PersistenceFails(call: nat)
    | Release(call: nat, redisWorks: bool)
    | Expire(key: Key)

  function Expiries(s: State, k: Key): nat
  {
    if k in s.expiries then s.expiries[k] else 0
  }

  /** A fill and its TCA record belong to the transaction only for filled results with TCA metadata. */
  predicate RecordsFill(c: Call, r: BridgeResult)
  {
    c.wantsTca && (r.status.Filled? || r.status.Partial?)
  }

  /** The one transaction can go through: a new marker, a new fill id, a complete result. */
  predicate CanCommit(s: State, c: Call, r: BridgeResult, fillId: nat)
  {
    && c.lineage !in s.markers
    && (RecordsFill(c, r) ==> r.complete)
    && forall i :: 0 <= i < |s.fills| ==> s.fills[i].id != fillId
  }

  predicate Enabled(s: State, step: Step)
  {
    match step
    case Start(n, _, _, _) => n !in s.calls
    case Expire(k) => k in s.held
    case CheckMarker(n) => n in s.calls && s.calls[n].phase.Started?
    case Claim(n) => n in s.calls && s.calls[n].phase.Unmarked?
    case ClaimBreaks(n, _) => n in s.calls && s.calls[n].phase.Unmarked?
    case Send(n) => n in s.calls && s.calls[n].phase.Claimed?
    case SendFails(n) => n in s.calls && s.calls[n].phase.Claimed?
    case BridgeTimesOut(n) => n in s.calls && s.calls[n].phase.Waiting?
    case Answer(n, _) => n in s.calls && s.calls[n].phase.Waiting?
    case Commit(n, fillId, _) =>
      n in s.calls && s.calls[n].phase.Answered? && CanCommit(s, s.calls[n], s.calls[n].phase.result, fillId)
    case PersistenceFails(n) => n in s.calls && s.calls[n].phase.Answered?
    case Release(n, _) => n in s.calls && s.calls[n].phase.RolledBack?
  }

  function WithCall(s: State, n: nat, c: Call): State
  {
    s.(calls := s.calls[n := c])
  }

  /** The database after one committed dispatch of `c`. */
  function Persisted(s: State, c: Call, r: BridgeResult, fillId: nat): State
  {
    var marked := s.(markers := s.markers[c.lineage := r.status]);
    if RecordsFill(c, r) then
      marked.(fills := s.fills + [Fill(fillId, c.lineage)], tcas := s.tcas + [Tca(fillId)])
    else marked
  }

  /** What a step does to the call that takes it. */
  function NextCall(s: State, step: Step): Call
    requires Enabled(s, step) && !step.Expire?
  {
    match step
    case Start(_, lineage, key, tca) => Call(lineage, key, tca, Started, false, false, false, false)
    case CheckMarker(n) =>
      var c := s.calls[n];
      c.(phase := if c.lineage in s.markers then Done(Replayed(s.markers[c.lineage])) else Unmarked)
    case Claim(n) =>
      var c := s.calls[n];
      if c.key in s.held then c.(phase := Done(Duplicate)) else c.(phase := Claimed, claimed := true)
    case ClaimBreaks(n, stored) =>
      var c := s.calls[n];
      c.(phase := Done(ClaimBroken), claimed := stored && c.key !in s.held)
    case Send(n) => s.calls[n].(phase := Waiting, sent := true)
    case SendFails(n) => s.calls[n].(phase := Done(NotSent))
    case BridgeTimesOut(n) => s.calls[n].(phase := Done(NoAnswer))
    case Answer(n, result) => s.calls[n].(phase := Answered(result))
    case Commit(n, _, lost) =>
      var c := s.calls[n];
      if lost then c.(phase := RolledBack, failed := true) else c.(phase := Done(Reported(c.phase.result.status)))
    case PersistenceFails(n) => s.calls[n].(phase := RolledBack, failed := true)
    case Release(n, works) =>
      var c := s.calls[n];
      c.(phase := Done(PersistFailed), released := works && c.key in s.held)
  }

  /** What a step does to the database and the claims. */
  function Effects(s: State, step: Step): State
    requires Enabled(s, step) && !step.Expire?
  {
    match step
    case Claim(n) => s.(held := s.held + {s.calls[n].key})
    case ClaimBreaks(n, stored) => if stored then s.(held := s.held + {s.calls[n].key}) else s
    case Commit(n, fillId, _) => Persisted(s, s.calls[n], s.calls[n].phase.result, fillId)
    case Release(n, works) => if works then s.(held := s.held - {s.calls[n].key}) else s
    case _ => s
  }

  function Expired(s: State, k: Key): State
  {
    s.(held := s.held - {k}, expiries := s.expiries[k := Expiries(s, k) + 1])
  }

  function Apply(s: State, step: Step): State
    requires Enabled(s, step)
  {
    if step.Expire? then Expired(s, step.key) else WithCall(Effects(s, step), step.call, NextCall(s, step))
  }

  ghost predicate Run(from: State, steps: seq<Step>, to: State)
    decreases steps
  {
    if steps == [] then from == to
    else Enabled(from, steps[0]) && Run(Apply(from, steps[0]), steps[1..], to)
  }

  // -------------------------------------------------------- send accounting

  ghost function ClaimsOf(s: State, k: Key): set<nat>
  {
    set n | n in s.calls && s.calls[n].key == k && s.calls[n].claimed
  }

  ghost function SendsOf(s: State, k: Key): set<nat>
  {
    set n | n in s.calls && s.calls[n].key == k && s.calls[n].sent
  }

  ghost function FailuresOf(s: State, k: Key): set<nat>
  {
    set n | n in s.calls && s.calls[n].key == k && s.calls[n].failed
  }

  ghost function ReleasesOf(s: State, k: Key): set<nat>
  {
    set n | n in s.calls && s.calls[n].key == k && s.calls[n].released
  }

  /** The flags of a call agree with its phase. */
  ghost predicate CallOk(c: Call)
  {
    && (c.sent ==> c.claimed) && (c.failed ==> c.sent) && (c.released ==> c.failed)
    && (c.phase.Started? || c.phase.Unmarked? ==> !c.claimed)
    && (c.phase.Claimed? ==> c.claimed && !c.sent)
    && (c.phase.Waiting? || c.phase.Answered? ==> c.sent && !c.failed)
    && (c.phase.RolledBack? ==> c.failed && !c.released)
  }

  ghost predicate Balanced(s: State, k: Key)
  {
    |ClaimsOf(s, k)| == |ReleasesOf(s, k)| + Expiries(s, k) + (if k in s.held then 1 else 0)
  }

  ghost predicate CallsOk(s: State)
  {
    forall n :: n in s.calls ==> CallOk(s.calls[n])
  }

  /** Only these steps touch the claim of key `k`. */
  predicate MovesClaim(s: State, step: Step, k: Key)
    requires Enabled(s, step)
  {
    match step
    case Claim(n) => s.calls[n].key == k && k !in s.held
    case ClaimBreaks(n, stored) => s.calls[n].key == k && stored && k !in s.held
    case Release(n, works) => s.calls[n].key == k && works && k in s.held
    case Expire(e) => e == k
    case _ => false
  }

  lemma QuietStepKeepsBalance(s: State, step: Step, k: Key)
    requires CallsOk(s) && Enabled(s, step) && Balanced(s, k) && !MovesClaim(s, step, k)
    ensures Balanced(Apply(s, step), k)
  {
    var next := Apply(s, step);
    forall n
      ensures n in ClaimsOf(next, k) <==> n in ClaimsOf(s, k)
      ensures n in ReleasesOf(next, k) <==> n in ReleasesOf(s, k)
    {
      QuietStepKeepsFlags(s, step, k, n);
    }
    QuietStepKeepsClaim(s, step, k);
    hide Apply;
    assert ClaimsOf(next, k) == ClaimsOf(s, k);
    assert ReleasesOf(next, k) == ReleasesOf(s, k);
  }

  lemma QuietStepKeepsClaim(s: State, step: Step, k: Key)
    requires Enabled(s, step) && !MovesClaim(s, step, k)
    ensures k in Apply(s, step).held <==> k in s.held
    ensures Expiries(Apply(s, step), k) == Expiries(s, k)
  {
  }

  lemma EffectsKeepCalls(s: State, step: Step)
    requires Enabled(s, step) && !step.Expire?
    ensures Effects(s, step).calls == s.calls && Effects(s, step).expiries == s.expiries
    ensures !step.Commit? ==> Effects(s, step).markers == s.markers && Effects(s, step).fills == s.fills && Effects(s, step).tcas == s.tcas
  {
    hide CanCommit;
  }

  /** A step changes no call but its own. */
  lemma OtherCallsStay(s: State, step: Step, n: nat)
    requires Enabled(s, step) && (step.Expire? || step.call != n)
    ensures n in Apply(s, step).calls <==> n in s.calls
    ensures n in s.calls ==> Apply(s, step).calls[n] == s.calls[n]
  {
    if !step.Expire? { EffectsKeepCalls(s, step); }
    hide Effects;
    hide NextCall;
    hide Enabled;
  }

  lemma OwnFlagsStay(s: State, step: Step, k: Key)
    requires Enabled(s, step) && !step.Expire? && !MovesClaim(s, step, k)
    requires step.call in s.calls ==> CallOk(s.calls[step.call])
    ensures step.call in ClaimsOf(Apply(s, step), k) <==> step.call in ClaimsOf(s, k)
    ensures step.call in ReleasesOf(Apply(s, step), k) <==> step.call in ReleasesOf(s, k)
  {
  }

  lemma QuietStepKeepsFlags(s: State, step: Step, k: Key, n: nat)
    requires CallsOk(s) && Enabled(s, step) && !MovesClaim(s, step, k)
    ensures n in ClaimsOf(Apply(s, step), k) <==> n in ClaimsOf(s, k)
    ensures n in ReleasesOf(Apply(s, step), k) <==> n in ReleasesOf(s, k)
  {
    hide Apply;
    if !step.Expire? && step.call == n { OwnFlagsStay(s, step, k); } else { OtherCallsStay(s, step, n); }
  }

  lemma ClaimKeepsBalance(s: State, step: Step, k: Key)
    requires step.Claim? || step.ClaimBreaks?
    requires CallsOk(s) && Enabled(s, step) && Balanced(s, k) && MovesClaim(s, step, k)
    ensures Balanced(Apply(s, step), k)
  {
    var next := Apply(s, step);
    ClaimIsCounted(s, step, k);
    forall n
      ensures n in ClaimsOf(next, k) <==> n in ClaimsOf(s, k) || n == step.call
      ensures n in ReleasesOf(next, k) <==> n in ReleasesOf(s, k)
    {
      if n != step.call { OtherCallsStay(s, step, n); }
    }
    hide Apply;
    assert ClaimsOf(next, k) == ClaimsOf(s, k) + {step.call};
    assert ReleasesOf(next, k) == ReleasesOf(s, k);
  }

  lemma ClaimIsCounted(s: State, step: Step, k: Key)
    requires step.Claim? || step.ClaimBreaks?
    requires CallsOk(s) && Enabled(s, step) && MovesClaim(s, step, k)
    ensures var next := Apply(s, step);
      && k in next.held && Expiries(next, k) == Expiries(s, k)
      && step.call !in ClaimsOf(s, k) && step.call in ClaimsOf(next, k)
      && (step.call in ReleasesOf(next, k) <==> step.call in ReleasesOf(s, k))
  {
    assert CallOk(s.calls[step.call]);
  }

  lemma ReleaseKeepsBalance(s: State, n: nat, k: Key)
    requires CallsOk(s) && Enabled(s, Release(n, true)) && Balanced(s, k) && MovesClaim(s, Release(n, true), k)
    ensures Balanced(Apply(s, Release(n, true)), k)
  {
    var next := Apply(s, Release(n, true));
    assert CallOk(s.calls[n]);
    assert ClaimsOf(next, k) == ClaimsOf(s, k);
    assert ReleasesOf(next, k) == ReleasesOf(s, k) + {n};
  }

  lemma ExpiryKeepsBalance(s: State, k: Key)
    requires k in s.held && Balanced(s, k)
    ensures Balanced(Apply(s, Expire(k)), k)
  {
    var next := Apply(s, Expire(k));
    assert ClaimsOf(next, k) == ClaimsOf(s, k);
    assert ReleasesOf(next, k) == ReleasesOf(s, k);
  }

  lemma StepKeepsCalls(s: State, step: Step)
    requires CallsOk(s) && Enabled(s, step)
    ensures CallsOk(Apply(s, step))
  {
    hide Apply;
    hide CallOk;
    var next := Apply(s, step);
    forall n | n in next.calls ensures CallOk(next.calls[n]) {
      if !step.Expire? && step.call == n { StepKeepsOwnCall(s, step); } else { OtherCallsStay(s, step, n); }
    }
  }

  lemma StepKeepsOwnCall(s: State, step: Step)
    requires Enabled(s, step) && !step.Expire?
    requires step.call in s.calls ==> CallOk(s.calls[step.call])
    ensures step.call in Apply(s, step).calls && CallOk(Apply(s, step).calls[step.call])
  {
    hide Effects;
    hide CanCommit;
    if step.Claim? || step.ClaimBreaks? {
      assert !s.calls[step.call].sent;
    }
  }

  lemma StepKeepsBalance(s: State, step: Step, k: Key)
    requires CallsOk(s) && Enabled(s, step) && Balanced(s, k)
    ensures Balanced(Apply(s, step), k)
  {
    hide Apply;
    hide Balanced;
    if !MovesClaim(s, step, k) {
      QuietStepKeepsBalance(s, step, k);
    } else if step.Claim? || step.ClaimBreaks? {
      ClaimKeepsBalance(s, step, k);
    } else if step.Release? {
      ReleaseKeepsBalance(s, step.call, k);
    } else {
      ExpiryKeepsBalance(s, k);
    }
  }

  lemma {:induction false} RunKeepsBalance(from: State, steps: seq<Step>, to: State, k: Key)
    requires Run(from, steps, to) && CallsOk(from) && Balanced(from, k)
    ensures CallsOk(to) && Balanced(to, k)
    decreases steps
  {
    if steps != [] {
      hide Apply;
      hide Balanced;
      hide CallsOk;
      StepKeepsCalls(from, steps[0]);
      StepKeepsBalance(from, steps[0], k);
      RunKeepsBalance(Apply(from, steps[0]), steps[1..], to, k);
    }
  }

  lemma Smaller(a: set<nat>, b: set<nat>)
    requires a <= b
    ensures |a| <= |b|
  {
    if a != b {
      assert b == a + (b - a);
    }
  }

  /**
   In every reachable state the successful claims of a key are its effective
   releases, plus its expiries, plus one while the key is held. Sends never exceed
   claims and releases never exceed failed persistences, so every send beyond the
   first is paid for by a failed persistence or an expiry, and a bridge timeout
   pays for none.
   */
  lemma SendAccounting(steps: seq<Step>, s: State, k: Key)
    requires Run(EMPTY, steps, s)
    ensures |ClaimsOf(s, k)| == |ReleasesOf(s, k)| + Expiries(s, k) + (if k in s.held then 1 else 0)
    ensures |SendsOf(s, k)| <= |ClaimsOf(s, k)| && |ReleasesOf(s, k)| <= |FailuresOf(s, k)|
    ensures |SendsOf(s, k)| <= |FailuresOf(s, k)| + Expiries(s, k) + (if k in s.held then 1 else 0)
    ensures |FailuresOf(s, k)| + Expiries(s, k) == 0 && |SendsOf(s, k)| == 1 ==> k in s.held
  {
    assert ClaimsOf(EMPTY, k) == {} && ReleasesOf(EMPTY, k) == {};
    RunKeepsBalance(EMPTY, steps, s, k);
    assert SendsOf(s, k) <= ClaimsOf(s, k) && ReleasesOf(s, k) <= FailuresOf(s, k) by {
      forall n | n in s.calls ensures CallOk(s.calls[n]) {}
    }
    Smaller(SendsOf(s, k), ClaimsOf(s, k));
    Smaller(ReleasesOf(s, k), FailuresOf(s, k));
  }

  // --------------------------------------------------- one outcome per decision

  ghost predicate LedgerOk(s: State)
  {
    && |s.tcas| == |s.fills|
    && (forall i :: 0 <= i < |s.fills| ==>
          && s.tcas[i].fillId == s.fills[i].id
          && s.fills[i].lineage in s.markers
          && s.markers[s.fills[i].lineage] in {Filled, Partial})
    && (forall i, j :: 0 <= i < j < |s.fills| ==>
          s.fills[i].id != s.fills[j].id && s.fills[i].lineage != s.fills[j].lineage)
  }

  lemma StepKeepsLedger(s: State, step: Step)
    requires LedgerOk(s) && Enabled(s, step)
    ensures LedgerOk(Apply(s, step))
  {
    if step.Commit? {
      PersistedKeepsLedger(s, s.calls[step.call], s.calls[step.call].phase.result, step.fillId);
    } else {
      OnlyCommitsRecord(s, step);
    }
  }

  lemma OnlyCommitsRecord(s: State, step: Step)
    requires Enabled(s, step) && !step.Commit?
    ensures var next := Apply(s, step); next.markers == s.markers && next.fills == s.fills && next.tcas == s.tcas
  {
    if !step.Expire? { EffectsKeepCalls(s, step); }
    hide Effects;
    hide NextCall;
    hide Enabled;
  }

  lemma PersistedKeepsLedger(s: State, c: Call, r: BridgeResult, fillId: nat)
    requires LedgerOk(s) && CanCommit(s, c, r, fillId)
    ensures LedgerOk(Persisted(s, c, r, fillId))
  {
  }

  lemma StepKeepsMarker(s: State, step: Step, l: Lineage)
    requires Enabled(s, step) && l in s.markers
    ensures l in Apply(s, step).markers && Apply(s, step).markers[l] == s.markers[l]
  {
    if !step.Commit? { OnlyCommitsRecord(s, step); }
  }

  lemma {:induction false} RunKeepsLedger(from: State, steps: seq<Step>, to: State)
    requires Run(from, steps, to) && LedgerOk(from)
    ensures LedgerOk(to)
    decreases steps
  {
    if steps != [] {
      StepKeepsLedger(from, steps[0]);
      hide Apply;
      hide LedgerOk;
      RunKeepsLedger(Apply(from, steps[0]), steps[1..], to);
    }
  }

  /**
   In every reachable state of concurrent dispatches a lineage has at most one fill,
   every fill has its marker with a filled status, and exactly one TCA record.
   */
  lemma OneOutcomePerDecision(steps: seq<Step>, s: State)
    requires Run(EMPTY, steps, s)
    ensures forall i, j :: 0 <= i < |s.fills| && 0 <= j < |s.fills| && s.fills[i].lineage == s.fills[j].lineage ==> i == j
    ensures forall i :: 0 <= i < |s.fills| ==>
              s.fills[i].lineage in s.markers && s.markers[s.fills[i].lineage] in {Filled, Partial}
    ensures |s.tcas| == |s.fills|
    ensures forall i, j :: 0 <= i < |s.fills| && 0 <= j < |s.tcas| ==> (s.tcas[j].fillId == s.fills[i].id <==> i == j)
  {
    RunKeepsLedger(EMPTY, steps, s);
  }

  // ------------------------------------------------------- which answers are fills

  ghost predicate HasFill(s: State, l: Lineage)
  {
    exists i :: 0 <= i < |s.fills| && s.fills[i].lineage == l
  }

  /** A call that reported a status recorded it, with a fill exactly for filled and partial answers with TCA metadata. */
  ghost predicate ReportsTruly(s: State, c: Call)
  {
    c.phase.Done? && c.phase.outcome.Reported? ==>
      && c.lineage in s.markers && s.markers[c.lineage] == c.phase.outcome.status
      && (HasFill(s, c.lineage)
          <==> c.wantsTca && (c.phase.outcome.status == Filled || c.phase.outcome.status == Partial))
  }

  ghost predicate AllReportTruly(s: State)
  {
    forall n :: n in s.calls ==> ReportsTruly(s, s.calls[n])
  }

  lemma FillIsMarked(s: State, l: Lineage)
    requires LedgerOk(s)
    ensures HasFill(s, l) ==> l in s.markers
  {
  }

  lemma CommitReportsTruly(s: State, c: Call, r: BridgeResult, fillId: nat)
    requires LedgerOk(s) && CanCommit(s, c, r, fillId)
    ensures ReportsTruly(Persisted(s, c, r, fillId), c.(phase := Done(Reported(r.status))))
  {
    var next := Persisted(s, c, r, fillId);
    FillIsMarked(s, c.lineage);
    assert forall i :: 0 <= i < |s.fills| ==> next.fills[i] == s.fills[i];
    if RecordsFill(c, r) { assert next.fills[|s.fills|].lineage == c.lineage; }
  }

  lemma CommitKeepsReports(s: State, c: Call, r: BridgeResult, fillId: nat, d: Call)
    requires CanCommit(s, c, r, fillId) && ReportsTruly(s, d)
    ensures ReportsTruly(Persisted(s, c, r, fillId), d)
  {
    var next := Persisted(s, c, r, fillId);
    assert forall i :: 0 <= i < |s.fills| ==> next.fills[i] == s.fills[i];
    if d.phase.Done? && d.phase.outcome.Reported? {
      assert d.lineage != c.lineage;
      if HasFill(s, d.lineage) {
        var i :| 0 <= i < |s.fills| && s.fills[i].lineage == d.lineage;
        assert next.fills[i].lineage == d.lineage;
      }
    }
  }

  lemma SameTablesSameReports(s: State, next: State, c: Call)
    requires next.markers == s.markers && next.fills == s.fills && ReportsTruly(s, c)
    ensures ReportsTruly(next, c)
  {
  }

  lemma OwnReport(s: State, step: Step)
    requires LedgerOk(s) && Enabled(s, step) && !step.Expire? && (step.call in s.calls ==> ReportsTruly(s, s.calls[step.call]))
    ensures ReportsTruly(Effects(s, step), NextCall(s, step))
  {
    hide LedgerOk;
    hide HasFill;
    if step.Commit? {
      CommitReportsTruly(s, s.calls[step.call], s.calls[step.call].phase.result, step.fillId);
    }
    hide CanCommit;
    hide Persisted;
  }

  lemma StepReportsTruly(s: State, step: Step)
    requires LedgerOk(s) && AllReportTruly(s) && Enabled(s, step)
    ensures AllReportTruly(Apply(s, step))
  {
    hide ReportsTruly;
    hide LedgerOk;
    var next := Apply(s, step);
    if !step.Expire? {
      OwnReport(s, step);
      EffectsKeepCalls(s, step);
    }
    forall n | n in next.calls ensures ReportsTruly(next, next.calls[n]) {
      if !step.Expire? && step.call == n {
        SameTablesSameReports(Effects(s, step), next, next.calls[n]);
      } else {
        OtherCallsStay(s, step, n);
        if step.Commit? {
          CommitKeepsReports(s, s.calls[step.call], s.calls[step.call].phase.result, step.fillId, s.calls[n]);
          SameTablesSameReports(Effects(s, step), next, next.calls[n]);
        } else {
          OnlyCommitsRecord(s, step);
          SameTablesSameReports(s, next, next.calls[n]);
        }
      }
    }
  }

  lemma {:induction false} RunReportsTruly(from: State, steps: seq<Step>, to: State)
    requires Run(from, steps, to) && LedgerOk(from) && AllReportTruly(from)
    ensures AllReportTruly(to)
    decreases steps
  {
    if steps != [] {
      hide Apply;
      hide LedgerOk;
      hide AllReportTruly;
      StepKeepsLedger(from, steps[0]);
      StepReportsTruly(from, steps[0]);
      RunReportsTruly(Apply(from, steps[0]), steps[1..], to);
    }
  }

  /**
   In every reachable state a call that reported a status has a fill of its lineage
   exactly when it was given TCA metadata and the status is filled or partial.
   */
  lemma FillsExactly(steps: seq<Step>, s: State, n: nat)
    requires Run(EMPTY, steps, s) && n in s.calls
    requires s.calls[n].phase.Done? && s.calls[n].phase.outcome.Reported?
    ensures (exists i :: 0 <= i < |s.fills| && s.fills[i].lineage == s.calls[n].lineage)
            <==> s.calls[n].wantsTca
                 && (s.calls[n].phase.outcome.status == Filled || s.calls[n].phase.outcome.status == Partial)
    ensures s.calls[n].lineage in s.markers && s.markers[s.calls[n].lineage] == s.calls[n].phase.outcome.status
  {
    hide Run;
    RunReportsTruly(EMPTY, steps, s);
    assert ReportsTruly(s, s.calls[n]);
  }

  // --------------------------------------------------------------- late calls

  /** A call of a lineage that was marked before the call began. */
  ghost predicate LateCall(s: State, n: nat, l: Lineage, status: Status)
  {
    && l in s.markers && s.markers[l] == status
    && (n in s.calls && s.calls[n].lineage == l ==>
          && !s.calls[n].claimed && !s.calls[n].sent
          && (s.calls[n].phase.Started? || s.calls[n].phase == Done(Replayed(status))))
  }

  lemma StepKeepsLateCall(s: State, step: Step, n: nat, l: Lineage, status: Status)
    requires LateCall(s, n, l, status) && Enabled(s, step)
    ensures LateCall(Apply(s, step), n, l, status)
  {
    StepKeepsMarker(s, step, l);
    if !step.Expire? && step.call == n { OwnLateCall(s, step, l, status); }
    else {
      OtherCallsStay(s, step, n);
      hide Apply;
    }
  }

  lemma OwnLateCall(s: State, step: Step, l: Lineage, status: Status)
    requires Enabled(s, step) && !step.Expire? && LateCall(s, step.call, l, status)
    ensures var c := NextCall(s, step);
      c.lineage == l ==> !c.claimed && !c.sent && (c.phase.Started? || c.phase == Done(Replayed(status)))
  {
    hide CanCommit;
  }

  /**
   A dispatch that starts after the marker of its lineage was committed never claims
   and never sends, in any continuation; when it returns, it returns the stored status.
   */
  lemma {:induction false} MarkedLineageIsReplayed(from: State, steps: seq<Step>, to: State, n: nat, l: Lineage, status: Status)
    requires Run(from, steps, to) && LateCall(from, n, l, status)
    ensures LateCall(to, n, l, status)
    decreases steps
  {
    if steps != [] {
      StepKeepsLateCall(from, steps[0], n, l, status);
      hide Apply;
      hide LateCall;
      MarkedLineageIsReplayed(Apply(from, steps[0]), steps[1..], to, n, l, status);
    }
  }

  // ------------------------------------------------------------ one dispatch

  /** How Redis, the bridge and the database behave during one call. */
  datatype Claiming = Works | Breaks(stored: bool)

  datatype Answering = NeverSent | Silent | Answers(result: BridgeResult)

  datatype Persisting = Accepts | Refuses | LosesReply

  datatype Surroundings = Surroundings(
    claiming: Claiming,
    bridge: Answering,
    database: Persisting,
    redisWorks: bool,
    fillId: nat)

  /** The steps from a granted claim to the end of the call. */
  function ClaimedSteps(s: State, n: nat, c: Call, e: Surroundings): seq<Step>
  {
    match e.bridge
    case NeverSent => [SendFails(n)]
    case Silent => [Send(n), BridgeTimesOut(n)]
    case Answers(r) => [Send(n), Answer(n, r)] + AnsweredSteps(s, n, c, r, e)
  }

  function AnsweredSteps(s: State, n: nat, c: Call, r: BridgeResult, e: Surroundings): seq<Step>
  {
    if e.database.Refuses? || !CanCommit(s, c, r, e.fillId) then [PersistenceFails(n), Release(n, e.redisWorks)]
    else if e.database.Accepts? then [Commit(n, e.fillId, false)]
    else [Commit(n, e.fillId, true), Release(n, e.redisWorks)]
  }

  function UnmarkedSteps(s: State, n: nat, c: Call, e: Surroundings): seq<Step>
  {
    if e.claiming.Breaks? then [ClaimBreaks(n, e.claiming.stored)]
    else if c.key in s.held then [Claim(n)]
    else [Claim(n)] + ClaimedSteps(s, n, c, e)
  }

  /** The steps one undisturbed call takes. */
  function DispatchSteps(s: State, n: nat, lineage: Lineage, key: Key, tca: bool, e: Surroundings): seq<Step>
  {
    [Start(n, lineage, key, tca), CheckMarker(n)] +
    if lineage in s.markers then [] else UnmarkedSteps(s, n, Fresh(lineage, key, tca), e)
  }

  /** A call that has done nothing yet. */
  function Fresh(lineage: Lineage, key: Key, tca: bool): Call
  {
    Call(lineage, key, tca, Unmarked, false, false, false, false)
  }

  /** The state one undisturbed call leaves behind. */
  function AfterDispatch(s: State, n: nat, lineage: Lineage, key: Key, tca: bool, e: Surroundings): State
  {
    var c := Fresh(lineage, key, tca);
    if lineage in s.markers then WithCall(s, n, c.(phase := Done(Replayed(s.markers[lineage]))))
    else AfterUnmarked(s, n, c, e)
  }

  function AfterUnmarked(s: State, n: nat, c: Call, e: Surroundings): State
  {
    var owned := s.(held := s.held + {c.key});
    if e.claiming.Breaks? then
      if e.claiming.stored && c.key !in s.held then WithCall(owned, n, c.(phase := Done(ClaimBroken), claimed := true))
      else WithCall(s, n, c.(phase := Done(ClaimBroken)))
    else if c.key in s.held then WithCall(s, n, c.(phase := Done(Duplicate)))
    else AfterClaimed(owned, n, c.(claimed := true), e)
  }

  function AfterClaimed(s: State, n: nat, c: Call, e: Surroundings): State
  {
    match e.bridge
    case NeverSent => WithCall(s, n, c.(phase := Done(NotSent)))
    case Silent => WithCall(s, n, c.(sent := true, phase := Done(NoAnswer)))
    case Answers(r) => AfterAnswered(s, n, c.(sent := true), r, e)
  }

  /** Whether the answer is recorded, acknowledged or not. */
  predicate Records(s: State, c: Call, r: BridgeResult, e: Surroundings)
  {
    !e.database.Refuses? && CanCommit(s, c, r, e.fillId)
  }

  function AfterAnswered(s: State, n: nat, c: Call, r: BridgeResult, e: Surroundings): State
  {
    if Records(s, c, r, e) && e.database.Accepts? then
      WithCall(Persisted(s, c, r, e.fillId), n, c.(phase := Done(Reported(r.status))))
    else
      Released(if Records(s, c, r, e) then Persisted(s, c, r, e.fillId) else s, n, c, e)
  }

  /** The call that could not persist, or was told so: the claim is deleted if Redis lets it. */
  function Released(s: State, n: nat, c: Call, e: Surroundings): State
  {
    WithCall(if e.redisWorks then s.(held := s.held - {c.key}) else s, n,
             c.(phase := Done(PersistFailed), failed := true, released := e.redisWorks))
  }

  lemma Then(s: State, step: Step, next: State, rest: seq<Step>, to: State)
    requires Enabled(s, step) && Apply(s, step) == next && Run(next, rest, to)
    ensures Run(s, [step] + rest, to)
  {
    assert ([step] + rest)[1..] == rest;
  }

  lemma Overwrite(s: State, n: nat, c: Call, d: Call)
    ensures WithCall(WithCall(s, n, c), n, d) == WithCall(s, n, d)
  {
  }

  /** Start and marker check of a lineage that has no marker yet. */
  lemma UnmarkedPrefix(s: State, n: nat, lineage: Lineage, key: Key, tca: bool, rest: seq<Step>, to: State)
    requires n !in s.calls && lineage !in s.markers
    requires Run(WithCall(s, n, Call(lineage, key, tca, Unmarked, false, false, false, false)), rest, to)
    ensures Run(s, [Start(n, lineage, key, tca), CheckMarker(n)] + rest, to)
  {
    var c := Call(lineage, key, tca, Started, false, false, false, false);
    Overwrite(s, n, c, c.(phase := Unmarked));
    Then(WithCall(s, n, c), CheckMarker(n), WithCall(s, n, c.(phase := Unmarked)), rest, to);
    Then(s, Start(n, lineage, key, tca), WithCall(s, n, c), [CheckMarker(n)] + rest, to);
    assert [Start(n, lineage, key, tca), CheckMarker(n)] + rest
        == [Start(n, lineage, key, tca)] + ([CheckMarker(n)] + rest);
  }

  lemma CallStep(s: State, n: nat, c: Call, step: Step, next: State, d: Call, rest: seq<Step>, to: State)
    requires Enabled(WithCall(s, n, c), step) && Apply(WithCall(s, n, c), step) == WithCall(WithCall(next, n, c), n, d)
    requires Run(WithCall(next, n, d), rest, to)
    ensures Run(WithCall(s, n, c), [step] + rest, to)
  {
    Overwrite(next, n, c, d);
    Then(WithCall(s, n, c), step, WithCall(next, n, d), rest, to);
  }

  lemma NotSentRun(s: State, n: nat, c: Call, e: Surroundings)
    requires c.phase == Claimed && e.bridge.NeverSent?
    ensures Run(WithCall(s, n, c), ClaimedSteps(s, n, c, e), AfterClaimed(s, n, c, e))
  {
    CallStep(s, n, c, SendFails(n), s, c.(phase := Done(NotSent)), [], AfterClaimed(s, n, c, e));
    assert ClaimedSteps(s, n, c, e) == [SendFails(n)] + [];
  }

  lemma SilentRun(s: State, n: nat, c: Call, e: Surroundings)
    requires c.phase == Claimed && e.bridge.Silent?
    ensures Run(WithCall(s, n, c), ClaimedSteps(s, n, c, e), AfterClaimed(s, n, c, e))
  {
    var waiting := c.(sent := true, phase := Waiting);
    var to := AfterClaimed(s, n, c, e);
    CallStep(s, n, waiting, BridgeTimesOut(n), s, waiting.(phase := Done(NoAnswer)), [], to);
    CallStep(s, n, c, Send(n), s, waiting, [BridgeTimesOut(n)] + [], to);
    assert ClaimedSteps(s, n, c, e) == [Send(n)] + ([BridgeTimesOut(n)] + []);
  }

  lemma AnswerRun(s: State, n: nat, c: Call, e: Surroundings)
    requires c.phase == Claimed && !c.failed && !c.released && c.key in s.held && c.lineage !in s.markers
    requires e.bridge.Answers?
    ensures Run(WithCall(s, n, c), ClaimedSteps(s, n, c, e), AfterClaimed(s, n, c, e))
  {
    hide Persisted;
    hide CanCommit;
    hide AnsweredSteps;
    hide AfterAnswered;
    var waiting := c.(sent := true, phase := Waiting);
    var r := e.bridge.result;
    var tail := AnsweredSteps(s, n, waiting, r, e);
    var to := AfterAnswered(s, n, waiting, r, e);
    AnsweredRun(s, n, waiting, r, e);
    CallStep(s, n, waiting, Answer(n, r), s, waiting.(phase := Answered(r)), tail, to);
    CallStep(s, n, c, Send(n), s, waiting, [Answer(n, r)] + tail, to);
    PhaseIsForgotten(s, n, c, waiting, r, e);
    assert ClaimedSteps(s, n, c, e) == [Send(n)] + ([Answer(n, r)] + tail);
  }

  /** What an answered call leaves does not depend on the phase it is noted in. */
  lemma PhaseIsForgotten(s: State, n: nat, c: Call, waiting: Call, r: BridgeResult, e: Surroundings)
    requires waiting == c.(sent := true, phase := Waiting)
    ensures AnsweredSteps(s, n, c, r, e) == AnsweredSteps(s, n, waiting, r, e)
    ensures AfterAnswered(s, n, c.(sent := true), r, e) == AfterAnswered(s, n, waiting, r, e)
  {
    SameDecision(s, c, waiting, r, e.fillId);
    SameDecision(s, c.(sent := true), waiting, r, e.fillId);
    hide CanCommit;
    hide Persisted;
  }

  /** What is persisted depends on the lineage and the TCA metadata of the call alone. */
  lemma SameDecision(s: State, c: Call, d: Call, r: BridgeResult, fillId: nat)
    requires c.lineage == d.lineage && c.wantsTca == d.wantsTca
    ensures CanCommit(s, c, r, fillId) == CanCommit(s, d, r, fillId)
    ensures Persisted(s, c, r, fillId) == Persisted(s, d, r, fillId)
  {
  }

  lemma ClaimedRun(s: State, n: nat, c: Call, e: Surroundings)
    requires c.phase == Claimed && !c.failed && !c.released && c.key in s.held && c.lineage !in s.markers
    ensures Run(WithCall(s, n, c), ClaimedSteps(s, n, c, e), AfterClaimed(s, n, c, e))
  {
    hide Run;
    hide ClaimedSteps;
    hide AfterClaimed;
    match e.bridge
    case NeverSent => NotSentRun(s, n, c, e);
    case Silent => SilentRun(s, n, c, e);
    case Answers(_) => AnswerRun(s, n, c, e);
  }

  lemma AnsweredRun(s: State, n: nat, c: Call, r: BridgeResult, e: Surroundings)
    requires !c.failed && !c.released && c.key in s.held && c.lineage !in s.markers
    ensures Run(WithCall(s, n, c.(phase := Answered(r))), AnsweredSteps(s, n, c, r, e), AfterAnswered(s, n, c, r, e))
  {
    if Records(s, c, r, e) {
      RecordedRun(s, n, c, r, e);
    } else {
      RefusedRun(s, n, c, r, e);
    }
  }

  lemma ReleaseRun(s: State, n: nat, c: Call, e: Surroundings)
    requires !c.failed && !c.released && c.key in s.held
    ensures Run(WithCall(s, n, c.(phase := RolledBack, failed := true)), [Release(n, e.redisWorks)] + [], Released(s, n, c, e))
  {
    var rolled := c.(phase := RolledBack, failed := true);
    var done := rolled.(phase := Done(PersistFailed), released := e.redisWorks);
    var freed := if e.redisWorks then s.(held := s.held - {c.key}) else s;
    CallStep(s, n, rolled, Release(n, e.redisWorks), freed, done, [], Released(s, n, c, e));
  }

  lemma RefusedRun(s: State, n: nat, c: Call, r: BridgeResult, e: Surroundings)
    requires !c.failed && !c.released && c.key in s.held && !Records(s, c, r, e)
    ensures Run(WithCall(s, n, c.(phase := Answered(r))), AnsweredSteps(s, n, c, r, e), AfterAnswered(s, n, c, r, e))
  {
    var a, rolled := c.(phase := Answered(r)), c.(phase := RolledBack, failed := true);
    ReleaseRun(s, n, c, e);
    hide Released;
    CallStep(s, n, a, PersistenceFails(n), s, rolled, [Release(n, e.redisWorks)] + [], Released(s, n, c, e));
    assert AnsweredSteps(s, n, c, r, e) == [PersistenceFails(n)] + ([Release(n, e.redisWorks)] + []);
  }

  lemma RecordedRun(s: State, n: nat, c: Call, r: BridgeResult, e: Surroundings)
    requires !c.failed && !c.released && c.key in s.held && Records(s, c, r, e)
    ensures Run(WithCall(s, n, c.(phase := Answered(r))), AnsweredSteps(s, n, c, r, e), AfterAnswered(s, n, c, r, e))
  {
    var a := c.(phase := Answered(r));
    var next := Persisted(s, c, r, e.fillId);
    CommitStep(s, n, c, r, e.fillId, !e.database.Accepts?);
    assert next.held == s.held;
    hide Persisted;
    hide CanCommit;
    if e.database.Accepts? {
      CallStep(s, n, a, Commit(n, e.fillId, false), next, c.(phase := Done(Reported(r.status))), [], AfterAnswered(s, n, c, r, e));
      assert AnsweredSteps(s, n, c, r, e) == [Commit(n, e.fillId, false)] + [];
    } else {
      var rolled := c.(phase := RolledBack, failed := true);
      ReleaseRun(next, n, c, e);
      CallStep(s, n, a, Commit(n, e.fillId, true), next, rolled, [Release(n, e.redisWorks)] + [], Released(next, n, c, e));
      assert AnsweredSteps(s, n, c, r, e) == [Commit(n, e.fillId, true)] + ([Release(n, e.redisWorks)] + []);
    }
  }

  lemma CommitStep(s: State, n: nat, c: Call, r: BridgeResult, fillId: nat, lost: bool)
    requires CanCommit(s, c, r, fillId)
    ensures var noted := WithCall(s, n, c.(phase := Answered(r)));
      && Enabled(noted, Commit(n, fillId, lost))
      && Apply(noted, Commit(n, fillId, lost))
         == WithCall(WithCall(Persisted(s, c, r, fillId), n, c.(phase := Answered(r))), n,
                     if lost then c.(phase := RolledBack, failed := true) else c.(phase := Done(Reported(r.status))))
  {
    var a := c.(phase := Answered(r));
    SameDecision(WithCall(s, n, a), a, c, r, fillId);
    NotedDecision(s, n, a, c, r, fillId);
    hide CanCommit;
    hide Persisted;
  }

  /** Noting a call changes neither the decision to persist nor what is persisted. */
  lemma NotedDecision(s: State, n: nat, a: Call, c: Call, r: BridgeResult, fillId: nat)
    ensures CanCommit(WithCall(s, n, a), c, r, fillId) == CanCommit(s, c, r, fillId)
    ensures Persisted(WithCall(s, n, a), c, r, fillId) == WithCall(Persisted(s, c, r, fillId), n, a)
  {
  }

  lemma UnmarkedRun(s: State, n: nat, c: Call, e: Surroundings)
    requires c == Fresh(c.lineage, c.key, c.wantsTca) && c.lineage !in s.markers
    ensures Run(WithCall(s, n, c), UnmarkedSteps(s, n, c, e), AfterUnmarked(s, n, c, e))
  {
    hide ClaimedSteps;
    hide AfterClaimed;
    var owned := s.(held := s.held + {c.key});
    if e.claiming.Breaks? {
      var step := ClaimBreaks(n, e.claiming.stored);
      assert [step] + [] == UnmarkedSteps(s, n, c, e);
      if e.claiming.stored && c.key !in s.held {
        CallStep(s, n, c, step, owned, c.(phase := Done(ClaimBroken), claimed := true), [], AfterUnmarked(s, n, c, e));
      } else {
        CallStep(s, n, c, step, s, c.(phase := Done(ClaimBroken)), [], AfterUnmarked(s, n, c, e));
      }
    } else if c.key in s.held {
      CallStep(s, n, c, Claim(n), s, c.(phase := Done(Duplicate)), [], AfterUnmarked(s, n, c, e));
      assert [Claim(n)] + [] == UnmarkedSteps(s, n, c, e);
    } else {
      OwnedRun(s, n, c, e);
    }
  }

  lemma OwnedRun(s: State, n: nat, c: Call, e: Surroundings)
    requires c == Fresh(c.lineage, c.key, c.wantsTca) && c.lineage !in s.markers && c.key !in s.held
    requires !e.claiming.Breaks?
    ensures Run(WithCall(s, n, c), UnmarkedSteps(s, n, c, e), AfterUnmarked(s, n, c, e))
  {
    var owned := s.(held := s.held + {c.key});
    var claimed := c.(phase := Claimed, claimed := true);
    ClaimedRun(owned, n, claimed, e);
    ClaimIsForgotten(s, n, c, e);
    hide ClaimedSteps;
    hide AfterClaimed;
    CallStep(s, n, c, Claim(n), owned, claimed, ClaimedSteps(owned, n, claimed, e), AfterClaimed(owned, n, claimed, e));
  }

  lemma ClaimIsForgotten(s: State, n: nat, c: Call, e: Surroundings)
    requires c == Fresh(c.lineage, c.key, c.wantsTca)
    ensures var owned, claimed := s.(held := s.held + {c.key}), c.(phase := Claimed, claimed := true);
      && ClaimedSteps(owned, n, claimed, e) == ClaimedSteps(s, n, c, e)
      && AfterClaimed(owned, n, claimed, e) == AfterClaimed(owned, n, c.(claimed := true), e)
  {
    var owned, claimed := s.(held := s.held + {c.key}), c.(phase := Claimed, claimed := true);
    if e.bridge.Answers? {
      var r := e.bridge.result;
      SameDecision(owned, claimed, c, r, e.fillId);
      SameDecision(owned, claimed.(sent := true), c.(claimed := true, sent := true), r, e.fillId);
      assert CanCommit(owned, c, r, e.fillId) == CanCommit(s, c, r, e.fillId);
      hide CanCommit;
      hide Persisted;
      assert AnsweredSteps(owned, n, claimed, r, e) == AnsweredSteps(s, n, c, r, e);
      assert AfterAnswered(owned, n, claimed.(sent := true), r, e)
             == AfterAnswered(owned, n, c.(claimed := true, sent := true), r, e);
    }
  }

  /** The undisturbed call is one of the interleavings. */
  lemma DispatchIsARun(s: State, n: nat, lineage: Lineage, key: Key, tca: bool, e: Surroundings)
    requires n !in s.calls
    ensures Run(s, DispatchSteps(s, n, lineage, key, tca, e), AfterDispatch(s, n, lineage, key, tca, e))
  {
    if lineage in s.markers {
      MarkedRun(s, n, lineage, key, tca, e);
    } else {
      hide UnmarkedSteps;
      hide AfterUnmarked;
      hide Run;
      var c := Fresh(lineage, key, tca);
      UnmarkedRun(s, n, c, e);
      UnmarkedPrefix(s, n, lineage, key, tca, UnmarkedSteps(s, n, c, e), AfterUnmarked(s, n, c, e));
    }
  }

  lemma MarkedRun(s: State, n: nat, lineage: Lineage, key: Key, tca: bool, e: Surroundings)
    requires n !in s.calls && lineage in s.markers
    ensures Run(s, DispatchSteps(s, n, lineage, key, tca, e), AfterDispatch(s, n, lineage, key, tca, e))
  {
    var c := Call(lineage, key, tca, Started, false, false, false, false);
    var to := AfterDispatch(s, n, lineage, key, tca, e);
    Overwrite(s, n, c, c.(phase := Done(Replayed(s.markers[lineage]))));
    Then(WithCall(s, n, c), CheckMarker(n), to, [], to);
    Then(s, Start(n, lineage, key, tca), WithCall(s, n, c), [CheckMarker(n)] + [], to);
    assert [Start(n, lineage, key, tca)] + ([CheckMarker(n)] + []) == DispatchSteps(s, n, lineage, key, tca, e);
  }

  /** The router with the database and the claim store it works on. */
  class Router {
    var markers: map<Lineage, Status>
    var fills: seq<Fill>
    var tcas: seq<Tca>
    var held: set<Key>
    var expiries: map<Key, nat>
    var calls: map<nat, Call>

    constructor ()
      ensures Abstract() == EMPTY
    {
      markers, fills, tcas, held, expiries, calls := map[], [], [], {}, map[], map[];
    }

    ghost function Abstract(): State
      reads this
    {
      State(markers, fills, tcas, held, expiries, calls)
    }

    method Note(n: nat, c: Call)
      modifies this`calls
      ensures calls == old(calls)[n := c]
    {
      calls := calls[n := c];
    }

    /** Fill, TCA record and marker in one transaction. */
    method Persist(call: Call, r: BridgeResult, e: Surroundings) returns (committed: bool)
      modifies this`markers, this`fills, this`tcas
      ensures committed <==> Records(old(Abstract()), call, r, e)
      ensures committed <==>
                && !e.database.Refuses? && call.lineage !in old(markers)
                && (call.wantsTca && (r.status == Filled || r.status == Partial) ==> r.complete)
                && forall i :: 0 <= i < |old(fills)| ==> old(fills)[i].id != e.fillId
      ensures Abstract() == if committed then Persisted(old(Abstract()), call, r, e.fillId) else old(Abstract())
      ensures markers == if committed then old(markers)[call.lineage := r.status] else old(markers)
      ensures if committed && call.wantsTca && (r.status == Filled || r.status == Partial) then
                fills == old(fills) + [Fill(e.fillId, call.lineage)] && tcas == old(tcas) + [Tca(e.fillId)]
              else fills == old(fills) && tcas == old(tcas)
    {
      committed := !e.database.Refuses? && CanCommit(State(markers, fills, tcas, held, expiries, calls), call, r, e.fillId);
      if committed {
        if RecordsFill(call, r) {
          fills := fills + [Fill(e.fillId, call.lineage)];
          tcas := tcas + [Tca(e.fillId)];
        }
        markers := markers[call.lineage := r.status];
      }
    }

    /** One `dispatch` from its first check to its return. */
    method Dispatch(n: nat, lineage: Lineage, key: Key, tca: bool, e: Surroundings) returns (outcome: Outcome)
      requires n !in calls
      modifies this
      ensures n in calls && calls[n].phase == Done(outcome)
      ensures Abstract() == AfterDispatch(old(Abstract()), n, lineage, key, tca, e)
      ensures lineage in old(markers) ==> outcome == Replayed(old(markers)[lineage]) && !calls[n].sent
      ensures lineage !in old(markers) && e.claiming.Breaks? ==> outcome == ClaimBroken && !calls[n].sent
      ensures lineage !in old(markers) && !e.claiming.Breaks? && key in old(held) ==> outcome == Duplicate && !calls[n].sent
      ensures lineage !in old(markers) && !e.claiming.Breaks? && key !in old(held) ==>
                && (calls[n].sent <==> !e.bridge.NeverSent?)
                && (key in held <==> !(outcome.PersistFailed? && e.redisWorks))
      ensures lineage !in old(markers) && !e.claiming.Breaks? && key !in old(held) ==>
                && (outcome == NotSent <==> e.bridge.NeverSent?) && (outcome == NoAnswer <==> e.bridge.Silent?)
                && (e.bridge.Answers? ==> outcome == PersistFailed || outcome == Reported(e.bridge.result.status))
                && (outcome.Reported?
                    <==> && e.bridge.Answers? && e.database.Accepts?
                         && (tca && (e.bridge.result.status == Filled || e.bridge.result.status == Partial) ==>
                               e.bridge.result.complete)
                         && forall i :: 0 <= i < |old(fills)| ==> old(fills)[i].id != e.fillId)
      ensures !e.database.LosesReply? && !outcome.Reported? ==>
                markers == old(markers) && fills == old(fills) && tcas == old(tcas)
      ensures calls == old(calls)[n := calls[n]] && expiries == old(expiries)
      ensures calls[n].lineage == lineage && calls[n].key == key && calls[n].wantsTca == tca
      ensures lineage in old(markers) || (!e.claiming.Breaks? && key in old(held)) ==> held == old(held)
      ensures lineage !in old(markers) && e.claiming.Breaks? ==>
                held == if e.claiming.stored then old(held) + {key} else old(held)
      ensures lineage !in old(markers) && !e.claiming.Breaks? && key !in old(held) ==>
                held == if outcome == PersistFailed && e.redisWorks then old(held) else old(held) + {key}
      ensures outcome == PersistFailed && markers != old(markers) ==>
                && e.database.LosesReply? && e.bridge.Answers? && markers == old(markers)[lineage := e.bridge.result.status]
                && (if tca && (e.bridge.result.status == Filled || e.bridge.result.status == Partial) then
                      fills == old(fills) + [Fill(e.fillId, lineage)] && tcas == old(tcas) + [Tca(e.fillId)]
                    else fills == old(fills) && tcas == old(tcas))
      ensures markers == old(markers) ==> fills == old(fills) && tcas == old(tcas)
      ensures outcome.Reported? ==>
                && markers == old(markers)[lineage := outcome.status]
                && (if tca && (outcome.status == Filled || outcome.status == Partial) then
                      fills == old(fills) + [Fill(e.fillId, lineage)] && tcas == old(tcas) + [Tca(e.fillId)]
                    else fills == old(fills) && tcas == old(tcas))
    {
      hide CanCommit;
      hide Persisted;
      hide RecordsFill;
      var call := Fresh(lineage, key, tca);
      if lineage in markers {
        outcome := Replayed(markers[lineage]);
        Note(n, call.(phase := Done(outcome)));
        return;
      }
      if e.claiming.Breaks? {
        if e.claiming.stored && key !in held {
          held := held + {key};
          call := call.(claimed := true);
        }
        outcome := ClaimBroken;
        Note(n, call.(phase := Done(outcome)));
        return;
      }
      if key in held {
        outcome := Duplicate;
        Note(n, call.(phase := Done(outcome)));
        return;
      }
      held := held + {key};
      call := call.(claimed := true);
      if e.bridge.NeverSent? {
        outcome := NotSent;
        Note(n, call.(phase := Done(outcome)));
        return;
      }
      call := call.(sent := true);
      if e.bridge.Silent? {
        outcome := NoAnswer;
        Note(n, call.(phase := Done(outcome)));
        return;
      }
      var r := e.bridge.result;
      var committed := Persist(call, r, e);
      hide Records;
      if !committed || e.database.LosesReply? {
        if e.redisWorks {
          held := held - {key};
        }
        outcome := PersistFailed;
        Note(n, call.(phase := Done(outcome), failed := true, released := e.redisWorks));
        return;
      }
      outcome := Reported(r.status);
      Note(n, call.(phase := Done(outcome)));
    }
  }
}
