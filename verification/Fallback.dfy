/**
 The model gateway: a primary route and its fallback hops, each tried in order
 with one retry for transient failures (llm_gateway/fallback.py), and the usage
 record derived from the model the answer names (llm_gateway/gateway.py).
 */
module Fallback {
  import opened Text

  // ------------------------------------------------------ classifying failures

  datatype Kind = Auth | Transient | Permanent

  predicate Contains(s: string, marker: string)
  {
    exists i :: 0 <= i <= |s| && StandsAt(s, marker, i)
  }

  predicate StandsAt(s: string, marker: string, i: nat)
  {
    i + |marker| <= |s| && s[i..i + |marker|] == marker
  }

  /** Authentication markers win over transient ones. */
  function Classify(message: string): Kind
  {
    var low := Lower(message);
    if Contains(low, "401") || Contains(low, "403") then Auth
    else if Contains(low, "timed out") || Contains(low, "429") then Transient
    else Permanent
  }

  /** An authentication code anywhere in the message rules out the retry, in whatever case the rest is. */
  lemma AuthNeverRetries(before: string, after: string)
    ensures Classify(before + "401" + after) == Auth
    ensures Classify(before + "403" + after) == Auth
  {
    LowerKeeps(before, "401", after);
    LowerKeeps(before, "403", after);
  }

  lemma LowerKeeps(before: string, marker: string, after: string)
    requires forall i :: 0 <= i < |marker| ==> LowerChar(marker[i]) == marker[i]
    ensures Contains(Lower(before + marker + after), marker)
  {
    var low := Lower(before + marker + after);
    assert low[|before|..|before| + |marker|] == marker;
    assert StandsAt(low, marker, |before|);
  }

  // -------------------------------------------------------------- the chain run

  /** A route as the policy declares it. */
  datatype Route = Route(model: string, version: string)

  datatype Response = Response(modelUsed: string, text: string)

  /** What one call does; only client errors are handled by the chain. */
  datatype Outcome = Answered(response: Response) | Failed(message: string) | Crashed(message: string)

  /** The call of route `route` at its first (0) or second (1) attempt. */
  datatype Call = Call(route: nat, attempt: nat)

  /** The world behind the calls: each is made at most once, so it may answer as it likes. */
  type World = Call -> Outcome

  datatype ChainResult =
    | Success(response: Response)
    | NoFallbacksConfigured(last: string)
    | Exhausted(routes: nat, last: string)
    | Propagated(message: string)

  predicate IsTransient(o: Outcome)
  {
    o.Failed? && Classify(o.message) == Transient
  }

  /** The calls of one route: a second one exactly after a transient first failure. */
  function CallsOf(world: World, route: nat): seq<Call>
  {
    if IsTransient(world(Call(route, 0))) then [Call(route, 0), Call(route, 1)] else [Call(route, 0)]
  }

  function FinalOf(world: World, route: nat): Outcome
  {
    if IsTransient(world(Call(route, 0))) then world(Call(route, 1)) else world(Call(route, 0))
  }

  /** The calls of a run over routes `from..n`. */
  function Trace(world: World, from: nat, n: nat): seq<Call>
    requires from <= n
    decreases n - from
  {
    if from == n then []
    else CallsOf(world, from) + if FinalOf(world, from).Failed? then Trace(world, from + 1, n) else []
  }

  /** The error raised when every route failed. */
  function Surfaced(routes: nat, last: string): ChainResult
  {
    if routes == 1 && Classify(last) != Transient then NoFallbacksConfigured(last)
    else Exhausted(routes, last)
  }

  function ResultOf(world: World, from: nat, n: nat): ChainResult
    requires from < n
    decreases n - from
  {
    match FinalOf(world, from)
    case Answered(response) => Success(response)
    case Crashed(message) => Propagated(message)
    case Failed(message) => if from + 1 < n then ResultOf(world, from + 1, n) else Surfaced(n, message)
  }

  // -------------------------------------------------------- a run, written out

  ghost predicate IsCut(message: string, before: string, here: string, after: string)
  {
    message == before + here + after
  }

  /** The word stands in the message, in whatever case. */
  ghost predicate Mentions(message: string, word: string)
  {
    exists before, here, after :: IsCut(message, before, here, after) && Spells(here, word)
  }

  /** A client error that names a timeout or a rate limit and no authentication code. */
  ghost predicate MayRetry(o: Outcome)
  {
    && o.Failed?
    && !Mentions(o.message, "401") && !Mentions(o.message, "403")
    && (Mentions(o.message, "timed out") || Mentions(o.message, "429"))
  }

  ghost predicate RouteFails(world: World, route: nat)
  {
    world(Call(route, 0)).Failed? && (MayRetry(world(Call(route, 0))) ==> world(Call(route, 1)).Failed?)
  }

  /** The call is made: its own route is reached, and a second attempt may be made. */
  ghost predicate IsMade(world: World, n: nat, c: Call)
  {
    && c.route < n && (forall i :: 0 <= i < c.route ==> RouteFails(world, i))
    && (c.attempt == 0 || (c.attempt == 1 && MayRetry(world(Call(c.route, 0)))))
  }

  /** What the last call of a run makes of it: the answer, the crash, or one of the two chain errors. */
  ghost predicate IsVerdict(n: nat, last: Outcome, result: ChainResult)
  {
    && (last.Answered? ==> result == Success(last.response))
    && (last.Crashed? ==> result == Propagated(last.message))
    && (last.Failed? && n == 1 && !MayRetry(last) ==> result == NoFallbacksConfigured(last.message))
    && (last.Failed? && (n > 1 || MayRetry(last)) ==> result == Exhausted(n, last.message))
  }

  /** The calls of a run, in order and each once, and its result. */
  ghost predicate IsChainRun(world: World, n: nat, trace: seq<Call>, result: ChainResult)
  {
    && (forall c :: c in trace <==> IsMade(world, n, c))
    && InOrder(trace)
    && trace != [] && IsVerdict(n, world(trace[|trace| - 1]), result)
  }

  lemma ContainsExactly(message: string, word: string)
    requires IsSmall(word)
    ensures Contains(Lower(message), word) <==> Mentions(message, word)
  {
    hide Spells;
    var low, k := Lower(message), |word|;
    if Contains(low, word) {
      var i :| 0 <= i <= |low| && StandsAt(low, word, i);
      var here := message[i..i + k];
      assert Lower(here) == low[i..i + k];
      LowerExactly(here, word);
      assert message == message[..i] + here + message[i + k..];
      assert IsCut(message, message[..i], here, message[i + k..]);
    }
    if Mentions(message, word) {
      var before, here, after :| IsCut(message, before, here, after) && Spells(here, word);
      LowerExactly(here, word);
      assert low[|before|..|before| + |here|] == Lower(here) == word;
      assert StandsAt(low, word, |before|);
    }
  }

  lemma TransientExactly(o: Outcome)
    ensures IsTransient(o) <==> MayRetry(o)
  {
    hide Contains;
    hide Mentions;
    hide Lower;
    if o.Failed? {
      ContainsExactly(o.message, "401");
      ContainsExactly(o.message, "403");
      ContainsExactly(o.message, "timed out");
      ContainsExactly(o.message, "429");
    }
  }

  lemma RouteExactly(world: World, route: nat)
    ensures FinalOf(world, route).Failed? <==> RouteFails(world, route)
    ensures CallsOf(world, route) == if MayRetry(world(Call(route, 0))) then [Call(route, 0), Call(route, 1)] else [Call(route, 0)]
    ensures MayRetry(world(Call(route, 0))) ==> world(Call(route, 0)).Failed?
  {
    hide Classify;
    hide MayRetry;
    TransientExactly(world(Call(route, 0)));
  }

  lemma RunExactly(world: World, n: nat)
    requires n >= 1
    ensures IsChainRun(world, n, Trace(world, 0, n), ResultOf(world, 0, n))
  {
    hide IsTransient;
    hide MayRetry;
    hide FinalOf;
    hide CallsOf;
    hide RouteFails;
    hide Trace;
    hide ResultOf;
    hide InOrder;
    var trace, result := Trace(world, 0, n), ResultOf(world, 0, n);
    forall c ensures c in trace <==> IsMade(world, n, c) {
      TraceMembers(world, 0, n, c);
      TransientExactly(world(Call(c.route, 0)));
      forall i: nat ensures FinalOf(world, i).Failed? <==> RouteFails(world, i) { RouteExactly(world, i); }
    }
    TraceOrder(world, 0, n);
    RunOutcome(world, 0, n);
    VerdictExactly(n, world(trace[|trace| - 1]), result);
  }

  lemma VerdictExactly(n: nat, last: Outcome, result: ChainResult)
    requires n >= 1
    requires last.Answered? ==> result == Success(last.response)
    requires last.Crashed? ==> result == Propagated(last.message)
    requires last.Failed? ==> result == Surfaced(n, last.message)
    ensures IsVerdict(n, last, result)
  {
    hide MayRetry;
    hide Classify;
    TransientExactly(last);
  }

  /** One route: a second attempt only after a transient first failure. */
  method TryRoute(world: World, route: nat) returns (outcome: Outcome, calls: seq<Call>)
    ensures calls == CallsOf(world, route)
    ensures calls == if MayRetry(world(Call(route, 0))) then [Call(route, 0), Call(route, 1)] else [Call(route, 0)]
    ensures outcome == FinalOf(world, route) == world(calls[|calls| - 1])
  {
    RouteExactly(world, route);
    hide MayRetry;
    hide Classify;
    calls := [];
    for attempt := 0 to 2
      invariant calls == if attempt == 0 then [] else [Call(route, 0)]
      invariant attempt <= 1
      invariant attempt == 1 ==> IsTransient(world(Call(route, 0)))
    {
      var call := Call(route, attempt);
      outcome := world(call);
      calls := calls + [call];
      if !(outcome.Failed? && attempt == 0 && Classify(outcome.message) == Transient) {
        return;
      }
    }
  }

  /** Every route in order until one does not fail. */
  method RunChain(world: World, n: nat) returns (result: ChainResult, trace: seq<Call>)
    requires n >= 1
    ensures trace == Trace(world, 0, n)
    ensures result == ResultOf(world, 0, n)
    ensures IsChainRun(world, n, trace, result)
  {
    RunExactly(world, n);
    hide *;
    trace := [];
    var lastError := "";
    for route := 0 to n
      invariant trace + Trace(world, route, n) == Trace(world, 0, n)
      invariant route < n ==> ResultOf(world, route, n) == ResultOf(world, 0, n)
      invariant route == n ==> Surfaced(n, lastError) == ResultOf(world, 0, n)
    {
      var outcome, calls := TryRoute(world, route);
      TraceSplits(world, route, n, trace);
      ResultSplits(world, route, n);
      trace := trace + calls;
      match outcome {
        case Answered(response) => return Success(response), trace;
        case Crashed(message) => return Propagated(message), trace;
        case Failed(message) => lastError := message;
      }
    }
    NothingLeft(world, n);
    assert trace + [] == trace;
    result := Surfaced(n, lastError);
  }

  lemma NothingLeft(world: World, n: nat)
    ensures Trace(world, n, n) == []
  {
  }

  lemma ResultSplits(world: World, route: nat, n: nat)
    requires route < n
    ensures ResultOf(world, route, n)
            == match FinalOf(world, route)
               case Answered(response) => Success(response)
               case Crashed(message) => Propagated(message)
               case Failed(message) => if route + 1 < n then ResultOf(world, route + 1, n) else Surfaced(n, message)
  {
    hide FinalOf;
    hide Surfaced;
  }

  lemma TraceSplits(world: World, route: nat, n: nat, done: seq<Call>)
    requires route < n
    ensures done + Trace(world, route, n)
            == if FinalOf(world, route).Failed? then done + CallsOf(world, route) + Trace(world, route + 1, n)
               else done + CallsOf(world, route)
  {
    hide CallsOf;
    hide FinalOf;
    assert CallsOf(world, route) + [] == CallsOf(world, route);
  }

  // ------------------------------------------------- what a run's trace contains

  /** Routes `from..to` have all failed, their retries included. */
  ghost predicate AllFailed(world: World, from: nat, to: nat)
  {
    forall i :: from <= i < to ==> FinalOf(world, i).Failed?
  }

  ghost predicate Before(a: Call, b: Call)
  {
    a.route < b.route || (a.route == b.route && a.attempt < b.attempt)
  }

  ghost predicate InOrder(trace: seq<Call>)
  {
    forall i, j :: 0 <= i < j < |trace| ==> Before(trace[i], trace[j])
  }

  /** Whether a run over routes `from..n` makes this call. */
  ghost predicate Made(world: World, from: nat, n: nat, c: Call)
  {
    && from <= c.route < n && AllFailed(world, from, c.route)
    && (c.attempt == 0 || (c.attempt == 1 && IsTransient(world(Call(c.route, 0)))))
  }

  lemma OwnMembers(world: World, route: nat, c: Call)
    ensures c in CallsOf(world, route)
            <==> c.route == route && (c.attempt == 0 || (c.attempt == 1 && IsTransient(world(Call(route, 0)))))
  {
    hide Classify;
  }

  /** A call is made exactly when every earlier route failed and, for a second attempt, the first was transient. */
  lemma {:induction false} TraceMembers(world: World, from: nat, n: nat, c: Call)
    requires from <= n
    ensures c in Trace(world, from, n) <==> Made(world, from, n, c)
    decreases n - from
  {
    hide CallsOf;
    hide FinalOf;
    hide IsTransient;
    if from < n {
      TraceMembers(world, from + 1, n, c);
      OwnMembers(world, from, c);
      assert c.route > from ==> (AllFailed(world, from, c.route) <==> FinalOf(world, from).Failed? && AllFailed(world, from + 1, c.route));
    }
  }

  /** Calls go route by route, attempt by attempt, none twice, at most two a route. */
  lemma {:induction false} TraceOrder(world: World, from: nat, n: nat)
    requires from <= n
    ensures InOrder(Trace(world, from, n))
    ensures |Trace(world, from, n)| <= 2 * (n - from)
    decreases n - from
  {
    hide Classify;
    if from < n {
      TraceOrder(world, from + 1, n);
      forall c | c in Trace(world, from + 1, n) ensures c.route > from { TraceMembers(world, from + 1, n, c); }
    }
  }

  /** The result is what the last call of the trace says, all calls before it having failed. */
  ghost predicate LastCallDecides(world: World, n: nat, trace: seq<Call>, result: ChainResult)
  {
    && trace != []
    && (forall i :: 0 <= i < |trace| - 1 ==> world(trace[i]).Failed?)
    && match world(trace[|trace| - 1])
       case Answered(response) => result == Success(response)
       case Crashed(message) => result == Propagated(message)
       case Failed(message) => result == Surfaced(n, message)
  }

  lemma LaterCallsDecide(world: World, n: nat, own: seq<Call>, rest: seq<Call>, result: ChainResult)
    requires forall i :: 0 <= i < |own| ==> world(own[i]).Failed?
    requires LastCallDecides(world, n, rest, result)
    ensures LastCallDecides(world, n, own + rest, result)
  {
    hide Surfaced;
  }

  lemma OwnCallsDecide(world: World, route: nat)
    ensures var own := CallsOf(world, route);
      && own != [] && world(own[|own| - 1]) == FinalOf(world, route)
      && forall i :: 0 <= i < |own| - 1 ==> world(own[i]).Failed?
  {
    hide Classify;
  }

  /**
   A run succeeds exactly when one of its calls is answered; that call is its
   last, and it is the answer returned.
   */
  lemma {:induction false} RunOutcome(world: World, from: nat, n: nat)
    requires from < n
    ensures LastCallDecides(world, n, Trace(world, from, n), ResultOf(world, from, n))
    decreases n - from
  {
    hide CallsOf;
    hide FinalOf;
    hide Surfaced;
    hide LastCallDecides;
    OwnCallsDecide(world, from);
    if FinalOf(world, from).Failed? && from + 1 < n {
      RunOutcome(world, from + 1, n);
      LaterCallsDecide(world, n, CallsOf(world, from), Trace(world, from + 1, n), ResultOf(world, from + 1, n));
    } else {
      LastRouteDecides(world, from, n);
    }
  }

  lemma LastRouteDecides(world: World, from: nat, n: nat)
    requires from < n && !(FinalOf(world, from).Failed? && from + 1 < n)
    ensures LastCallDecides(world, n, Trace(world, from, n), ResultOf(world, from, n))
  {
    hide CallsOf;
    hide FinalOf;
    hide Surfaced;
    OwnCallsDecide(world, from);
    assert CallsOf(world, from) + [] == CallsOf(world, from);
  }

  /** A chain error is raised exactly when every call made failed; then every route was called. */
  lemma ErrorMeansAllFailed(world: World, n: nat)
    requires n >= 1
    ensures var trace, result := Trace(world, 0, n), ResultOf(world, 0, n);
      && (result.NoFallbacksConfigured? || result.Exhausted? <==> forall c :: c in trace ==> world(c).Failed?)
      && (result.NoFallbacksConfigured? || result.Exhausted? ==> forall i: nat :: i < n ==> Call(i, 0) in trace)
  {
    hide Classify;
    hide FinalOf;
    hide CallsOf;
    hide Trace;
    hide ResultOf;
    var trace, result := Trace(world, 0, n), ResultOf(world, 0, n);
    RunOutcome(world, 0, n);
    var last := trace[|trace| - 1];
    assert last in trace;
    ErrorExactly(world, 0, n);
    if AllFailed(world, 0, n) {
      forall i: nat | i < n ensures Call(i, 0) in trace { TraceMembers(world, 0, n, Call(i, 0)); }
      forall c | c in trace ensures world(c).Failed? {
        var i :| 0 <= i < |trace| && trace[i] == c;
      }
    }
  }

  /** The configuration-gap error is raised only without hops, and only when the last failure is not transient. */
  lemma GapErrorExactly(world: World, n: nat)
    requires n >= 1
    ensures ResultOf(world, 0, n).NoFallbacksConfigured?
            <==> n == 1 && FinalOf(world, 0).Failed? && !IsTransient(FinalOf(world, 0))
    ensures ResultOf(world, 0, n).Exhausted?
            <==> AllFailed(world, 0, n) && !(n == 1 && !IsTransient(FinalOf(world, 0)))
  {
    hide Classify;
    ErrorExactly(world, 0, n);
    assert n == 1 ==> (AllFailed(world, 0, n) <==> FinalOf(world, 0).Failed?);
    if n == 1 { SingleRoute(world); }
  }

  lemma SingleRoute(world: World)
    ensures FinalOf(world, 0).Failed? ==> ResultOf(world, 0, 1) == Surfaced(1, FinalOf(world, 0).message)
  {
  }

  lemma {:induction false} ErrorExactly(world: World, from: nat, n: nat)
    requires from < n
    ensures ResultOf(world, from, n).NoFallbacksConfigured? || ResultOf(world, from, n).Exhausted?
            <==> AllFailed(world, from, n)
    ensures n > 1 ==> !ResultOf(world, from, n).NoFallbacksConfigured?
    decreases n - from
  {
    hide Classify;
    if from + 1 < n { ErrorExactly(world, from + 1, n); }
    assert AllFailed(world, from, n) <==> FinalOf(world, from).Failed? && AllFailed(world, from + 1, n);
  }

  /** The inputs: a lone primary that times out twice is exhausted, one that is refused is a gap. */
  lemma GapInput()
    ensures ResultOf(_ => Failed("timed out"), 0, 1) == Exhausted(1, "timed out")
    ensures ResultOf(_ => Failed("refused"), 0, 1) == NoFallbacksConfigured("refused")
  {
    assert Lower("timed out") == "timed out" && Lower("refused") == "refused";
    assert StandsAt("timed out", "timed out", 0);
    NotIn("timed out", "401");
    NotIn("timed out", "403");
    NotIn("refused", "401");
    NotIn("refused", "403");
    NotIn("refused", "429");
    NotIn("refused", "timed out");
    hide Contains;
    hide Lower;
    assert Classify("timed out") == Transient && Classify("refused") == Permanent;
  }

  lemma NotIn(s: string, marker: string)
    requires marker != "" && marker[0] !in s
    ensures !Contains(s, marker)
  {
    forall i | 0 <= i <= |s| ensures !StandsAt(s, marker, i) {
      if i + |marker| <= |s| { assert s[i..i + |marker|][0] == s[i]; }
    }
  }

  // ------------------------------------------------------- the usage record

  /** The hop count recorded for an answer. */
  function HopsUsed(routes: seq<Route>, response: Response): (hops: nat)
    requires routes != []
    ensures hops < |routes|
  {
    if response.modelUsed == routes[0].model then 0
    else HopIndex(routes, response.modelUsed, 1)
  }

  function HopIndex(routes: seq<Route>, model: string, i: nat): (hops: nat)
    requires routes != [] && i <= |routes|
    ensures hops < |routes|
    decreases |routes| - i
  {
    if i == |routes| then 0
    else if routes[i].model == model then i
    else HopIndex(routes, model, i + 1)
  }

  /** The route an answer is attributed to. */
  function UsedRoute(routes: seq<Route>, response: Response): Route
    requires routes != []
  {
    FirstMatch(routes, routes[0], response.modelUsed)
  }

  function FirstMatch(routes: seq<Route>, fallback: Route, model: string): Route
    decreases |routes|
  {
    if routes == [] then fallback
    else if routes[0].model == model then routes[0]
    else FirstMatch(routes[1..], fallback, model)
  }

  ghost predicate NoneNamed(routes: seq<Route>, from: nat, to: nat, model: string)
    requires to <= |routes|
  {
    forall i :: from <= i < to ==> routes[i].model != model
  }

  lemma {:induction false} HopIndexIsFirst(routes: seq<Route>, model: string, i: nat)
    requires routes != [] && 1 <= i <= |routes|
    ensures var h := HopIndex(routes, model, i);
      if h == 0 then NoneNamed(routes, i, |routes|, model)
      else i <= h && routes[h].model == model && NoneNamed(routes, i, h, model)
    decreases |routes| - i
  {
    if i < |routes| && routes[i].model != model { HopIndexIsFirst(routes, model, i + 1); }
  }

  lemma {:induction false} FirstMatchIsFirst(routes: seq<Route>, fallback: Route, model: string, k: nat)
    requires k <= |routes| && NoneNamed(routes, 0, k, model)
    requires k < |routes| ==> routes[k].model == model
    ensures FirstMatch(routes, fallback, model) == if k < |routes| then routes[k] else fallback
    decreases |routes|
  {
    if k > 0 {
      assert routes[0].model != model;
      assert NoneNamed(routes[1..], 0, k - 1, model) by {
        forall i | 0 <= i < k - 1 ensures routes[1..][i].model != model { assert routes[1..][i] == routes[i + 1]; }
      }
      FirstMatchIsFirst(routes[1..], fallback, model, k - 1);
    }
  }

  /** The recorded hop count and the recorded route always name the same place in the chain. */
  lemma RecordIsConsistent(routes: seq<Route>, response: Response)
    requires routes != []
    ensures UsedRoute(routes, response) == routes[HopsUsed(routes, response)]
  {
    var model := response.modelUsed;
    if routes[0].model == model {
      FirstMatchIsFirst(routes, routes[0], model, 0);
    } else {
      HopIndexIsFirst(routes, model, 1);
      var h := HopIndex(routes, model, 1);
      var k := if h == 0 then |routes| else h;
      assert NoneNamed(routes, 0, k, model);
      FirstMatchIsFirst(routes, routes[0], model, k);
    }
  }

  /**
   An answer of hop `k` is recorded under `k` exactly when it names that hop's
   model and no earlier route shares it.
   */
  lemma HopRecordedExactly(routes: seq<Route>, response: Response, k: nat)
    requires 0 < k < |routes|
    ensures HopsUsed(routes, response) == k
            <==> routes[k].model == response.modelUsed && NoneNamed(routes, 0, k, response.modelUsed)
  {
    var model := response.modelUsed;
    HopIndexIsFirst(routes, model, 1);
    var h := HopsUsed(routes, response);
    if routes[k].model == model {
      if NoneNamed(routes, 0, k, model) {
        assert routes[0].model != model;
        FirstIsLeast(routes, model, 1, h, k);
        FirstIsLeast(routes, model, 0, k, h);
      }
    }
  }

  /** A matching position is not before the first one. */
  lemma FirstIsLeast(routes: seq<Route>, model: string, from: nat, h: nat, k: nat)
    requires k < |routes| && routes[k].model == model
    ensures from <= k && h <= |routes| && NoneNamed(routes, from, h, model) ==> h <= k
    ensures from <= k ==> !NoneNamed(routes, from, |routes|, model)
  {
  }

  /** An answer of the primary is recorded as such exactly when no hop alone bears the name it gives. */
  lemma PrimaryRecordedExactly(routes: seq<Route>, response: Response)
    requires routes != []
    ensures HopsUsed(routes, response) == 0
            <==> routes[0].model == response.modelUsed || NoneNamed(routes, 1, |routes|, response.modelUsed)
  {
    HopIndexIsFirst(routes, response.modelUsed, 1);
  }

  // ------------------------------------------------------------ one completion

  datatype Usage = Usage(model: string, version: string, hops: nat)

  datatype Completion = Blocked | Raised(error: ChainResult) | Completed(response: Response, hops: nat, usage: Usage)

  /** The provider answers under the model name it was asked for. */
  ghost predicate Echoes(world: World, routes: seq<Route>)
  {
    forall c: Call :: c.route < |routes| && world(c).Answered? ==> world(c).response.modelUsed == routes[c.route].model
  }

  ghost predicate DistinctModels(routes: seq<Route>)
  {
    forall i, j :: 0 <= i < j < |routes| ==> routes[i].model != routes[j].model
  }

  /** An answer as it is booked: under the hop count, model and version of the route it is attributed to. */
  function Booked(routes: seq<Route>, response: Response): Completion
    requires routes != []
  {
    var hops := HopsUsed(routes, response);
    Completed(response, hops, Usage(routes[hops].model, routes[hops].version, hops))
  }

  /** `h` is the place of the first route that bears the model's name, and the primary's where none does. */
  ghost predicate IsPlaceOf(routes: seq<Route>, model: string, h: nat)
  {
    && h < |routes|
    && ((routes[h].model == model && NoneNamed(routes, 0, h, model)) || (h == 0 && NoneNamed(routes, 0, |routes|, model)))
  }

  lemma PlaceExactly(routes: seq<Route>, response: Response)
    requires routes != []
    ensures IsPlaceOf(routes, response.modelUsed, HopsUsed(routes, response))
  {
    HopIndexIsFirst(routes, response.modelUsed, 1);
  }

  /** The response, and its usage under the model and version of one place in the chain. */
  ghost predicate IsBooked(routes: seq<Route>, response: Response, result: Completion)
  {
    && result.Completed? && result.response == response && result.usage.hops == result.hops
    && IsPlaceOf(routes, response.modelUsed, result.hops)
    && result.usage.model == routes[result.hops].model && result.usage.version == routes[result.hops].version
  }

  /** Budget gate, chain, then the usage record pinned to the route that is taken to have answered. */
  method Complete(withinBudget: bool, routes: seq<Route>, world: World) returns (result: Completion, trace: seq<Call>)
    requires routes != []
    ensures result.Blocked? <==> !withinBudget
    ensures trace == if withinBudget then Trace(world, 0, |routes|) else []
    ensures withinBudget && ResultOf(world, 0, |routes|).Success? ==>
              result == Booked(routes, ResultOf(world, 0, |routes|).response)
    ensures withinBudget && !ResultOf(world, 0, |routes|).Success? ==> result == Raised(ResultOf(world, 0, |routes|))
    ensures withinBudget ==>
              exists ran :: IsChainRun(world, |routes|, trace, ran)
                && (ran.Success? ==> IsBooked(routes, ran.response, result)) && (!ran.Success? ==> result == Raised(ran))
  {
    hide IsChainRun;
    hide IsPlaceOf;
    if !withinBudget {
      return Blocked, [];
    }
    var ran;
    ran, trace := RunChain(world, |routes|);
    if ran.Success? {
      var response := ran.response;
      var hops := HopsUsed(routes, response);
      var used := UsedRoute(routes, response);
      RecordIsConsistent(routes, response);
      PlaceExactly(routes, response);
      result := Completed(response, hops, Usage(used.model, used.version, hops));
    } else {
      result := Raised(ran);
    }
  }

  /** With distinct models echoed by the provider, the record names the route whose call was answered. */
  lemma RecordNamesTheAnswer(world: World, routes: seq<Route>)
    requires routes != [] && Echoes(world, routes) && DistinctModels(routes)
    requires ResultOf(world, 0, |routes|).Success?
    ensures
      var trace, response := Trace(world, 0, |routes|), ResultOf(world, 0, |routes|).response;
      && trace != [] && world(trace[|trace| - 1]) == Answered(response)
      && HopsUsed(routes, response) == trace[|trace| - 1].route
  {
    hide Classify;
    hide HopsUsed;
    hide Trace;
    hide ResultOf;
    hide FinalOf;
    var n := |routes|;
    var trace, response := Trace(world, 0, n), ResultOf(world, 0, n).response;
    RunOutcome(world, 0, n);
    var c := trace[|trace| - 1];
    assert world(c) == Answered(response);
    TraceMembers(world, 0, n, c);
    assert routes[c.route].model == response.modelUsed;
    if c.route == 0 { PrimaryRecordedExactly(routes, response); }
    else { HopRecordedExactly(routes, response, c.route); }
  }

  /** Two routes on one model: the answer of the second is booked to the first. */
  lemma SharedModelMisbooks(routes: seq<Route>, response: Response, i: nat, k: nat)
    requires i < k < |routes| && routes[i].model == routes[k].model == response.modelUsed
    ensures HopsUsed(routes, response) <= i
  {
    HopIndexIsFirst(routes, response.modelUsed, 1);
    FirstIsLeast(routes, response.modelUsed, 1, HopsUsed(routes, response), i);
  }
}
