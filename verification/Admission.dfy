/**
 What the two rate gates let through over serial runs of the whole service, as a special case of
 overlapping requests.
 */
module Admission {
  import opened Common
  import opened Conversation
  import opened TokenBucket
  import opened RateLimiter
  import opened Outbound
  import opened Service
  import opened KeyRuns
  import opened GateTrace
  import Overlap

  // ---------------------------------------------------------------- one check without interruption

  /** What an evaluation comes to for its caller. */
  function Seen(st: LimiterState, fate: Fate): Delivery {
    if Runs(st, fate) then fate.delivery else Lost
  }

  /** The steps of one check. */
  function CheckActions(st: LimiterState, i: nat, key: string, l: Limit, now: Instant,
                        w: Weather): seq<Overlap.Action> {
    var (loaded, ok) := EnsureScript(st, w.load);
    if !ok then [Overlap.Open(i, now), Overlap.GiveUp(i)]
    else
      var first := [Overlap.Open(i, now), Overlap.Evaluate(i, Seen(loaded, w.eval))];
      if Seen(loaded, w.eval).Answered? then first
      else
        var (reloaded, again) := EnsureScript(Eval(loaded, key, l, now, w.eval).0.(scriptSha := None), w.reload);
        first + [if again then Overlap.Evaluate(i, Seen(reloaded, w.retry)) else Overlap.GiveUp(i)]
  }

  /** The trace grew by runs that all read the clock at `now`. */
  predicate Adds(before: seq<Run>, after: seq<Run>, now: Instant) {
    |before| <= |after| && after[..|before|] == before && forall k :: |before| <= k < |after| ==> after[k].now == now
  }

  predicate EvaluatedAs(s: Overlap.State, e: Overlap.State, i: nat, v: Overlap.Visitor, buckets: map<string, Bucket>,
                        now: Instant) {
    && i < |s.visitors| && e.visitors == s.visitors[i := v] && e.buckets == buckets && Adds(s.trace, e.trace, now)
  }

  /** Where an evaluation leads the request. */
  function Evaluated(v: Overlap.Visitor, answer: Option<Answer>): Overlap.Visitor
    requires v.phase.Checking?
  {
    match answer
    case Some(a) => v.(phase := Overlap.Decided(v.phase.stage, a.allowed))
    case None => v.(phase := Overlap.Unanswered(v.phase))
  }

  lemma EvaluateIsEval(settings: Settings, s: Overlap.State, i: nat, st: LimiterState, fate: Fate)
    requires i < |s.visitors| && s.visitors[i].phase.Checking? && s.buckets == st.buckets
    ensures var v := s.visitors[i];
            var g := Overlap.GateAt(v, v.phase.stage);
            var (st', answer) := Eval(st, GateKey(g), GateLimit(settings, g), v.phase.now, fate);
            EvaluatedAs(s, Overlap.Next(settings, s, Overlap.Evaluate(i, Seen(st, fate))), i, Evaluated(v, answer),
                        st'.buckets, v.phase.now)
  {
    hide Check, GateKey, GateLimit;
    var e := Overlap.Next(settings, s, Overlap.Evaluate(i, Seen(st, fate)));
    assert e.trace[..|s.trace|] == s.trace;
  }

  lemma {:induction false} EndOfBoth(settings: Settings, s: Overlap.State, first: seq<Overlap.Action>,
                                     second: seq<Overlap.Action>)
    ensures Overlap.End(settings, s, first + second) == Overlap.End(settings, Overlap.End(settings, s, first), second)
    decreases |second|
  {
    hide Overlap.Next;
    if second == [] {
      assert first + second == first;
    } else {
      var rest, last := second[..|second| - 1], second[|second| - 1];
      EndOfBoth(settings, s, first, rest);
      Overlap.EndOneMore(settings, s, first + rest, last);
      assert first + second == (first + rest) + [last];
    }
  }

  /** Where a whole check leads the request. */
  function Checked(v: Overlap.Visitor, stage: Overlap.Stage, now: Instant, answer: Option<Answer>): Overlap.Visitor {
    Overlap.Opened(v, now).(phase := match answer
                                     case Some(a) => Overlap.Decided(stage, a.allowed)
                                     case None => Overlap.Crashed(stage))
  }

  /** A check that nobody interrupts is the limiter's check, reload and retry included. */
  lemma SoloCheck(settings: Settings, s: Overlap.State, i: nat, stage: Overlap.Stage, st: LimiterState, now: Instant,
                  w: Weather)
    requires i < |s.visitors| && s.buckets == st.buckets
    requires s.visitors[i].phase == if stage.AtActor? then Overlap.Arriving else Overlap.Between
    ensures var v := s.visitors[i];
            var g := Overlap.GateAt(v, stage);
            var (st', answer) := LimiterCheck(st, GateKey(g), GateLimit(settings, g), now, w);
            EvaluatedAs(s, Overlap.End(settings, s, CheckActions(st, i, GateKey(g), GateLimit(settings, g), now, w)),
                        i, Checked(v, stage, now, answer), st'.buckets, now)
  {
    hide Eval, GateKey, GateLimit, Overlap.End, Overlap.Next, Seen, Runs, EvaluatedAs, CheckActions, LimiterCheck;
    var g := Overlap.GateAt(s.visitors[i], stage);
    CheckUnfolds(st, i, GateKey(g), GateLimit(settings, g), now, w);
    var (loaded, ok) := EnsureScript(st, w.load);
    if !ok {
      OpenAndGiveUp(settings, s, i, stage, now);
    } else {
      OpenAndEvaluate(settings, s, i, stage, loaded, now, w.eval);
      var (tried, answer) := Eval(loaded, GateKey(g), GateLimit(settings, g), now, w.eval);
      if answer.None? {
        var first := [Overlap.Open(i, now), Overlap.Evaluate(i, Seen(loaded, w.eval))];
        var s2 := Overlap.End(settings, s, first);
        MovedVisitor(s, s2, i, Tried(s.visitors[i], stage, now, answer), tried.buckets, now);
        SecondTry(settings, s2, i, stage, tried, now, w);
        Overlap.EndOneMore(settings, s, first, LastAction(tried, i, w));
        TwoEvaluations(s, s2, Overlap.End(settings, s, first + [LastAction(tried, i, w)]), i,
                       Tried(s.visitors[i], stage, now, answer), tried.buckets, now);
      }
    }
  }

  /** The reload and the retry, or giving up when the reload fails. */
  function LastAction(tried: LimiterState, i: nat, w: Weather): Overlap.Action {
    var (reloaded, again) := EnsureScript(tried.(scriptSha := None), w.reload);
    if again then Overlap.Evaluate(i, Seen(reloaded, w.retry)) else Overlap.GiveUp(i)
  }

  function LastTry(tried: LimiterState, key: string, l: Limit, now: Instant, w: Weather): (LimiterState,
                   Option<Answer>) {
    var (reloaded, again) := EnsureScript(tried.(scriptSha := None), w.reload);
    if again then Eval(reloaded, key, l, now, w.retry) else (reloaded, None)
  }

  /** The request after its first evaluation. */
  function Tried(v: Overlap.Visitor, stage: Overlap.Stage, now: Instant, answer: Option<Answer>): Overlap.Visitor {
    Overlap.Opened(v, now).(phase := match answer
                                     case Some(a) => Overlap.Decided(stage, a.allowed)
                                     case None => Overlap.Checking(stage, now, true))
  }

  lemma CheckUnfolds(st: LimiterState, i: nat, key: string, l: Limit, now: Instant, w: Weather)
    ensures var (loaded, ok) := EnsureScript(st, w.load);
            var (tried, answer) := Eval(loaded, key, l, now, w.eval);
            var first := [Overlap.Open(i, now), Overlap.Evaluate(i, Seen(loaded, w.eval))];
            && LimiterCheck(st, key, l, now, w)
               == (if !ok then (loaded, None) else if answer.Some? then (tried, answer)
                 else LastTry(tried, key, l, now, w))
            && CheckActions(st, i, key, l, now, w)
               == (if !ok then [Overlap.Open(i, now), Overlap.GiveUp(i)]
                   else if answer.Some? then first else first + [LastAction(tried, i, w)])
  {
    hide Eval;
    var (loaded, ok) := EnsureScript(st, w.load);
    EvalIsOneRunOrNone(loaded, key, l, now, w.eval);
    SeenMeaning(loaded, w.eval);
  }

  lemma OpenAndGiveUp(settings: Settings, s: Overlap.State, i: nat, stage: Overlap.Stage, now: Instant)
    requires i < |s.visitors| && s.visitors[i].phase == if stage.AtActor? then Overlap.Arriving else Overlap.Between
    ensures EvaluatedAs(s, Overlap.End(settings, s, [Overlap.Open(i, now), Overlap.GiveUp(i)]), i,
                        Checked(s.visitors[i], stage, now, None), s.buckets, now)
  {
    hide Overlap.End, Overlap.Executed;
    Overlap.EndOneMore(settings, s, [], Overlap.Open(i, now));
    assert [] + [Overlap.Open(i, now)] == [Overlap.Open(i, now)];
    Overlap.EndOneMore(settings, s, [Overlap.Open(i, now)], Overlap.GiveUp(i));
    assert [Overlap.Open(i, now)] + [Overlap.GiveUp(i)] == [Overlap.Open(i, now), Overlap.GiveUp(i)];
  }

  lemma OpenAndEvaluate(settings: Settings, s: Overlap.State, i: nat, stage: Overlap.Stage, loaded: LimiterState,
                        now: Instant, fate: Fate)
    requires i < |s.visitors| && s.buckets == loaded.buckets
    requires s.visitors[i].phase == if stage.AtActor? then Overlap.Arriving else Overlap.Between
    ensures var g := Overlap.GateAt(s.visitors[i], stage);
            var (tried, answer) := Eval(loaded, GateKey(g), GateLimit(settings, g), now, fate);
            EvaluatedAs(s, Overlap.End(settings, s, [Overlap.Open(i, now), Overlap.Evaluate(i, Seen(loaded, fate))]), i,
                        Tried(s.visitors[i], stage, now, answer), tried.buckets, now)
  {
    hide Eval, GateKey, GateLimit, Overlap.End, Overlap.Executed, Seen;
    var actions, first := [Overlap.Open(i, now)], Overlap.Evaluate(i, Seen(loaded, fate));
    Overlap.EndOneMore(settings, s, [], Overlap.Open(i, now));
    assert [] + [Overlap.Open(i, now)] == actions;
    var s1 := Overlap.End(settings, s, actions);
    assert s1 == s.(visitors := s.visitors[i := Overlap.Opened(s.visitors[i], now)]);
    EvaluateIsEval(settings, s1, i, loaded, fate);
    Overlap.EndOneMore(settings, s, actions, first);
    assert actions + [first] == [Overlap.Open(i, now), first];
  }

  lemma MovedVisitor(s: Overlap.State, e: Overlap.State, i: nat, v: Overlap.Visitor, buckets: map<string, Bucket>,
                     now: Instant)
    requires EvaluatedAs(s, e, i, v, buckets, now)
    ensures i < |e.visitors| && e.visitors[i] == v && e.buckets == buckets
  {
  }

  lemma SecondTry(settings: Settings, s: Overlap.State, i: nat, stage: Overlap.Stage, tried: LimiterState, now: Instant,
                  w: Weather)
    requires i < |s.visitors| && s.buckets == tried.buckets && s.visitors[i].phase == Overlap.Checking(stage, now, true)
    ensures var v := s.visitors[i];
            var g := Overlap.GateAt(v, stage);
            var (st', answer) := LastTry(tried, GateKey(g), GateLimit(settings, g), now, w);
            EvaluatedAs(s, Overlap.Next(settings, s, LastAction(tried, i, w)), i,
                        v.(phase := match answer
                                    case Some(a) => Overlap.Decided(stage, a.allowed)
                                    case None => Overlap.Crashed(stage)), st'.buckets, now)
  {
    hide Eval, GateKey, GateLimit, Overlap.Executed, Seen;
    var (reloaded, again) := EnsureScript(tried.(scriptSha := None), w.reload);
    if again {
      EvaluateIsEval(settings, s, i, reloaded, w.retry);
    }
  }

  lemma TwoEvaluations(s: Overlap.State, s2: Overlap.State, e: Overlap.State, i: nat, v: Overlap.Visitor,
                       buckets: map<string, Bucket>, now: Instant)
    requires EvaluatedAs(s, s2, i, v, buckets, now)
    ensures forall v', buckets' :: EvaluatedAs(s2, e, i, v', buckets', now) ==> EvaluatedAs(s, e, i, v', buckets', now)
  {
    if |s2.trace| <= |e.trace| && e.trace[..|s2.trace|] == s2.trace {
      assert e.trace[..|s.trace|] == s2.trace[..|s.trace|];
      assert forall k :: 0 <= k < |s2.trace| ==> e.trace[k] == s2.trace[k];
    }
  }

  lemma SeenMeaning(st: LimiterState, fate: Fate)
    ensures Seen(st, fate).Answered? <==> Runs(st, fate) && fate.delivery.Answered?
  {
  }

  // ---------------------------------------------------------------- one request without interruption

  /** The request got as far as the gates. */
  predicate ReachesGates(w: World, req: Request, env: Env) {
    && EnvelopeError(req).None? && Claim(w.store.keys, req, env.clock).Proceed? && ConsentError(req, env).None?
  }

  function VisitorOf(req: Request): Overlap.Visitor {
    Overlap.Visitor(req.actorId, req.provider, Overlap.Arriving, 0.0, 0.0)
  }

  function ActorActions(settings: Settings, lim: LimiterState, req: Request, env: Env, i: nat): seq<Overlap.Action> {
    var g := ByActor(req.actorId);
    CheckActions(lim, i, GateKey(g), GateLimit(settings, g), env.clock.actorGate, env.actorWeather)
  }

  function ProviderActions(settings: Settings, lim: LimiterState, req: Request, env: Env, i: nat): seq<Overlap.Action> {
    var g := ByProvider(req.provider);
    CheckActions(lim, i, GateKey(g), GateLimit(settings, g), env.clock.providerGate, env.providerWeather)
  }

  /** The steps of one request at the gates. */
  function PostActions(c: Config, w: World, req: Request, env: Env, i: nat): seq<Overlap.Action> {
    if !ReachesGates(w, req, env) then []
    else
      var (lim, first) := ActorGate(w.limiter, c.settings, req, env);
      var actions := ActorActions(c.settings, w.limiter, req, env, i);
      if !first.Through? then actions
      else
        actions + ProviderActions(c.settings, lim, req, env, i)
        + [Overlap.Finish(i, PostEnding(c, w, req, env).response.Accepted?)]
  }

  /** The request is done with the gates, accepted exactly if its answer was, at the instants its clock gave. */
  predicate Settled(v: Overlap.Visitor, req: Request, env: Env, accepted: bool) {
    && v.actorId == req.actorId && v.provider == req.provider
    && !v.phase.Checking? && !v.phase.Between?
    && (v.phase == Overlap.Ended(true) <==> accepted)
    && (accepted ==> v.actorAt == env.clock.actorGate && v.providerAt == env.clock.providerGate)
  }

  /** The trace grew by runs in order of their clock readings. */
  predicate AddsInOrder(before: seq<Run>, after: seq<Run>, from: Instant, to: Instant) {
    && |before| <= |after| && after[..|before|] == before
    && (forall k :: |before| <= k < |after| ==> from <= after[k].now <= to)
    && (forall j, k :: |before| <= j <= k < |after| ==> after[j].now <= after[k].now)
  }

  lemma AddsTwice(a: seq<Run>, b: seq<Run>, c: seq<Run>, first: Instant, second: Instant, from: Instant, to: Instant)
    requires Adds(a, b, first) && Adds(b, c, second) && from <= first <= second <= to
    ensures AddsInOrder(a, c, from, to)
  {
    assert c[..|a|] == c[..|b|][..|a|];
    assert forall k :: 0 <= k < |b| ==> c[k] == c[..|b|][k];
  }

  lemma SoloPost(c: Config, w: World, req: Request, env: Env, i: nat, s: Overlap.State)
    requires c.settings.gatesOn && env.clock.Ordered() && i < |s.visitors|
    requires s.visitors[i] == VisitorOf(req) && s.buckets == w.limiter.buckets
    ensures var e := Overlap.End(c.settings, s, PostActions(c, w, req, env, i));
            && e.buckets == PostEnding(c, w, req, env).limiter.buckets
            && |e.visitors| == |s.visitors| && e.visitors == s.visitors[i := e.visitors[i]]
            && Settled(e.visitors[i], req, env, PostEnding(c, w, req, env).response.Accepted?)
            && AddsInOrder(s.trace, e.trace, env.clock.arrive, env.clock.persist)
  {
    hide LimiterCheck, CheckActions, Overlap.End, Overlap.Executed, Handle;
    if ReachesGates(w, req, env) {
      GatesBySteps(c, w, req, env, i, s);
    } else {
      StopsBeforeGates(c, w, req, env);
      Overlap.EndOneMore(c.settings, s, [], Overlap.GiveUp(i));
      assert s.visitors[i := s.visitors[i]] == s.visitors;
    }
  }

  lemma StopsBeforeGates(c: Config, w: World, req: Request, env: Env)
    requires !ReachesGates(w, req, env)
    ensures PostEnding(c, w, req, env).limiter == w.limiter && !PostEnding(c, w, req, env).response.Accepted?
  {
    hide Admit;
  }

  lemma GatesBySteps(c: Config, w: World, req: Request, env: Env, i: nat, s: Overlap.State)
    requires c.settings.gatesOn && env.clock.Ordered() && i < |s.visitors| && ReachesGates(w, req, env)
    requires s.visitors[i] == VisitorOf(req) && s.buckets == w.limiter.buckets
    ensures var e := Overlap.End(c.settings, s, PostActions(c, w, req, env, i));
            && e.buckets == PostEnding(c, w, req, env).limiter.buckets
            && |e.visitors| == |s.visitors| && e.visitors == s.visitors[i := e.visitors[i]]
            && Settled(e.visitors[i], req, env, PostEnding(c, w, req, env).response.Accepted?)
            && AddsInOrder(s.trace, e.trace, env.clock.arrive, env.clock.persist)
  {
    hide LimiterCheck, CheckActions, Overlap.End, Overlap.Executed, Persist, EnvelopeError, Claim, ConsentError;
    hide GateKey, ProviderPerMinute, PerMinute;
    var clock := env.clock;
    GateKeyScopes(c.settings, req);
    SoloCheck(c.settings, s, i, Overlap.AtActor, w.limiter, clock.actorGate, env.actorWeather);
    var one := ActorActions(c.settings, w.limiter, req, env, i);
    var s1 := Overlap.End(c.settings, s, one);
    var (lim, first) := ActorGate(w.limiter, c.settings, req, env);
    if !first.Through? {
      AddsTwice(s.trace, s1.trace, s1.trace, clock.actorGate, clock.actorGate, clock.arrive, clock.persist);
    } else {
      SoloCheck(c.settings, s1, i, Overlap.AtProvider, lim, clock.providerGate, env.providerWeather);
      var two := ProviderActions(c.settings, lim, req, env, i);
      var s2 := Overlap.End(c.settings, s1, two);
      EndOfBoth(c.settings, s, one, two);
      var last := Overlap.Finish(i, PostEnding(c, w, req, env).response.Accepted?);
      Overlap.EndOneMore(c.settings, s, one + two, last);
      AddsTwice(s.trace, s1.trace, s2.trace, clock.actorGate, clock.providerGate, clock.arrive, clock.persist);
    }
  }

  lemma GateKeyScopes(settings: Settings, req: Request)
    ensures GateKey(ByActor(req.actorId)) == ActorScope(req.actorId)
    ensures GateKey(ByProvider(req.provider)) == ProviderScope(req.provider)
    ensures GateLimit(settings, ByActor(req.actorId)) == PerMinute(settings.actorPerMinute)
    ensures GateLimit(settings, ByProvider(req.provider)) == PerMinute(ProviderPerMinute(settings, req.provider))
  {
  }

  // ---------------------------------------------------------------- serial runs

  /** One visitor for each step of the run; steps that are no requests never arrive. */
  function StepVisitor(step: Step): Overlap.Visitor {
    if step.Post? then VisitorOf(step.req) else Overlap.Visitor("", Postmark, Overlap.Arriving, 0.0, 0.0)
  }

  function Crowd(w: World, steps: seq<Step>): Overlap.State {
    Overlap.State(w.limiter.buckets, seq(|steps|, i requires 0 <= i < |steps| => StepVisitor(steps[i])), [])
  }

  /** What one step of a serial run does at the gates. */
  function StepActions(c: Config, w: World, steps: seq<Step>, n: nat): seq<Overlap.Action>
    requires n < |steps|
  {
    if steps[n].Post? then PostActions(c, At(c, w, steps, n), steps[n].req, steps[n].env, n) else []
  }

  function SerialActions(c: Config, w: World, steps: seq<Step>, n: nat): seq<Overlap.Action>
    requires n <= |steps|
  {
    if n == 0 then [] else SerialActions(c, w, steps, n - 1) + StepActions(c, w, steps, n - 1)
  }

  function SerialGates(c: Config, w: World, steps: seq<Step>, n: nat): Overlap.State
    requires n <= |steps|
  {
    Overlap.End(c.settings, Crowd(w, steps), SerialActions(c, w, steps, n))
  }

  predicate InClockOrder(trace: seq<Run>, clock: Instant) {
    && (forall k :: 0 <= k < |trace| ==> trace[k].now <= clock)
    && (forall j, k :: 0 <= j <= k < |trace| ==> trace[j].now <= trace[k].now)
  }

  predicate StepSettled(c: Config, w: World, steps: seq<Step>, k: nat, v: Overlap.Visitor)
    requires k < |steps|
  {
    if steps[k].Post? then Settled(v, steps[k].req, steps[k].env, AcceptedAt(c, w, steps, k))
      else v == StepVisitor(steps[k])
  }

  /** After n steps the gates have the service's buckets and know who was accepted and when it was checked. */
  predicate Mirrors(c: Config, w: World, clock: Instant, steps: seq<Step>, n: nat, s: Overlap.State)
    requires n <= |steps|
  {
    && s.buckets == At(c, w, steps, n).limiter.buckets && |s.visitors| == |steps|
    && (forall k :: 0 <= k < n ==> StepSettled(c, w, steps, k, s.visitors[k]))
    && (forall k :: n <= k < |steps| ==> s.visitors[k] == StepVisitor(steps[k]))
    && InClockOrder(s.trace, ClockAt(clock, steps, n))
  }

  lemma StepMirrors(c: Config, w: World, clock: Instant, steps: seq<Step>, n: nat, s: Overlap.State)
    requires Serial(clock, steps) && AllPossible(c, w, steps) && n < |steps| && c.settings.gatesOn
    requires Mirrors(c, w, clock, steps, n, s)
    ensures Mirrors(c, w, clock, steps, n + 1, Overlap.End(c.settings, s, StepActions(c, w, steps, n)))
  {
    hide Apply, PostActions, Overlap.End, Settled, AddsInOrder, InClockOrder, Possible;
    var before := At(c, w, steps, n);
    assert Possible(c, before, steps[n]);
    StepLimiter(c, before, steps[n]);
    if steps[n].Post? {
      SoloPost(c, before, steps[n].req, steps[n].env, n, s);
      var e := Overlap.End(c.settings, s, PostActions(c, before, steps[n].req, steps[n].env, n));
      OrderGoesOn(s.trace, e.trace, ClockAt(clock, steps, n), Starts(steps[n]), Ends(steps[n]));
    } else {
      Overlap.EndOneMore(c.settings, s, [], Overlap.GiveUp(n));
      LaterClock(s.trace, ClockAt(clock, steps, n), Ends(steps[n]));
    }
  }

  lemma StepLimiter(c: Config, w: World, step: Step)
    requires Possible(c, w, step)
    ensures Apply(c, w, step).limiter == if step.Post? then PostEnding(c, w, step.req, step.env).limiter else w.limiter
    ensures step.Post? ==> step.env.clock.Ordered()
  {
    hide Handle;
  }

  lemma LaterClock(trace: seq<Run>, clock: Instant, later: Instant)
    requires InClockOrder(trace, clock) && clock <= later
    ensures InClockOrder(trace, later)
  {
  }

  lemma OrderGoesOn(before: seq<Run>, after: seq<Run>, clock: Instant, from: Instant, to: Instant)
    requires InClockOrder(before, clock) && AddsInOrder(before, after, from, to) && clock <= from <= to
    ensures InClockOrder(after, to)
  {
    assert forall k :: 0 <= k < |before| ==> after[k] == after[..|before|][k];
  }

  /** A serial run is an overlapping run in which nobody interrupts anybody. */
  lemma {:induction false} SerialIsOverlapping(c: Config, w: World, clock: Instant, steps: seq<Step>, n: nat)
    requires Serial(clock, steps) && AllPossible(c, w, steps) && n <= |steps| && c.settings.gatesOn
    ensures Mirrors(c, w, clock, steps, n, SerialGates(c, w, steps, n))
  {
    hide Mirrors, At, Overlap.End, AllPossible, Serial, StepActions, Crowd;
    if n == 0 {
      CrowdMirrors(c, w, clock, steps);
    } else {
      SerialIsOverlapping(c, w, clock, steps, n - 1);
      StepMirrors(c, w, clock, steps, n - 1, SerialGates(c, w, steps, n - 1));
      EndOfBoth(c.settings, Crowd(w, steps), SerialActions(c, w, steps, n - 1), StepActions(c, w, steps, n - 1));
    }
  }

  lemma CrowdMirrors(c: Config, w: World, clock: Instant, steps: seq<Step>)
    ensures Mirrors(c, w, clock, steps, 0, SerialGates(c, w, steps, 0))
  {
    Overlap.EndOneMore(c.settings, Crowd(w, steps), [], Overlap.GiveUp(0));
  }

  // ---------------------------------------------------------------- the bound

  predicate Concerns(g: Gate, req: Request) {
    match g
    case ByActor(actorId) => req.actorId == actorId
    case ByProvider(p) => req.provider == p
  }

  /** When the request checks the gate. */
  function CheckedAt(g: Gate, env: Env): Instant {
    if g.ByActor? then env.clock.actorGate else env.clock.providerGate
  }

  /** Step n is an accepted request that passed this gate between the two instants. */
  predicate Admits(c: Config, w: World, steps: seq<Step>, n: nat, g: Gate, from: Instant, to: Instant)
    requires n < |steps|
  {
    AcceptedAt(c, w, steps, n) && Concerns(g, steps[n].req) && from <= CheckedAt(g, steps[n].env) <= to
  }

  function Admitted(c: Config, w: World, steps: seq<Step>, n: nat, g: Gate, from: Instant, to: Instant): nat
    requires n <= |steps|
  {
    if n == 0 then 0
    else Admitted(c, w, steps, n - 1, g, from, to) + (if Admits(c, w, steps, n - 1, g, from, to) then 1 else 0)
  }

  lemma {:induction false} AdmittedVisitors(c: Config, w: World, steps: seq<Step>, n: nat, vs: seq<Overlap.Visitor>,
                                            g: Gate, from: Instant, to: Instant)
    requires n <= |steps| == |vs| && forall k :: 0 <= k < |vs| ==> StepSettled(c, w, steps, k, vs[k])
    ensures CountIf(vs[..n], Overlap.Admitted(g, from, to)) == Admitted(c, w, steps, n, g, from, to)
  {
    if n > 0 {
      hide AcceptedAt;
      AdmittedVisitors(c, w, steps, n - 1, vs, g, from, to);
      assert vs[..n][..n - 1] == vs[..n - 1];
      assert StepSettled(c, w, steps, n - 1, vs[n - 1]);
      NotPostNotAccepted(c, w, steps, n - 1);
    }
  }

  lemma NotPostNotAccepted(c: Config, w: World, steps: seq<Step>, n: nat)
    requires n < |steps|
    ensures AcceptedAt(c, w, steps, n) ==> steps[n].Post?
  {
  }

  lemma {:induction false} OrderedInstants(trace: seq<Run>, clock: Instant, g: Gate)
    requires InClockOrder(trace, clock)
    ensures Nondecreasing(Instants(trace, g)) && forall k :: 0 <= k < |Instants(trace, g)| ==>
        Instants(trace, g)[k] <= clock
  {
    if trace != [] {
      OrderedInstants(trace[..|trace| - 1], trace[|trace| - 1].now, g);
    }
  }

  lemma SerialOutcome(c: Config, w: World, clock: Instant, steps: seq<Step>, g: Gate)
    requires Serial(clock, steps) && AllPossible(c, w, steps) && c.settings.gatesOn
    ensures Overlap.Fresh(Crowd(w, steps)) && Crowd(w, steps).buckets == w.limiter.buckets
    ensures var s := SerialGates(c, w, steps, |steps|);
            && Nondecreasing(Instants(s.trace, g)) && |s.visitors| == |steps|
            && forall k :: 0 <= k < |steps| ==> StepSettled(c, w, steps, k, s.visitors[k])
  {
    SerialIsOverlapping(c, w, clock, steps, |steps|);
    hide At, AllPossible, Serial, Overlap.End, StepSettled, InClockOrder;
    OrderedInstants(SerialGates(c, w, steps, |steps|).trace, ClockAt(clock, steps, |steps|), g);
  }

  /**
   Over any serial run with the gates on: the accepted requests that pass one provider's gate, or one
   actor's, between two instants number at most the per-minute limit plus a sixtieth of it per second.
   */
  lemma AdmissionBound(c: Config, w: World, clock: Instant, steps: seq<Step>, g: Gate, from: Instant, to: Instant)
    requires Serial(clock, steps) && AllPossible(c, w, steps) && from <= to && c.settings.gatesOn
    requires NonNegative(BucketOf(w.limiter.buckets, g))
    ensures var n := match g
                     case ByActor(_) => c.settings.actorPerMinute
                     case ByProvider(Postmark) => c.settings.postmarkPerMinute
                     case ByProvider(Signalwire) => c.settings.signalwirePerMinute
                     case ByProvider(Fbmessenger) => c.settings.fbmessengerPerMinute
                     case ByProvider(Instagram) => c.settings.instagramPerMinute;
            Admitted(c, w, steps, |steps|, g, from, to) as real <= Allowance(n, to - from)
  {
    hide At, AllPossible, Serial, Admitted, Overlap.End, StepSettled, CountIf, Nondecreasing, Overlap.Fresh, Crowd;
    hide Allowance;
    var s := SerialGates(c, w, steps, |steps|);
    SerialOutcome(c, w, clock, steps, g);
    Overlap.OverlappingBound(c.settings, Crowd(w, steps), SerialActions(c, w, steps, |steps|), g, from, to);
    AdmittedVisitors(c, w, steps, |steps|, s.visitors, g, from, to);
    assert s.visitors[..|steps|] == s.visitors;
  }

  // ---------------------------------------------------------------- bursts

  /**
   Requests of a new actor at one instant: the actor's gate lets the first ones through, as many as its
   setting says.
   */
  lemma ActorBurst(lim: LimiterState, settings: Settings, req: Request, env: Env, k: nat)
    requires settings.gatesOn && "actor:" + req.actorId !in lim.buckets && Calm(env.actorWeather)
    ensures var n := settings.actorPerMinute as real;
            var busy := AfterChecks(lim, "actor:" + req.actorId, LimitParams(n, n / 60.0), env.clock.actorGate,
                                    env.actorWeather, k);
            var verdict := Gates(busy, settings, req, env).1;
            verdict.Blocked? && verdict.scope == "actor" <==> k >= settings.actorPerMinute
  {
    hide LimiterCheck, AfterChecks, PerMinute;
    var n := settings.actorPerMinute;
    LimitWritten(n);
    Burst(lim, "actor:" + req.actorId, n, env.clock.actorGate, env.actorWeather, k);
    assert "actor" != "provider" by {
      assert "actor"[0] == 'a' && "provider"[0] == 'p';
    }
  }

  /**
   Requests for an unused provider at one instant, each from a new actor: as many pass as the provider's
   setting says.
   */
  lemma ProviderBurst(lim: LimiterState, settings: Settings, req: Request, env: Env, k: nat)
    requires settings.gatesOn && "actor:" + req.actorId !in lim.buckets && ProviderScope(req.provider) !in lim.buckets
    requires Calm(env.actorWeather) && Calm(env.providerWeather)
    ensures var m := match req.provider
                     case Postmark => settings.postmarkPerMinute
                     case Signalwire => settings.signalwirePerMinute
                     case Fbmessenger => settings.fbmessengerPerMinute
                     case Instagram => settings.instagramPerMinute;
            var busy := AfterChecks(lim, ProviderScope(req.provider), LimitParams(m as real, m as real / 60.0),
                                    env.clock.providerGate, env.providerWeather, k);
            Gates(busy, settings, req, env).1.Through? <==> k < m
  {
    hide LimiterCheck, AfterChecks, Check, PerMinute;
    var m := ProviderPerMinute(settings, req.provider);
    var key, l := ProviderScope(req.provider), PerMinute(m);
    var actorKey, actorLimit := ActorScope(req.actorId), PerMinute(settings.actorPerMinute);
    LimitWritten(m);
    Burst(lim, key, m, env.clock.providerGate, env.providerWeather, k);
    var busy := AfterChecks(lim, key, l, env.clock.providerGate, env.providerWeather, k);
    GateKeysDiffer(ByActor(req.actorId), ByProvider(req.provider));
    assert Lookup(busy.buckets, actorKey) == Lookup(lim.buckets, actorKey);
    Burst(busy, actorKey, settings.actorPerMinute, env.clock.actorGate, env.actorWeather, 0);
    NoChecks(busy, actorKey, actorLimit, env.clock.actorGate, env.actorWeather);
    ScriptLossIsInvisible(busy, actorKey, actorLimit, env.clock.actorGate, env.actorWeather);
    var (lim1, first) := LimiterCheck(busy, actorKey, actorLimit, env.clock.actorGate, env.actorWeather);
    ScriptLossIsInvisible(busy, key, l, env.clock.providerGate, env.providerWeather);
    ScriptLossIsInvisible(lim1, key, l, env.clock.providerGate, env.providerWeather);
  }

  lemma LimitWritten(n: nat)
    requires n >= 1
    ensures PerMinute(n) == LimitParams(n as real, n as real / 60.0)
  {
  }

  // ---------------------------------------------------------------- the header

  /** No bucket ever owes a token, at any point of a serial run. */
  lemma BucketsStayNonNegative(c: Config, w: World, clock: Instant, steps: seq<Step>, n: nat, g: Gate)
    requires Serial(clock, steps) && AllPossible(c, w, steps) && n <= |steps| && c.settings.gatesOn
    requires NonNegative(BucketOf(w.limiter.buckets, g))
    ensures NonNegative(BucketOf(At(c, w, steps, n).limiter.buckets, g))
  {
    SerialIsOverlapping(c, w, clock, steps, n);
    Overlap.EndIsTraced(c.settings, Crowd(w, steps), SerialActions(c, w, steps, n), g);
    AfterNonNegative(GateLimit(c.settings, g), BucketOf(w.limiter.buckets, g),
      Instants(SerialGates(c, w, steps, n).trace, g));
  }

  /** The limit of the gate that refused. */
  function RefusingLimit(settings: Settings, req: Request, scope: string): nat {
    GatePerMinute(settings, if scope == "actor" then ByActor(req.actorId) else ByProvider(req.provider))
  }

  lemma BlockedHeader(lim: LimiterState, g: Gate, settings: Settings, now: Instant, weather: Weather)
    requires NonNegative(BucketOf(lim.buckets, g))
    ensures var answer := LimiterCheck(lim, GateKey(g), GateLimit(settings, g), now, weather).1;
            answer.Some? && !answer.value.allowed ==>
              1 <= Ceil(answer.value.retryAfter) <= Ceil(60.0 / GatePerMinute(settings, g) as real)
  {
    hide LimiterCheck, Check;
    var answer := LimiterCheck(lim, GateKey(g), GateLimit(settings, g), now, weather).1;
    if answer.Some? && !answer.value.allowed {
      var seen := AnswerIsOneRun(lim, GateKey(g), GateLimit(settings, g), now, weather);
      RetryAfterHeader(GatePerMinute(settings, g), seen, now);
    }
  }

  lemma HeaderOfPost(c: Config, w: World, req: Request, env: Env)
    requires c.settings.gatesOn && PostEnding(c, w, req, env).response.RateLimited?
    requires NonNegative(BucketOf(w.limiter.buckets, ByActor(req.actorId)))
    requires NonNegative(BucketOf(w.limiter.buckets, ByProvider(req.provider)))
    ensures var r := PostEnding(c, w, req, env).response;
            1 <= r.header <= Ceil(60.0 / RefusingLimit(c.settings, req, r.scope) as real)
  {
    hide LimiterCheck, Persist, GateKey, GateLimit, GatePerMinute, ProviderPerMinute, PerMinute;
    var actor, provider := ByActor(req.actorId), ByProvider(req.provider);
    GateKeyScopes(c.settings, req);
    BlockedHeader(w.limiter, actor, c.settings, env.clock.actorGate, env.actorWeather);
    var (lim, first) := ActorGate(w.limiter, c.settings, req, env);
    GateKeysDiffer(actor, provider);
    var runs := CheckIsFewRuns(w.limiter, GateKey(actor), GateLimit(c.settings, actor), env.clock.actorGate,
        env.actorWeather);
    assert BucketOf(lim.buckets, provider) == BucketOf(w.limiter.buckets, provider);
    BlockedHeader(lim, provider, c.settings, env.clock.providerGate, env.providerWeather);
  }

  /**
   Every 429 of a run announces a whole number of seconds between 1 and ceil(60 / n), n being the limit
   that refused.
   */
  lemma RateLimitedHeader(c: Config, w: World, clock: Instant, steps: seq<Step>, n: nat)
    requires Serial(clock, steps) && AllPossible(c, w, steps) && n < |steps| && c.settings.gatesOn
    requires forall g: Gate :: NonNegative(BucketOf(w.limiter.buckets, g))
    requires steps[n].Post? && ResponseAt(c, w, steps, n).RateLimited?
    ensures var r := ResponseAt(c, w, steps, n);
            1 <= r.header <= Ceil(60.0 / RefusingLimit(c.settings, steps[n].req, r.scope) as real)
  {
    hide Handle, BucketOf, RefusingLimit;
    BucketsStayNonNegative(c, w, clock, steps, n, ByActor(steps[n].req.actorId));
    BucketsStayNonNegative(c, w, clock, steps, n, ByProvider(steps[n].req.provider));
    HeaderOfPost(c, At(c, w, steps, n), steps[n].req, steps[n].env);
  }

  // ---------------------------------------------------------------- the accounts

  function AcceptedCount(c: Config, w: World, steps: seq<Step>, n: nat): nat
    requires n <= |steps|
  {
    if n == 0 then 0 else AcceptedCount(c, w, steps, n - 1) + (if AcceptedAt(c, w, steps, n - 1) then 1 else 0)
  }

  lemma {:induction false} AcceptedVisitors(c: Config, w: World, steps: seq<Step>, n: nat, vs: seq<Overlap.Visitor>)
    requires n <= |steps| == |vs| && forall k :: 0 <= k < |vs| ==> StepSettled(c, w, steps, k, vs[k])
    ensures CountIf(vs[..n], Overlap.AcceptedVisitors()) == AcceptedCount(c, w, steps, n)
  {
    if n > 0 {
      hide AcceptedAt;
      AcceptedVisitors(c, w, steps, n - 1, vs);
      assert vs[..n][..n - 1] == vs[..n - 1];
      assert StepSettled(c, w, steps, n - 1, vs[n - 1]);
      NotPostNotAccepted(c, w, steps, n - 1);
    }
  }

  /**
   The accounts of a serial run, read off its trace of script answers: the permissions of the actor
   gates are the permissions and denials of the provider gates and the requests whose provider check
   raised; and the accepted requests are among the provider gates' permissions.
   */
  lemma GateAccounting(c: Config, w: World, clock: Instant, steps: seq<Step>)
    requires Serial(clock, steps) && AllPossible(c, w, steps) && c.settings.gatesOn
    ensures var e := SerialGates(c, w, steps, |steps|);
            && CountIf(e.trace, Overlap.InTrace(Overlap.ActorGrants))
               == CountIf(e.trace, Overlap.InTrace(Overlap.ProviderGrants))
                  + CountIf(e.trace, Overlap.InTrace(Overlap.ProviderDenials))
                  + CountIf(e.visitors, Overlap.CrashedAtProvider())
            && AcceptedCount(c, w, steps, |steps|) <= CountIf(e.trace, Overlap.InTrace(Overlap.ProviderGrants))
  {
    hide At, AllPossible, Serial, AcceptedCount, Overlap.End, AcceptedAt, Overlap.Fresh, Crowd;
    var e := SerialGates(c, w, steps, |steps|);
    SerialOutcome(c, w, clock, steps, ByProvider(Postmark));
    CountNone(e.visitors, Overlap.InFlight());
    AcceptedVisitors(c, w, steps, |steps|, e.visitors);
    assert e.visitors[..|steps|] == e.visitors;
    hide CountIf;
    Overlap.GatesConserve(c.settings, Crowd(w, steps), SerialActions(c, w, steps, |steps|));
  }
}
