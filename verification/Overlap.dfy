/**
 Any number of requests at the two rate gates at once. A check reads the clock, and then its script
 reaches Redis at most twice, with any other request's steps in between: only the script is atomic.
 */
module Overlap {
  import opened Common
  import opened Conversation
  import opened TokenBucket
  import opened RateLimiter
  import opened Outbound
  import opened GateTrace

  datatype Stage = AtActor | AtProvider

  /** How far a request is; `Between` has passed the actor's gate and not yet turned to the provider's. */
  datatype Phase =
    | Arriving
    | Checking(stage: Stage, now: Instant, retrying: bool)
    | Between
    | Passed
    | TurnedAway(stage: Stage)
    | Crashed(stage: Stage)
    | Ended(accepted: bool)

  /** A request, and when it read the clock for each gate. */
  datatype Visitor = Visitor(actorId: string, provider: Provider, phase: Phase, actorAt: Instant, providerAt: Instant)

  datatype State = State(buckets: map<string, Bucket>, visitors: seq<Visitor>, trace: seq<Run>)

  /** `GiveUp` is a failing load of the script; a lost evaluation is one that did not run. */
  datatype Action =
    | Open(i: nat, now: Instant)
    | Evaluate(i: nat, delivery: Delivery)
    | GiveUp(i: nat)
    | Finish(i: nat, accepted: bool)

  function GateAt(v: Visitor, stage: Stage): Gate {
    match stage
    case AtActor => ByActor(v.actorId)
    case AtProvider => ByProvider(v.provider)
  }

  function CheckedAt(v: Visitor, g: Gate): Instant {
    if g.ByActor? then v.actorAt else v.providerAt
  }

  predicate Enabled(s: State, a: Action) {
    && a.i < |s.visitors|
    && match a
       case Open(i, _) => s.visitors[i].phase.Arriving? || s.visitors[i].phase.Between?
       case Evaluate(i, _) => s.visitors[i].phase.Checking?
       case GiveUp(i) => s.visitors[i].phase.Checking?
       case Finish(i, _) => s.visitors[i].phase.Passed?
  }

  function Opened(v: Visitor, now: Instant): Visitor {
    if v.phase.Arriving? then v.(phase := Checking(AtActor, now, false), actorAt := now)
    else v.(phase := Checking(AtProvider, now, false), providerAt := now)
  }

  /** Where an answered check leads. */
  function Decided(stage: Stage, allowed: bool): Phase {
    if !allowed then TurnedAway(stage) else if stage.AtActor? then Between else Passed
  }

  /** Where a check without an answer leads: to the one retry, or to an exception. */
  function Unanswered(p: Phase): Phase
    requires p.Checking?
  {
    if p.retrying then Crashed(p.stage) else p.(retrying := true)
  }

  /** One run of the script for a request that is checking. */
  function Executed(settings: Settings, s: State, i: nat, replied: bool): State
    requires i < |s.visitors| && s.visitors[i].phase.Checking?
  {
    var v := s.visitors[i];
    var g := GateAt(v, v.phase.stage);
    var (bucket, answer) := Check(GateLimit(settings, g), BucketOf(s.buckets, g), v.phase.now);
    State(s.buckets[GateKey(g) := bucket],
          s.visitors[i := v.(phase := if replied then Decided(v.phase.stage, answer.allowed) else Unanswered(v.phase))],
          s.trace + [Run(g, v.phase.now, answer, replied)])
  }

  /** What is not enabled does not happen. */
  function Next(settings: Settings, s: State, a: Action): State {
    if !Enabled(s, a) then s
    else
      var v := s.visitors[a.i];
      match a
      case Open(i, now) => s.(visitors := s.visitors[i := Opened(v, now)])
      case Evaluate(i, delivery) =>
        if delivery.Lost? then s.(visitors := s.visitors[i := v.(phase := Unanswered(v.phase))])
        else Executed(settings, s, i, delivery.Answered?)
      case GiveUp(i) => s.(visitors := s.visitors[i := v.(phase := Crashed(v.phase.stage))])
      case Finish(i, accepted) => s.(visitors := s.visitors[i := v.(phase := Ended(accepted))])
  }

  function End(settings: Settings, s: State, actions: seq<Action>): State {
    if actions == [] then s
    else Next(settings, End(settings, s, actions[..|actions| - 1]), actions[|actions| - 1])
  }

  /** Requests that have not come to the gates yet. */
  predicate Fresh(s: State) {
    s.trace == [] && forall i :: 0 <= i < |s.visitors| ==> s.visitors[i].phase.Arriving?
  }

  // ---------------------------------------------------------------- the trace explains the buckets

  predicate Traced(settings: Settings, start: map<string, Bucket>, s: State, g: Gate) {
    Explains(GateLimit(settings, g), BucketOf(start, g), s.trace, BucketOf(s.buckets, g), g)
  }

  lemma NextIsTraced(settings: Settings, start: map<string, Bucket>, s: State, a: Action, g: Gate)
    requires Traced(settings, start, s, g)
    ensures Traced(settings, start, Next(settings, s, a), g)
  {
    hide Check, Explains, GateKey;
    if Enabled(s, a) && a.Evaluate? && !a.delivery.Lost? {
      var v, s' := s.visitors[a.i], Next(settings, s, a);
      var mine := GateAt(v, v.phase.stage);
      GateKeysDiffer(mine, g);
      ExplainsNext(GateLimit(settings, g), BucketOf(start, g), s.trace, BucketOf(s.buckets, g), g, s'.trace[|s.trace|]);
    }
  }

  lemma {:induction false} EndIsTraced(settings: Settings, s: State, actions: seq<Action>, g: Gate)
    requires s.trace == []
    ensures Traced(settings, s.buckets, End(settings, s, actions), g)
  {
    if actions == [] {
      NothingToExplain(GateLimit(settings, g), BucketOf(s.buckets, g), g);
    } else {
      hide Next, Traced;
      EndIsTraced(settings, s, actions[..|actions| - 1], g);
      NextIsTraced(settings, s.buckets, End(settings, s, actions[..|actions| - 1]), actions[|actions| - 1], g);
    }
  }

  /** A denial announces a whole number of seconds between 1 and ceil(60 / n), n being the gate's limit. */
  predicate Announces(settings: Settings, run: Run) {
    !run.answer.allowed ==>
      1 <= Ceil(run.answer.retryAfter) <= Ceil(60.0 / GatePerMinute(settings, run.gate) as real)
  }

  predicate AllAnnounce(settings: Settings, trace: seq<Run>) {
    forall k :: 0 <= k < |trace| ==> Announces(settings, trace[k])
  }

  ghost predicate NobodyOwes(s: State) {
    forall g: Gate :: NonNegative(BucketOf(s.buckets, g))
  }

  lemma NextAnnounces(settings: Settings, s: State, a: Action)
    requires NobodyOwes(s) && AllAnnounce(settings, s.trace)
    ensures NobodyOwes(Next(settings, s, a)) && AllAnnounce(settings, Next(settings, s, a).trace)
  {
    if Enabled(s, a) && a.Evaluate? && !a.delivery.Lost? {
      hide Check, GateKey, GatePerMinute, PerMinute;
      var v := s.visitors[a.i];
      var mine := GateAt(v, v.phase.stage);
      var b, l := BucketOf(s.buckets, mine), GateLimit(settings, mine);
      CheckKeepsRange(l, b, v.phase.now);
      if !Check(l, b, v.phase.now).1.allowed {
        RetryAfterHeader(GatePerMinute(settings, mine), b, v.phase.now);
      }
      forall g: Gate
        ensures NonNegative(BucketOf(Next(settings, s, a).buckets, g))
      {
        GateKeysDiffer(mine, g);
        assert NonNegative(BucketOf(s.buckets, g));
      }
    }
  }

  /** Under any interleaving, no bucket ever owes a token and every denial announces a delay within its limit. */
  lemma {:induction false} DenialsAnnounce(settings: Settings, s: State, actions: seq<Action>)
    requires Fresh(s) && NobodyOwes(s)
    ensures NobodyOwes(End(settings, s, actions)) && AllAnnounce(settings, End(settings, s, actions).trace)
  {
    if actions != [] {
      hide Next, NobodyOwes, AllAnnounce;
      DenialsAnnounce(settings, s, actions[..|actions| - 1]);
      NextAnnounces(settings, End(settings, s, actions[..|actions| - 1]), actions[|actions| - 1]);
    }
  }

  // ---------------------------------------------------------------- conservation

  /** What can be counted both in the trace of answers and among the requests. */
  datatype Question =
    | LetBy(gate: Gate, from: Instant, to: Instant)
    | LetByEver(gate: Gate)
    | ActorGrants
    | ProviderGrants
    | ProviderDenials

  predicate OnRun(q: Question, run: Run) {
    run.replied &&
    match q
    case LetBy(g, from, to) => TakesWithin(run, g, from, to)
    case LetByEver(g) => run.gate == g && run.answer.allowed
    case ActorGrants => run.gate.ByActor? && run.answer.allowed
    case ProviderGrants => run.gate.ByProvider? && run.answer.allowed
    case ProviderDenials => run.gate.ByProvider? && !run.answer.allowed
  }

  predicate PastActor(p: Phase) {
    match p
    case Arriving => false
    case Checking(stage, _, _) => stage.AtProvider?
    case Between => true
    case Passed => true
    case TurnedAway(stage) => stage.AtProvider?
    case Crashed(stage) => stage.AtProvider?
    case Ended(_) => true
  }

  predicate PastProvider(p: Phase) {
    p.Passed? || p.Ended?
  }

  predicate PastGate(v: Visitor, g: Gate) {
    match g
    case ByActor(actorId) => v.actorId == actorId && PastActor(v.phase)
    case ByProvider(p) => v.provider == p && PastProvider(v.phase)
  }

  predicate OnVisitor(q: Question, v: Visitor) {
    match q
    case LetBy(g, from, to) => PastGate(v, g) && from <= CheckedAt(v, g) <= to
    case LetByEver(g) => PastGate(v, g)
    case ActorGrants => PastActor(v.phase)
    case ProviderGrants => PastProvider(v.phase)
    case ProviderDenials => v.phase == TurnedAway(AtProvider)
  }

  function InTrace(q: Question): Run -> bool {
    (run: Run) => OnRun(q, run)
  }

  function Among(q: Question): Visitor -> bool {
    (v: Visitor) => OnVisitor(q, v)
  }

  /** The trace and the requests agree on the question. */
  predicate Balanced(s: State, q: Question) {
    CountIf(s.trace, InTrace(q)) == CountIf(s.visitors, Among(q))
  }

  /** A request that is checking read the clock when it opened the check. */
  predicate ReadAt(v: Visitor) {
    v.phase.Checking? ==> v.phase.now == CheckedAt(v, GateAt(v, v.phase.stage))
  }

  predicate AllReadAt(s: State) {
    forall i :: 0 <= i < |s.visitors| ==> ReadAt(s.visitors[i])
  }

  lemma NextKeepsReadAt(settings: Settings, s: State, a: Action)
    requires AllReadAt(s)
    ensures AllReadAt(Next(settings, s, a))
  {
    hide Check;
  }

  /** A run of the script is what adds to the trace. */
  predicate RunsScript(a: Action) {
    a.Evaluate? && !a.delivery.Lost?
  }

  lemma OneStep(settings: Settings, s: State, a: Action)
    requires Enabled(s, a)
    ensures var s' := Next(settings, s, a);
            && |s'.visitors| == |s.visitors| && s'.visitors == s.visitors[a.i := s'.visitors[a.i]]
            && (if RunsScript(a) then |s'.trace| == |s.trace| + 1 && s'.trace == s.trace + [s'.trace[|s.trace|]]
                else s'.trace == s.trace)
  {
    hide Check;
  }

  lemma NextBalances(settings: Settings, s: State, a: Action, q: Question)
    requires Balanced(s, q) && AllReadAt(s)
    ensures Balanced(Next(settings, s, a), q)
  {
    if Enabled(s, a) {
      OneStep(settings, s, a);
      var s' := Next(settings, s, a);
      var v, v' := s.visitors[a.i], s'.visitors[a.i];
      hide Next, Enabled, CountIf, OnVisitor, OnRun;
      CountUpdate(s.visitors, a.i, v', Among(q));
      if RunsScript(a) {
        var run := s'.trace[|s.trace|];
        CountAppend(s.trace, run, InTrace(q));
        RunMovesVisitor(settings, s, a, q, v, v', run);
      } else {
        OtherStepsKeepVisitor(settings, s, a, q, v, v');
      }
    }
  }

  lemma OtherStepsKeepVisitor(settings: Settings, s: State, a: Action, q: Question, v: Visitor, v': Visitor)
    requires Enabled(s, a) && !RunsScript(a) && v == s.visitors[a.i]
    requires v' == Next(settings, s, a).visitors[a.i]
    ensures OnVisitor(q, v) <==> OnVisitor(q, v')
  {
    hide Executed, CountIf;
  }

  lemma RunMovesVisitor(settings: Settings, s: State, a: Action, q: Question, v: Visitor, v': Visitor, run: Run)
    requires Enabled(s, a) && RunsScript(a) && v == s.visitors[a.i] && ReadAt(v)
    requires v' == Next(settings, s, a).visitors[a.i] && run == Next(settings, s, a).trace[|s.trace|]
    ensures (if OnVisitor(q, v') then 1 else 0) == (if OnVisitor(q, v) then 1 else 0) + (if OnRun(q, run) then 1 else 0)
  {
    hide Check, CountIf;
  }

  lemma {:induction false} EndBalances(settings: Settings, s: State, actions: seq<Action>, q: Question)
    requires Fresh(s)
    ensures Balanced(End(settings, s, actions), q) && AllReadAt(End(settings, s, actions))
  {
    if actions == [] {
      CountNone(s.visitors, Among(q));
    } else {
      hide Balanced, AllReadAt, Next, Fresh;
      EndBalances(settings, s, actions[..|actions| - 1], q);
      NextBalances(settings, End(settings, s, actions[..|actions| - 1]), actions[|actions| - 1], q);
      NextKeepsReadAt(settings, End(settings, s, actions[..|actions| - 1]), actions[|actions| - 1]);
    }
  }

  predicate IsInFlight(p: Phase) {
    p.Between? || (p.Checking? && p.stage.AtProvider?)
  }

  function InFlight(): Visitor -> bool {
    (v: Visitor) => IsInFlight(v.phase)
  }

  function CrashedAtProvider(): Visitor -> bool {
    (v: Visitor) => v.phase == Crashed(AtProvider)
  }

  function Undecided(): Visitor -> bool {
    (v: Visitor) => IsInFlight(v.phase) || v.phase == Crashed(AtProvider)
  }

  function NotThrough(): Visitor -> bool {
    (v: Visitor) => IsInFlight(v.phase) || v.phase == Crashed(AtProvider) || v.phase == TurnedAway(AtProvider)
  }

  lemma ProviderOutcomes(v: Visitor)
    ensures Among(ActorGrants)(v) <==> Among(ProviderGrants)(v) || NotThrough()(v)
    ensures !(Among(ProviderGrants)(v) && NotThrough()(v))
    ensures NotThrough()(v) <==> Among(ProviderDenials)(v) || Undecided()(v)
    ensures !(Among(ProviderDenials)(v) && Undecided()(v))
  {
  }

  function AcceptedVisitors(): Visitor -> bool {
    (v: Visitor) => v.phase == Ended(true)
  }

  function OtherPasses(): Visitor -> bool {
    (v: Visitor) => v.phase.Passed? || v.phase == Ended(false)
  }

  /**
   Conservation under any interleaving: of the permissions that the actor gates answered, each is
   matched by a permission or a denial that a provider gate answered, by a request that broke at the
   provider's gate, or by one still on its way there; and the provider gates' permissions are the
   requests that were accepted or failed after both gates.
   */
  lemma GatesConserve(settings: Settings, s: State, actions: seq<Action>)
    requires Fresh(s)
    ensures var e := End(settings, s, actions);
            && CountIf(e.trace, InTrace(ActorGrants))
               == CountIf(e.trace, InTrace(ProviderGrants)) + CountIf(e.trace, InTrace(ProviderDenials))
                  + CountIf(e.visitors, CrashedAtProvider()) + CountIf(e.visitors, InFlight())
            && CountIf(e.trace, InTrace(ProviderGrants))
               == CountIf(e.visitors, AcceptedVisitors()) + CountIf(e.visitors, OtherPasses())
  {
    hide End, CountIf;
    EndBalances(settings, s, actions, ActorGrants);
    EndBalances(settings, s, actions, ProviderGrants);
    EndBalances(settings, s, actions, ProviderDenials);
    var vs := End(settings, s, actions).visitors;
    forall i | 0 <= i < |vs|
      ensures Among(ActorGrants)(vs[i]) <==> Among(ProviderGrants)(vs[i]) || NotThrough()(vs[i])
      ensures !(Among(ProviderGrants)(vs[i]) && NotThrough()(vs[i]))
      ensures NotThrough()(vs[i]) <==> Among(ProviderDenials)(vs[i]) || Undecided()(vs[i])
      ensures !(Among(ProviderDenials)(vs[i]) && Undecided()(vs[i]))
    {
      ProviderOutcomes(vs[i]);
    }
    CountSplit(vs, Among(ActorGrants), Among(ProviderGrants), NotThrough());
    CountSplit(vs, NotThrough(), Among(ProviderDenials), Undecided());
    CountSplit(vs, Undecided(), CrashedAtProvider(), InFlight());
    CountSplit(vs, Among(ProviderGrants), AcceptedVisitors(), OtherPasses());
  }

  /** A token that was taken for nobody: the run allowed, and its reply was lost. */
  function Wasted(g: Gate): Run -> bool {
    (run: Run) => run.gate == g && run.answer.allowed && !run.replied
  }

  /** Every token a gate gave out let one request by, or its reply was lost. */
  lemma TokensAreTraced(settings: Settings, s: State, actions: seq<Action>, g: Gate)
    requires Fresh(s)
    ensures var e := End(settings, s, actions);
            CountIf(e.trace, TakesEver(g)) == CountIf(e.visitors, Among(LetByEver(g))) + CountIf(e.trace, Wasted(g))
  {
    hide End, CountIf;
    EndBalances(settings, s, actions, LetByEver(g));
    CountSplit(End(settings, s, actions).trace, TakesEver(g), InTrace(LetByEver(g)), Wasted(g));
  }

  // ---------------------------------------------------------------- admission

  predicate Concerns(g: Gate, v: Visitor) {
    match g
    case ByActor(actorId) => v.actorId == actorId
    case ByProvider(p) => v.provider == p
  }

  /** Accepted requests whose check of the gate falls between the two instants. */
  function Admitted(g: Gate, from: Instant, to: Instant): Visitor -> bool {
    (v: Visitor) => v.phase == Ended(true) && Concerns(g, v) && from <= CheckedAt(v, g) <= to
  }

  function AdmittedEver(g: Gate): Visitor -> bool {
    (v: Visitor) => v.phase == Ended(true) && Concerns(g, v)
  }

  lemma LetByTook(settings: Settings, s: State, actions: seq<Action>, g: Gate, from: Instant, to: Instant)
    requires Fresh(s)
    ensures var e := End(settings, s, actions);
            && CountIf(e.visitors, Admitted(g, from, to)) <= CountIf(e.visitors, Among(LetBy(g, from, to)))
            && CountIf(e.visitors, Among(LetBy(g, from, to))) <= CountIf(e.trace, Takes(g, from, to))
  {
    hide End;
    var e, q := End(settings, s, actions), LetBy(g, from, to);
    EndBalances(settings, s, actions, q);
    CountMore(e.visitors, Admitted(g, from, to), Among(q));
    CountMore(e.trace, InTrace(q), Takes(g, from, to));
  }

  lemma AdmittedEverTook(settings: Settings, s: State, actions: seq<Action>, g: Gate)
    requires Fresh(s)
    ensures var e := End(settings, s, actions);
            CountIf(e.visitors, AdmittedEver(g)) <= CountIf(e.trace, TakesEver(g))
  {
    hide End;
    var e, q := End(settings, s, actions), LetByEver(g);
    EndBalances(settings, s, actions, q);
    CountMore(e.visitors, AdmittedEver(g), Among(q));
    CountMore(e.trace, InTrace(q), TakesEver(g));
  }

  /**
   Overlapping requests, any losses: when the runs on a gate reach Redis in the order of their clock
   readings, the requests that get past it with a check between two instants, and so the accepted
   ones among them, number at most its per-minute limit plus a sixtieth of it per second.
   */
  lemma OverlappingBound(settings: Settings, s: State, actions: seq<Action>, g: Gate, from: Instant, to: Instant)
    requires Fresh(s) && NonNegative(BucketOf(s.buckets, g)) && from <= to
    requires Nondecreasing(Instants(End(settings, s, actions).trace, g))
    ensures var n := match g
                     case ByActor(_) => settings.actorPerMinute
                     case ByProvider(Postmark) => settings.postmarkPerMinute
                     case ByProvider(Signalwire) => settings.signalwirePerMinute
                     case ByProvider(Fbmessenger) => settings.fbmessengerPerMinute
                     case ByProvider(Instagram) => settings.instagramPerMinute;
            var vs := End(settings, s, actions).visitors;
            && CountIf(vs, Admitted(g, from, to)) <= CountIf(vs, Among(LetBy(g, from, to)))
            && CountIf(vs, Among(LetBy(g, from, to))) as real <= Allowance(n, to - from)
  {
    hide End, CountIf, Explains, Allowance, Inflow, GateLimit, Nondecreasing;
    AllowanceOfLimit(settings, g, to - from);
    var e, l := End(settings, s, actions), GateLimit(settings, g);
    LetByTook(settings, s, actions, g, from, to);
    EndIsTraced(settings, s, actions, g);
    WindowTakes(l, BucketOf(s.buckets, g), e.trace, BucketOf(e.buckets, g), g, from, to);
  }

  /**
   And in whatever order they reach Redis: all accepted requests are within the limit plus the refill of
   that order's drift.
   */
  lemma OverlappingDrift(settings: Settings, s: State, actions: seq<Action>, g: Gate)
    requires Fresh(s) && NonNegative(BucketOf(s.buckets, g))
    ensures var e := End(settings, s, actions);
            var n := match g
                     case ByActor(_) => settings.actorPerMinute
                     case ByProvider(Postmark) => settings.postmarkPerMinute
                     case ByProvider(Signalwire) => settings.signalwirePerMinute
                     case ByProvider(Fbmessenger) => settings.fbmessengerPerMinute
                     case ByProvider(Instagram) => settings.instagramPerMinute;
            CountIf(e.visitors, AdmittedEver(g)) as real <= Allowance(n, Drift(Instants(e.trace, g)))
  {
    hide End, CountIf, Explains, Drift, Allowance, Inflow, GateLimit;
    var e, l := End(settings, s, actions), GateLimit(settings, g);
    AllowanceOfLimit(settings, g, Drift(Instants(e.trace, g)));
    AdmittedEverTook(settings, s, actions, g);
    EndIsTraced(settings, s, actions, g);
    DriftTakes(l, BucketOf(s.buckets, g), e.trace, BucketOf(e.buckets, g), g);
  }

  // ---------------------------------------------------------------- checks that do not overlap

  predicate NobodyChecks(s: State) {
    forall i :: 0 <= i < |s.visitors| ==> !s.visitors[i].phase.Checking?
  }

  /** The last clock reading. */
  function ClockAfter(clock: Instant, settings: Settings, s: State, actions: seq<Action>): Instant {
    if actions == [] then clock
    else
      var rest, last := actions[..|actions| - 1], actions[|actions| - 1];
      if last.Open? && Enabled(End(settings, s, rest), last) then last.now else ClockAfter(clock, settings, s, rest)
  }

  /** Requests overlap, their checks do not: one opens when no other is open, and the clock never goes back. */
  predicate OneCheckAtATime(clock: Instant, settings: Settings, s: State, actions: seq<Action>) {
    actions != [] ==>
      var rest, last := actions[..|actions| - 1], actions[|actions| - 1];
      && OneCheckAtATime(clock, settings, s, rest)
      && (last.Open? && Enabled(End(settings, s, rest), last) ==>
            NobodyChecks(End(settings, s, rest)) && ClockAfter(clock, settings, s, rest) <= last.now)
  }

  predicate OrderedUpTo(instants: seq<Instant>, clock: Instant) {
    Nondecreasing(instants) && forall k :: 0 <= k < |instants| ==> instants[k] <= clock
  }

  predicate ChecksReadAt(s: State, clock: Instant) {
    forall i :: 0 <= i < |s.visitors| && s.visitors[i].phase.Checking? ==> s.visitors[i].phase.now == clock
  }

  predicate InOrder(s: State, clock: Instant, g: Gate) {
    OrderedUpTo(Instants(s.trace, g), clock) && ChecksReadAt(s, clock)
  }

  lemma NextIsInOrder(settings: Settings, s: State, a: Action, clock: Instant, g: Gate)
    requires InOrder(s, clock, g)
    requires a.Open? && Enabled(s, a) ==> NobodyChecks(s) && clock <= a.now
    ensures InOrder(Next(settings, s, a), if a.Open? && Enabled(s, a) then a.now else clock, g)
  {
    hide Check, Instants, OrderedUpTo;
    var s' := Next(settings, s, a);
    if Enabled(s, a) {
      if a.Evaluate? && !a.delivery.Lost? {
        InstantsGrow(s.trace, s'.trace[|s.trace|], clock, g);
      } else if a.Open? {
        OrderedLater(Instants(s.trace, g), clock, a.now);
      }
    }
  }

  lemma InstantsGrow(trace: seq<Run>, run: Run, clock: Instant, g: Gate)
    requires OrderedUpTo(Instants(trace, g), clock) && run.now == clock
    ensures OrderedUpTo(Instants(trace + [run], g), clock)
  {
    assert (trace + [run])[..|trace|] == trace;
  }

  lemma OrderedLater(instants: seq<Instant>, clock: Instant, later: Instant)
    requires OrderedUpTo(instants, clock) && clock <= later
    ensures OrderedUpTo(instants, later)
  {
  }

  /** Checks that do not overlap reach Redis in the order of their clock readings. */
  lemma {:induction false} SeparateChecksAreInOrder(clock: Instant, settings: Settings, s: State, actions: seq<Action>,
                                                    g: Gate)
    requires Fresh(s) && OneCheckAtATime(clock, settings, s, actions)
    ensures InOrder(End(settings, s, actions), ClockAfter(clock, settings, s, actions), g)
  {
    if actions != [] {
      hide Next, InOrder, Fresh, NobodyChecks;
      var rest := actions[..|actions| - 1];
      SeparateChecksAreInOrder(clock, settings, s, rest, g);
      NextIsInOrder(settings, End(settings, s, rest), actions[|actions| - 1], ClockAfter(clock, settings, s, rest), g);
    }
  }

  // ---------------------------------------------------------------- checks that do overlap

  lemma EndOneMore(settings: Settings, s: State, actions: seq<Action>, a: Action)
    ensures End(settings, s, actions + [a]) == Next(settings, End(settings, s, actions), a)
    ensures End(settings, s, []) == s
  {
    assert (actions + [a])[..|actions|] == actions;
  }

  lemma MinuteInflow(l: Limit)
    requires l == PerMinute(1)
    ensures l.capacity == 1.0 && Inflow(l, 60.0) == 1.0 && Inflow(l, 0.0) == 0.0
  {
  }

  /** One token a minute: checks read at 60, 0 and 60 seconds, executed in this order, find 1, 0 and 1 tokens. */
  lemma LateCheckRefills(l: Limit)
    requires l == PerMinute(1)
    ensures Check(l, None, 60.0) == (Bucket(0.0, 60.0), Answer(true, 0.0))
    ensures Check(l, Some(Bucket(0.0, 60.0)), 0.0).0 == Bucket(0.0, 0.0)
    ensures !Check(l, Some(Bucket(0.0, 60.0)), 0.0).1.allowed
    ensures Check(l, Some(Bucket(0.0, 0.0)), 60.0) == (Bucket(0.0, 60.0), Answer(true, 0.0))
  {
    hide Inflow, Delay, PerMinute, Check;
    MinuteInflow(l);
    CheckSteps(l, None, 60.0);
    CheckSteps(l, Some(Bucket(0.0, 60.0)), 0.0);
    CheckSteps(l, Some(Bucket(0.0, 0.0)), 60.0);
  }

  lemma CheckSteps(l: Limit, b: Option<Bucket>, now: Instant)
    ensures var seen := Refilled(l, b, now);
            Check(l, b, now) == (if seen >= 1.0 then (Bucket(seen - 1.0, now), Answer(true, 0.0))
                                 else (Bucket(seen, now), Answer(false, Delay(l, 1.0 - seen))))
  {
    hide Inflow, Delay;
  }

  lemma AnswerAtActor(settings: Settings, s: State, actions: seq<Action>, i: nat)
    requires var e := End(settings, s, actions);
             i < |e.visitors| && e.visitors[i].phase.Checking? && e.visitors[i].phase.stage.AtActor?
    ensures var e, e' := End(settings, s, actions), End(settings, s, actions + [Evaluate(i, Answered)]);
            var v := e.visitors[i];
            var g := ByActor(v.actorId);
            var (bucket, answer) := Check(GateLimit(settings, g), BucketOf(e.buckets, g), v.phase.now);
            && e'.visitors == e.visitors[i := v.(phase := Decided(AtActor, answer.allowed))]
            && BucketOf(e'.buckets, g) == Some(bucket)
  {
    hide End, Check, GateKey, GateLimit;
    EndOneMore(settings, s, actions, Evaluate(i, Answered));
  }

  /**
   The order is needed: three requests of one actor with a limit of one a minute read 0, 60 and 60
   seconds; the first reaches Redis between the other two, and both of those get past the gate at
   one and the same instant.
   */
  lemma LateCheckLetsTwoBy(settings: Settings, actorId: string, provider: Provider)
    returns (s: State, actions: seq<Action>)
    requires settings.actorPerMinute == 1
    ensures Fresh(s) && s.buckets == map[]
    ensures actions == [Open(0, 0.0), Open(1, 60.0), Open(2, 60.0),
                        Evaluate(1, Answered), Evaluate(0, Answered), Evaluate(2, Answered)]
    ensures CountIf(End(settings, s, actions).visitors, Among(LetBy(ByActor(actorId), 60.0, 60.0))) == 2
  {
    hide End, Check, GateKey, GateLimit, GatePerMinute, PerMinute, CountIf, Enabled, Next, Delay, Inflow, Refilled;
    var v, g := Visitor(actorId, provider, Arriving, 0.0, 0.0), ByActor(actorId);
    s := State(map[], [v, v, v], []);
    ActorLimit(settings, actorId);
    var early, late := Opened(v, 0.0), Opened(v, 60.0);
    var between, away := late.(phase := Between), early.(phase := TurnedAway(AtActor));
    LateCheckRefills(GateLimit(settings, g));
    actions := ThreeOpen(settings, s, v);
    var e := End(settings, s, actions);
    assert BucketOf(e.buckets, g) == None;
    assert early.phase == Checking(AtActor, 0.0, false) && late.phase == Checking(AtActor, 60.0, false)
        && early.actorId == actorId;
    AnswerAtActor(settings, s, actions, 1);
    actions := actions + [Evaluate(1, Answered)];
    assert End(settings, s, actions).visitors == [early, between, late];
    AnswerAtActor(settings, s, actions, 0);
    actions := actions + [Evaluate(0, Answered)];
    assert End(settings, s, actions).visitors == [away, between, late];
    AnswerAtActor(settings, s, actions, 2);
    actions := actions + [Evaluate(2, Answered)];
    assert End(settings, s, actions).visitors == [away, between, between];
    CountThree(away, between, between, Among(LetBy(g, 60.0, 60.0)));
  }

  lemma ActorLimit(settings: Settings, actorId: string)
    ensures GateLimit(settings, ByActor(actorId)) == PerMinute(settings.actorPerMinute)
  {
  }

  lemma ThreeOpen(settings: Settings, s: State, v: Visitor) returns (actions: seq<Action>)
    requires v.phase.Arriving? && s.visitors == [v, v, v]
    ensures actions == [Open(0, 0.0), Open(1, 60.0), Open(2, 60.0)]
    ensures End(settings, s, actions) == s.(visitors := [Opened(v, 0.0), Opened(v, 60.0), Opened(v, 60.0)])
  {
    hide End, Opened;
    EndOneMore(settings, s, [], Open(0, 0.0));
    actions := [] + [Open(0, 0.0)];
    EndOneMore(settings, s, actions, Open(1, 60.0));
    actions := actions + [Open(1, 60.0)];
    EndOneMore(settings, s, actions, Open(2, 60.0));
    actions := actions + [Open(2, 60.0)];
  }

  lemma CountThree(a: Visitor, b: Visitor, c: Visitor, p: Visitor -> bool)
    ensures CountIf([a, b, c], p) == (if p(a) then 1 else 0) + (if p(b) then 1 else 0) + (if p(c) then 1 else 0)
  {
    CountAppend([], a, p);
    CountAppend([a], b, p);
    CountAppend([a, b], c, p);
    assert [] + [a] == [a] && [a] + [b] == [a, b] && [a, b] + [c] == [a, b, c];
  }
}
