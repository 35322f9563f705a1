/**
 The two kinds of rate gate, and the trace of their script runs in the order in which Redis executed
 them: what the trace says about the buckets, and what it bounds.
 */
module GateTrace {
  import opened Common
  import opened Conversation
  import opened TokenBucket
  import opened RateLimiter
  import opened Outbound

  /** The two kinds of bucket a request passes. */
  datatype Gate = ByActor(actorId: string) | ByProvider(provider: Provider)

  function GateKey(g: Gate): string {
    match g
    case ByActor(actorId) => ActorScope(actorId)
    case ByProvider(p) => ProviderScope(p)
  }

  function GatePerMinute(settings: Settings, g: Gate): (n: nat)
    ensures n >= 1
  {
    match g
    case ByActor(_) => settings.actorPerMinute
    case ByProvider(p) => ProviderPerMinute(settings, p)
  }

  function GateLimit(settings: Settings, g: Gate): Limit {
    PerMinute(GatePerMinute(settings, g))
  }

  /** What a limit per minute may let by in so many seconds: the limit, and a sixtieth of it per second. */
  function Allowance(perMinute: nat, seconds: real): real {
    perMinute as real + seconds * (perMinute as real / 60.0)
  }

  lemma AllowanceOfLimit(settings: Settings, g: Gate, seconds: real)
    ensures var n := match g
                     case ByActor(_) => settings.actorPerMinute
                     case ByProvider(Postmark) => settings.postmarkPerMinute
                     case ByProvider(Signalwire) => settings.signalwirePerMinute
                     case ByProvider(Fbmessenger) => settings.fbmessengerPerMinute
                     case ByProvider(Instagram) => settings.instagramPerMinute;
            GateLimit(settings, g).capacity + Inflow(GateLimit(settings, g), seconds) == Allowance(n, seconds)
  {
  }

  lemma FirstLetter(g: Gate)
    ensures |GateKey(g)| > 0 && GateKey(g)[0] == if g.ByActor? then 'a' else 'p'
  {
  }

  lemma GateKeysDiffer(a: Gate, b: Gate)
    ensures GateKey(a) == GateKey(b) <==> a == b
  {
    FirstLetter(a);
    FirstLetter(b);
    if a.ByActor? && b.ByActor? {
      assert a.actorId == GateKey(a)[6..] && b.actorId == GateKey(b)[6..];
    } else if a.ByProvider? && b.ByProvider? {
      assert ProviderName(a.provider) == GateKey(a)[9..] && ProviderName(b.provider) == GateKey(b)[9..];
      NamesDiffer(a.provider, b.provider);
    }
  }

  function BucketOf(buckets: map<string, Bucket>, g: Gate): Option<Bucket> {
    Lookup(buckets, GateKey(g))
  }

  // ---------------------------------------------------------------- the trace

  /** One execution of the script, and whether its reply reached the caller. */
  datatype Run = Run(gate: Gate, now: Instant, answer: Answer, replied: bool)

  /** The instants of the runs on one gate. */
  function Instants(trace: seq<Run>, g: Gate): seq<Instant> {
    if trace == [] then []
    else
      var last := trace[|trace| - 1];
      Instants(trace[..|trace| - 1], g) + (if last.gate == g then [last.now] else [])
  }

  /** From `before` on, the gate's bucket and the answers of its runs are those of the script alone. */
  predicate Explains(l: Limit, before: Option<Bucket>, trace: seq<Run>, after: Option<Bucket>, g: Gate) {
    && after == After(l, before, Instants(trace, g))
    && GateAnswers(trace, g) == Answers(l, before, Instants(trace, g))
  }

  function GateAnswers(trace: seq<Run>, g: Gate): (answers: seq<Answer>)
    ensures |answers| == |Instants(trace, g)|
  {
    if trace == [] then []
    else
      var last := trace[|trace| - 1];
      GateAnswers(trace[..|trace| - 1], g) + (if last.gate == g then [last.answer] else [])
  }

  lemma ExplainsNext(l: Limit, before: Option<Bucket>, trace: seq<Run>, bucket: Option<Bucket>, g: Gate, run: Run)
    requires Explains(l, before, trace, bucket, g)
    requires run.gate == g ==> run.answer == Check(l, bucket, run.now).1
    ensures Explains(l, before, trace + [run], if run.gate == g then Some(Check(l, bucket, run.now).0) else bucket, g)
  {
    hide Check;
    assert (trace + [run])[..|trace|] == trace;
    if run.gate == g {
      CheckLast(l, before, Instants(trace, g), run.now);
    } else {
      assert Instants(trace + [run], g) == Instants(trace, g) && GateAnswers(trace + [run], g) == GateAnswers(trace, g);
    }
  }

  lemma NothingToExplain(l: Limit, b: Option<Bucket>, g: Gate)
    ensures Explains(l, b, [], b, g)
  {
  }

  // ---------------------------------------------------------------- bounds

  /** A run that took a token from the gate's bucket between the two instants. */
  predicate TakesWithin(run: Run, g: Gate, from: Instant, to: Instant) {
    run.gate == g && run.answer.allowed && from <= run.now <= to
  }

  function Takes(g: Gate, from: Instant, to: Instant): Run -> bool {
    (run: Run) => TakesWithin(run, g, from, to)
  }

  function TakesEver(g: Gate): Run -> bool {
    (run: Run) => run.gate == g && run.answer.allowed
  }

  lemma {:induction false} TakesAreAllowed(trace: seq<Run>, g: Gate, from: Instant, to: Instant)
    ensures CountIf(trace, Takes(g, from, to)) == AllowedWithin(GateAnswers(trace, g), Instants(trace, g), from, to)
  {
    if trace != [] {
      var rest, last := trace[..|trace| - 1], trace[|trace| - 1];
      TakesAreAllowed(rest, g, from, to);
      var answers, clock := GateAnswers(rest, g), Instants(rest, g);
      if last.gate == g {
        assert (answers + [last.answer])[..|answers|] == answers && (clock + [last.now])[..|clock|] == clock;
      } else {
        assert GateAnswers(trace, g) == answers && Instants(trace, g) == clock;
      }
    }
  }

  lemma {:induction false} AllowedLast(answers: seq<Answer>, answer: Answer)
    ensures Allowed(answers + [answer]) == Allowed(answers) + (if answer.allowed then 1 else 0)
  {
    if answers == [] {
      assert (answers + [answer])[1..] == [];
    } else {
      AllowedLast(answers[1..], answer);
      assert (answers + [answer])[1..] == answers[1..] + [answer];
    }
  }

  lemma {:induction false} TakesEverAreAllowed(trace: seq<Run>, g: Gate)
    ensures CountIf(trace, TakesEver(g)) == Allowed(GateAnswers(trace, g))
  {
    if trace != [] {
      var rest, last := trace[..|trace| - 1], trace[|trace| - 1];
      TakesEverAreAllowed(rest, g);
      if last.gate == g {
        AllowedLast(GateAnswers(rest, g), last.answer);
      } else {
        assert GateAnswers(trace, g) == GateAnswers(rest, g);
      }
    }
  }

  /** Runs that reach Redis in the order of their clock readings take no more in a window than its own refill allows. */
  lemma WindowTakes(l: Limit, before: Option<Bucket>, trace: seq<Run>, after: Option<Bucket>, g: Gate, from: Instant,
                    to: Instant)
    requires Explains(l, before, trace, after, g) && NonNegative(before)
    requires Nondecreasing(Instants(trace, g)) && from <= to
    ensures CountIf(trace, Takes(g, from, to)) as real <= l.capacity + Inflow(l, to - from)
  {
    hide Inflow, CountIf;
    TakesAreAllowed(trace, g, from, to);
    WindowCount(l, before, Instants(trace, g), from, to);
  }

  /** In whatever order the runs reach Redis, all of them take no more than the drift of that order allows. */
  lemma DriftTakes(l: Limit, before: Option<Bucket>, trace: seq<Run>, after: Option<Bucket>, g: Gate)
    requires Explains(l, before, trace, after, g) && NonNegative(before)
    ensures CountIf(trace, TakesEver(g)) as real <= l.capacity + Inflow(l, Drift(Instants(trace, g)))
  {
    hide Inflow, CountIf;
    TakesEverAreAllowed(trace, g);
    FirstCheckBound(l, before, Instants(trace, g));
    EarnedIsDrift(l, Instants(trace, g));
  }
}
