/**
 The arithmetic of the rate limiter's server-side script, over the reals, and what it
 promises over whole runs of checks on one key.
 */
module TokenBucket {
  import opened Common

  datatype LimitParams = LimitParams(capacity: real, refill: real)

  /** Capacity in tokens, refill in tokens per second. */
  type Limit = p: LimitParams | p.capacity >= 0.0 && p.refill > 0.0 witness LimitParams(1.0, 1.0)

  datatype Bucket = Bucket(tokens: real, ts: Instant)

  datatype Answer = Answer(allowed: bool, retryAfter: real)

  /** Tokens that flow in over a stretch of time. */
  function Inflow(l: Limit, seconds: real): real {
    seconds * l.refill
  }

  lemma InflowAdds(l: Limit, x: real, y: real)
    ensures Inflow(l, x + y) == Inflow(l, x) + Inflow(l, y)
  {
  }

  lemma InflowOrdered(l: Limit, x: real, y: real)
    ensures x <= y <==> Inflow(l, x) <= Inflow(l, y)
    ensures Inflow(l, 0.0) == 0.0
  {
  }

  /** How long `tokens` take to flow in. */
  function Delay(l: Limit, tokens: real): real {
    tokens / l.refill
  }

  lemma DelayInverts(l: Limit, tokens: real)
    ensures Inflow(l, Delay(l, tokens)) == tokens
  {
  }

  lemma DelayOrdered(l: Limit, x: real, y: real)
    ensures x < y ==> Delay(l, x) < Delay(l, y)
    ensures x <= y ==> Delay(l, x) <= Delay(l, y)
    ensures Delay(l, 0.0) == 0.0
  {
    DelayInverts(l, x);
    DelayInverts(l, y);
    InflowOrdered(l, Delay(l, x), Delay(l, y));
    InflowOrdered(l, Delay(l, y), Delay(l, x));
  }

  /** The tokens a check at `now` sees; a missing hash counts as a full bucket. */
  function Refilled(l: Limit, b: Option<Bucket>, now: Instant): real {
    match b
    case None => l.capacity
    case Some(k) => Min(l.capacity, k.tokens + Inflow(l, Max(0.0, now - k.ts)))
  }

  /** One run of the script: the hash it writes back and the answer it returns. */
  function Check(l: Limit, b: Option<Bucket>, now: Instant): (Bucket, Answer) {
    var tokens := Refilled(l, b, now);
    if tokens >= 1.0 then (Bucket(tokens - 1.0, now), Answer(true, 0.0))
    else (Bucket(tokens, now), Answer(false, Delay(l, 1.0 - tokens)))
  }

  /** The hash after checks at the given instants. */
  function After(l: Limit, b: Option<Bucket>, clock: seq<Instant>): Option<Bucket>
    decreases |clock|
  {
    if clock == [] then b else After(l, Some(Check(l, b, clock[0]).0), clock[1..])
  }

  /** The answers to checks at the given instants. */
  function Answers(l: Limit, b: Option<Bucket>, clock: seq<Instant>): (answers: seq<Answer>)
    ensures |answers| == |clock|
    decreases |clock|
  {
    if clock == [] then []
    else
      var (b', answer) := Check(l, b, clock[0]);
      [answer] + Answers(l, Some(b'), clock[1..])
  }

  function Allowed(answers: seq<Answer>): nat {
    if answers == [] then 0
    else (if answers[0].allowed then 1 else 0) + Allowed(answers[1..])
  }

  predicate NonNegative(b: Option<Bucket>) {
    b.Some? ==> b.value.tokens >= 0.0
  }

  /** What a check sees and what it leaves, without the arithmetic. */
  lemma CheckKeepsRange(l: Limit, b: Option<Bucket>, now: Instant)
    requires NonNegative(b)
    ensures 0.0 <= Refilled(l, b, now) <= l.capacity
    ensures var b' := Check(l, b, now).0; 0.0 <= b'.tokens <= l.capacity && b'.ts == now
  {
    hide Inflow, Delay;
    if b.Some? {
      InflowOrdered(l, 0.0, Max(0.0, now - b.value.ts));
    }
  }

  /** Every check leaves between 0 and `capacity` tokens, whatever the clock does. */
  lemma {:induction false} TokensStayInRange(l: Limit, b: Option<Bucket>, clock: seq<Instant>)
    requires NonNegative(b) && clock != []
    ensures var b' := After(l, b, clock);
            b'.Some? && 0.0 <= b'.value.tokens <= l.capacity && b'.value.ts == clock[|clock| - 1]
    decreases |clock|
  {
    hide Check;
    CheckKeepsRange(l, b, clock[0]);
    if |clock| > 1 {
      TokensStayInRange(l, Some(Check(l, b, clock[0]).0), clock[1..]);
    } else {
      assert clock[1..] == [];
    }
  }

  // ---------------------------------------------------------------- admission bound

  /** How far the clock moves forward over the instants, ignoring its steps back. */
  function Drift(clock: seq<Instant>): real {
    if |clock| < 2 then 0.0 else Max(0.0, clock[1] - clock[0]) + Drift(clock[1..])
  }

  lemma {:induction false} DriftOfNondecreasing(clock: seq<Instant>)
    requires clock != [] && Nondecreasing(clock)
    ensures Drift(clock) == clock[|clock| - 1] - clock[0]
  {
    if |clock| > 1 {
      DriftOfNondecreasing(clock[1..]);
    }
  }

  /** The refill that accrues over the instants. */
  function Earned(l: Limit, clock: seq<Instant>): real {
    if |clock| < 2 then 0.0 else Inflow(l, Max(0.0, clock[1] - clock[0])) + Earned(l, clock[1..])
  }

  lemma {:induction false} EarnedIsDrift(l: Limit, clock: seq<Instant>)
    ensures Earned(l, clock) == Inflow(l, Drift(clock))
  {
    if |clock| >= 2 {
      EarnedIsDrift(l, clock[1..]);
      InflowAdds(l, Max(0.0, clock[1] - clock[0]), Drift(clock[1..]));
    }
  }

  /** What one check hands out and keeps is covered by what it found and what flowed in. */
  lemma CheckSpends(l: Limit, b: Bucket, now: Instant)
    requires b.tokens >= 0.0
    ensures var (b', answer) := Check(l, Some(b), now);
            && b'.ts == now && 0.0 <= b'.tokens
            && (if answer.allowed then 1.0 else 0.0) + b'.tokens <= l.capacity
            && (if answer.allowed then 1.0 else 0.0) + b'.tokens <= b.tokens + Inflow(l, Max(0.0, now - b.ts))
  {
    hide Inflow, Delay;
    InflowOrdered(l, 0.0, Max(0.0, now - b.ts));
  }

  /** Tokens handed out are paid for by the opening balance and by the refill. */
  lemma {:induction false} Spending(l: Limit, b: Bucket, clock: seq<Instant>)
    requires b.tokens >= 0.0
    ensures Allowed(Answers(l, Some(b), clock)) as real <= b.tokens + Earned(l, [b.ts] + clock)
    decreases |clock|
  {
    hide Inflow, Delay, Check;
    if clock != [] {
      var (b', answer) := Check(l, Some(b), clock[0]);
      CheckSpends(l, b, clock[0]);
      Spending(l, b', clock[1..]);
      assert [b'.ts] + clock[1..] == clock == ([b.ts] + clock)[1..];
    }
  }

  lemma TailOfSlice<T>(s: seq<T>, i: nat, j: nat)
    requires 0 < i <= j <= |s|
    ensures s[..i][1..] == s[1..][..i - 1]
    ensures s[1..][i - 1..j - 1] == s[i..j]
  {
  }

  lemma {:induction false} AnswersPrefix(l: Limit, b: Option<Bucket>, clock: seq<Instant>, j: nat)
    requires j <= |clock|
    ensures Answers(l, b, clock)[..j] == Answers(l, b, clock[..j])
    decreases |clock|
  {
    hide Check;
    if j > 0 {
      var (b', answer) := Check(l, b, clock[0]);
      AnswersPrefix(l, Some(b'), clock[1..], j - 1);
      TailOfSlice(clock, j, j);
      assert Answers(l, b, clock)[..j] == [answer] + Answers(l, Some(b'), clock[1..])[..j - 1];
    }
  }

  lemma {:induction false} AnswersSuffix(l: Limit, b: Option<Bucket>, clock: seq<Instant>, i: nat)
    requires i <= |clock|
    ensures Answers(l, b, clock)[i..] == Answers(l, After(l, b, clock[..i]), clock[i..])
    decreases |clock|
  {
    hide Check;
    if i > 0 {
      var (b', answer) := Check(l, b, clock[0]);
      AnswersSuffix(l, Some(b'), clock[1..], i - 1);
      TailOfSlice(clock, i, |clock|);
      assert clock[1..][i - 1..] == clock[i..];
      assert Answers(l, b, clock)[i..] == Answers(l, Some(b'), clock[1..])[i - 1..];
    } else {
      assert clock[..i] == [] && clock[i..] == clock;
    }
  }

  lemma AnswersSplit(l: Limit, b: Option<Bucket>, clock: seq<Instant>, i: nat, j: nat)
    requires i <= j <= |clock|
    ensures Answers(l, b, clock)[i..j] == Answers(l, After(l, b, clock[..i]), clock[i..j])
  {
    hide Answers, After;
    AnswersPrefix(l, b, clock, j);
    AnswersSuffix(l, b, clock[..j], i);
    assert clock[..j][..i] == clock[..i] && clock[..j][i..] == clock[i..j];
    assert Answers(l, b, clock)[..j][i..] == Answers(l, b, clock)[i..j];
  }

  lemma {:induction false} AfterNonNegative(l: Limit, b: Option<Bucket>, clock: seq<Instant>)
    requires NonNegative(b)
    ensures NonNegative(After(l, b, clock))
  {
    hide Inflow, Delay;
    if clock != [] {
      TokensStayInRange(l, b, clock);
    }
  }

  /**
   In every contiguous segment of checks on one key, under any clock, at most `capacity`
   plus `refill` times the forward drift of the segment are allowed.
   */
  lemma SegmentBound(l: Limit, b: Option<Bucket>, clock: seq<Instant>, i: nat, j: nat)
    requires NonNegative(b) && i <= j <= |clock|
    ensures Allowed(Answers(l, b, clock)[i..j]) as real <= l.capacity + Inflow(l, Drift(clock[i..j]))
  {
    hide Inflow, Delay;
    AnswersSplit(l, b, clock, i, j);
    AfterNonNegative(l, b, clock[..i]);
    FirstCheckBound(l, After(l, b, clock[..i]), clock[i..j]);
    EarnedIsDrift(l, clock[i..j]);
  }

  /** Whatever the hash held, a run starts from at most `capacity` tokens. */
  lemma FirstCheckBound(l: Limit, b: Option<Bucket>, clock: seq<Instant>)
    requires NonNegative(b)
    ensures Allowed(Answers(l, b, clock)) as real <= l.capacity + Earned(l, clock)
  {
    hide Inflow, Delay;
    if clock != [] {
      var (b', answer) := Check(l, b, clock[0]);
      if b.Some? {
        CheckSpends(l, b.value, clock[0]);
      }
      Spending(l, b', clock[1..]);
      assert [b'.ts] + clock[1..] == clock;
    }
  }

  /** With a clock that never goes back, the bound is the usual one for the window the segment spans. */
  lemma WindowBound(l: Limit, b: Option<Bucket>, clock: seq<Instant>, i: nat, j: nat)
    requires NonNegative(b) && i < j <= |clock| && Nondecreasing(clock[i..j])
    ensures Allowed(Answers(l, b, clock)[i..j]) as real <= l.capacity + Inflow(l, clock[j - 1] - clock[i])
  {
    hide Inflow, Delay, Check;
    SegmentBound(l, b, clock, i, j);
    DriftOfNondecreasing(clock[i..j]);
  }

  /** A bucket that can pay for all checks of a run, and never overflows on the way, allows them all. */
  lemma {:induction false} AllAllowed(l: Limit, b: Bucket, clock: seq<Instant>)
    requires 0.0 <= b.tokens <= l.capacity - 1.0 && Earned(l, [b.ts] + clock) <= 1.0
    requires b.tokens + Earned(l, [b.ts] + clock) >= |clock| as real
    ensures Allowed(Answers(l, Some(b), clock)) == |clock|
    decreases |clock|
  {
    hide Inflow, Delay;
    if clock != [] {
      var inflow := Inflow(l, Max(0.0, clock[0] - b.ts));
      InflowOrdered(l, 0.0, Max(0.0, clock[0] - b.ts));
      assert ([b.ts] + clock)[1..] == clock;
      EarnedIsPositive(l, clock);
      assert Check(l, Some(b), clock[0]) == (Bucket(b.tokens + inflow - 1.0, clock[0]), Answer(true, 0.0));
      assert [clock[0]] + clock[1..] == clock;
      AllAllowed(l, Bucket(b.tokens + inflow - 1.0, clock[0]), clock[1..]);
    }
  }

  lemma {:induction false} EarnedIsPositive(l: Limit, clock: seq<Instant>)
    ensures Earned(l, clock) >= 0.0
  {
    hide Inflow;
    if |clock| >= 2 {
      EarnedIsPositive(l, clock[1..]);
      InflowOrdered(l, 0.0, Max(0.0, clock[1] - clock[0]));
    }
  }

  lemma {:induction false} DriftIsPositive(clock: seq<Instant>)
    ensures Drift(clock) >= 0.0
  {
    if |clock| >= 2 {
      DriftIsPositive(clock[1..]);
    }
  }

  /** For every run of instants some limit allows all of its checks and spends the bound to the last token. */
  lemma BoundIsReached(clock: seq<Instant>) returns (l: Limit)
    ensures Allowed(Answers(l, None, clock)) as real == l.capacity + Inflow(l, Drift(clock))
  {
    if clock == [] {
      return LimitParams(0.0, 1.0);
    }
    var drift, n := Drift(clock), |clock| as real;
    DriftIsPositive(clock);
    var refill := 1.0 / (drift + 1.0);
    assert refill > 0.0 && drift * refill + refill == 1.0 by {
      assert (drift + 1.0) * refill == 1.0;
    }
    l := LimitParams(n - drift * refill, refill);
    assert l.capacity + Inflow(l, drift) == n;
    hide Inflow, Delay;
    EarnedIsDrift(l, clock);
    var b := Bucket(l.capacity - 1.0, clock[0]);
    assert clock[1..] == [] ==> Drift(clock) == 0.0;
    assert [b.ts] + clock[1..] == clock;
    assert Check(l, None, clock[0]) == (b, Answer(true, 0.0));
    AllAllowed(l, b, clock[1..]);
  }

  /** Refill for `seconds` covers what any limit allows at these instants, whatever its bucket held. */
  ghost predicate Covers(clock: seq<Instant>, seconds: real) {
    forall l: Limit, b: Option<Bucket> :: NonNegative(b) ==>
      Allowed(Answers(l, b, clock)) as real <= l.capacity + Inflow(l, seconds)
  }

  /**
   The forward drift is the exact price of a clock that steps back: a stretch of seconds covers the
   checks at these instants, for every limit and bucket, precisely when it is as long as the drift.
   */
  lemma DriftIsExact(clock: seq<Instant>, seconds: real)
    ensures Covers(clock, seconds) <==> Drift(clock) <= seconds
  {
    hide Inflow, Delay, Check, Answers;
    if Drift(clock) <= seconds {
      forall l: Limit, b: Option<Bucket> | NonNegative(b)
        ensures Allowed(Answers(l, b, clock)) as real <= l.capacity + Inflow(l, seconds)
      {
        FirstCheckBound(l, b, clock);
        EarnedIsDrift(l, clock);
        InflowOrdered(l, Drift(clock), seconds);
      }
    } else {
      var l := BoundIsReached(clock);
      InflowOrdered(l, Drift(clock), seconds);
      assert !(Allowed(Answers(l, None, clock)) as real <= l.capacity + Inflow(l, seconds));
    }
  }

  /** Every segment is covered by the time it spans. */
  ghost predicate CoveredBySpan(clock: seq<Instant>) {
    forall i, j :: 0 <= i < j <= |clock| ==> Covers(clock[i..j], clock[j - 1] - clock[i])
  }

  /** The usual bound holds in every segment, for every limit and bucket, precisely when the clock never goes back. */
  lemma OrderIsExact(clock: seq<Instant>)
    ensures CoveredBySpan(clock) <==> Nondecreasing(clock)
  {
    hide Covers;
    if Nondecreasing(clock) {
      forall i, j | 0 <= i < j <= |clock|
        ensures Covers(clock[i..j], clock[j - 1] - clock[i])
      {
        DriftOfNondecreasing(clock[i..j]);
        DriftIsExact(clock[i..j], clock[j - 1] - clock[i]);
      }
    } else {
      var i, j :| 0 <= i <= j < |clock| && clock[i] > clock[j];
      var segment := clock[i..j + 1];
      DriftIsPositive(segment);
      DriftIsExact(segment, clock[j] - clock[i]);
      assert !Covers(clock[i..j + 1], clock[j + 1 - 1] - clock[i]);
    }
  }

  lemma {:induction false} CheckLast(l: Limit, b: Option<Bucket>, clock: seq<Instant>, now: Instant)
    ensures After(l, b, clock + [now]) == Some(Check(l, After(l, b, clock), now).0)
    ensures Answers(l, b, clock + [now]) == Answers(l, b, clock) + [Check(l, After(l, b, clock), now).1]
    decreases |clock|
  {
    hide Check;
    if clock == [] {
      assert (clock + [now])[1..] == [];
    } else {
      CheckLast(l, Some(Check(l, b, clock[0]).0), clock[1..], now);
      assert (clock + [now])[1..] == clock[1..] + [now];
    }
  }

  /** The allowed checks whose instant lies between the two. */
  function AllowedWithin(answers: seq<Answer>, clock: seq<Instant>, from: Instant, to: Instant): nat
    requires |answers| == |clock|
  {
    if clock == [] then 0
    else
      var last := |clock| - 1;
      AllowedWithin(answers[..last], clock[..last], from, to)
      + (if answers[last].allowed && from <= clock[last] <= to then 1 else 0)
  }

  lemma {:induction false} AllowedWithinFirst(answers: seq<Answer>, clock: seq<Instant>, from: Instant, to: Instant)
    requires |answers| == |clock| > 0
    ensures AllowedWithin(answers, clock, from, to)
            == (if answers[0].allowed && from <= clock[0] <= to then 1 else 0)
              + AllowedWithin(answers[1..], clock[1..], from, to)
  {
    var last := |clock| - 1;
    if last > 0 {
      AllowedWithinFirst(answers[..last], clock[..last], from, to);
      assert answers[..last][1..] == answers[1..][..last - 1] && clock[..last][1..] == clock[1..][..last - 1];
    }
  }

  lemma {:induction false} AllAreWithin(answers: seq<Answer>, clock: seq<Instant>, from: Instant, to: Instant)
    requires |answers| == |clock| && forall i :: 0 <= i < |clock| ==> from <= clock[i] <= to
    ensures AllowedWithin(answers, clock, from, to) == Allowed(answers)
  {
    if clock != [] {
      AllowedWithinFirst(answers, clock, from, to);
      AllAreWithin(answers[1..], clock[1..], from, to);
    }
  }

  /** With a nondecreasing clock, a window of time admits at most the capacity plus its own refill. */
  lemma {:induction false} WindowCount(l: Limit, b: Option<Bucket>, clock: seq<Instant>, from: Instant, to: Instant)
    requires NonNegative(b) && Nondecreasing(clock) && from <= to
    ensures AllowedWithin(Answers(l, b, clock), clock, from, to) as real <= l.capacity + Inflow(l, to - from)
    decreases |clock|
  {
    hide Inflow, Delay, Check;
    var answers, last := Answers(l, b, clock), |clock| - 1;
    InflowOrdered(l, 0.0, to - from);
    if clock == [] {
    } else if clock[0] < from {
      AllowedWithinFirst(answers, clock, from, to);
      CheckKeepsRange(l, b, clock[0]);
      WindowCount(l, Some(Check(l, b, clock[0]).0), clock[1..], from, to);
    } else if clock[last] > to {
      AnswersSplit(l, b, clock, 0, last);
      assert clock[..0] == [] && clock[0..last] == clock[..last] && answers[0..last] == answers[..last];
      WindowCount(l, b, clock[..last], from, to);
    } else {
      AllAreWithin(answers, clock, from, to);
      assert answers[0..|clock|] == answers && clock[0..|clock|] == clock;
      WindowBound(l, b, clock, 0, |clock|);
      InflowOrdered(l, clock[last] - clock[0], to - from);
    }
  }

  // ---------------------------------------------------------------- greedy optimality

  /** What a caller that may hold back does at a check: take if it can, refill only, or not call. */
  datatype Move = Take | Refill | Pass

  /** The policy's bucket after a move at `now`, and whether the move got a call through. */
  function Moved(l: Limit, b: Option<Bucket>, now: Instant, move: Move): (Option<Bucket>, nat) {
    match move
    case Take =>
      var (b', answer) := Check(l, b, now);
      (Some(b'), if answer.allowed then 1 else 0)
    case Refill => (Some(Bucket(Refilled(l, b, now), now)), 0)
    case Pass => (b, 0)
  }

  /** How many calls a policy gets through the same bucket. */
  function PolicyAllowed(l: Limit, b: Option<Bucket>, clock: seq<Instant>, moves: seq<Move>): nat
    requires |clock| == |moves|
    decreases |clock|
  {
    if clock == [] then 0
    else
      var (b', got) := Moved(l, b, clock[0], moves[0]);
      got + PolicyAllowed(l, b', clock[1..], moves[1..])
  }

  /** Calls already granted plus tokens in hand: what the script is ahead of a policy in. */
  predicate Ahead(l: Limit, g: Option<Bucket>, granted: nat, p: Option<Bucket>, got: nat) {
    && granted >= got
    && (match g
        case None => p.None?
        case Some(k) => k.tokens >= 0.0 && granted as real + k.tokens >= got as real + Refilled(l, p, k.ts))
  }

  lemma AheadAfterRefill(l: Limit, g: Option<Bucket>, granted: nat, p: Option<Bucket>, got: nat, now: Instant)
    requires Ahead(l, g, granted, p, got)
    ensures granted as real + Refilled(l, g, now) >= got as real + Refilled(l, p, now)
  {
    hide Inflow, Delay;
    if g.Some? {
      var late := Max(0.0, now - g.value.ts);
      InflowOrdered(l, 0.0, late);
      if p.Some? {
        var early, all := Max(0.0, g.value.ts - p.value.ts), Max(0.0, now - p.value.ts);
        InflowOrdered(l, all, early + late);
        InflowAdds(l, early, late);
      }
    }
  }

  lemma AheadAfterMove(l: Limit, g: Option<Bucket>, granted: nat, p: Option<Bucket>, got: nat, now: Instant, move: Move)
    requires Ahead(l, g, granted, p, got) && NonNegative(p)
    ensures var (g', answer) := Check(l, g, now);
            var granted' := granted + (if answer.allowed then 1 else 0);
            var (p', got') := Moved(l, p, now, move);
            NonNegative(p') && Ahead(l, Some(g'), granted', p', got + got')
  {
    hide Inflow, Delay;
    AheadAfterRefill(l, g, granted, p, got, now);
    CheckKeepsRange(l, p, now);
    CheckKeepsRange(l, g, now);
    forall k: Bucket | k.ts == now && k.tokens <= l.capacity
      ensures Refilled(l, Some(k), now) == k.tokens
    {
      InflowOrdered(l, 0.0, 0.0);
    }
  }

  lemma {:induction false} StaysAhead(l: Limit, g: Option<Bucket>, granted: nat, p: Option<Bucket>, got: nat,
                                      clock: seq<Instant>, moves: seq<Move>)
    requires |clock| == |moves| && Ahead(l, g, granted, p, got) && NonNegative(p)
    ensures granted + Allowed(Answers(l, g, clock)) >= got + PolicyAllowed(l, p, clock, moves)
    decreases |clock|
  {
    hide Inflow, Delay;
    if clock != [] {
      var now := clock[0];
      AheadAfterMove(l, g, granted, p, got, now, moves[0]);
      var (g', answer) := Check(l, g, now);
      var (p', got') := Moved(l, p, now, moves[0]);
      StaysAhead(l, Some(g'), granted + (if answer.allowed then 1 else 0), p', got + got', clock[1..], moves[1..]);
    }
  }

  /** After every prefix, taking whenever possible has let through at least as many calls as any policy. */
  lemma GreedyIsOptimal(l: Limit, b: Option<Bucket>, clock: seq<Instant>, moves: seq<Move>, n: nat)
    requires |clock| == |moves| && NonNegative(b) && n <= |clock|
    ensures Allowed(Answers(l, b, clock)[..n]) >= PolicyAllowed(l, b, clock[..n], moves[..n])
  {
    hide Inflow, Delay;
    AnswersSplit(l, b, clock, 0, n);
    assert clock[..0] == [] && clock[0..n] == clock[..n] && Answers(l, b, clock)[0..n] == Answers(l, b, clock)[..n];
    if b.Some? {
      InflowOrdered(l, 0.0, 0.0);
    }
    StaysAhead(l, b, 0, b, 0, clock[..n], moves[..n]);
  }

  // ---------------------------------------------------------------- denied checks

  /** The two hashes answer alike at every instant from `t` on. */
  ghost predicate Alike(l: Limit, a: Option<Bucket>, b: Option<Bucket>, t: Instant) {
    forall n: Instant :: n >= t ==> Refilled(l, a, n) == Refilled(l, b, n)
  }

  predicate NotAfter(b: Option<Bucket>, t: Instant) {
    b.Some? ==> b.value.ts <= t
  }

  /** Refilling at `t` and again later gives what one later refill gives. */
  lemma LazyRefill(l: Limit, b: Option<Bucket>, t: Instant)
    requires NotAfter(b, t)
    ensures Alike(l, b, Some(Bucket(Refilled(l, b, t), t)), t)
  {
    hide Inflow, Delay;
    forall n: Instant | n >= t
      ensures Refilled(l, b, n) == Refilled(l, Some(Bucket(Refilled(l, b, t), t)), n)
    {
      InflowOrdered(l, 0.0, n - t);
      if b.Some? {
        InflowAdds(l, n - t, t - b.value.ts);
      }
    }
  }

  lemma CheckAlike(l: Limit, a: Option<Bucket>, b: Option<Bucket>, t: Instant, now: Instant)
    requires Alike(l, a, b, t) && t <= now
    ensures Check(l, a, now) == Check(l, b, now)
    ensures Check(l, a, now).0.ts == now
  {
    hide Inflow, Delay;
  }

  /** A denied check leaves a hash that still answers as the one it found. */
  lemma DeniedLeavesAlike(l: Limit, a: Option<Bucket>, b: Option<Bucket>, t: Instant, now: Instant)
    requires Alike(l, a, b, t) && NotAfter(a, t) && t <= now && !Check(l, a, now).1.allowed
    ensures Alike(l, Some(Check(l, a, now).0), b, now)
    ensures Check(l, a, now).0.ts == now
  {
    hide Inflow, Delay;
    LazyRefill(l, a, now);
    forall n: Instant | n >= now
      ensures Refilled(l, Some(Check(l, a, now).0), n) == Refilled(l, b, n)
    {
      assert Refilled(l, a, n) == Refilled(l, b, n);
    }
  }

  predicate Follows(t: Instant, clock: seq<Instant>) {
    Nondecreasing(clock) && (clock != [] ==> t <= clock[0])
  }

  lemma {:induction false} DropDenied(l: Limit, a: Option<Bucket>, b: Option<Bucket>, t: Instant,
                                      clock: seq<Instant>, keep: seq<bool>)
    requires |clock| == |keep| && Follows(t, clock)
    requires Alike(l, a, b, t) && NotAfter(a, t)
    requires forall i :: 0 <= i < |clock| && !keep[i] ==> !Answers(l, a, clock)[i].allowed
    ensures Answers(l, b, Select(clock, keep)) == Select(Answers(l, a, clock), keep)
    decreases |clock|
  {
    hide Check, Refilled, Alike;
    if clock != [] {
      var now := clock[0];
      var a' := Some(Check(l, a, now).0);
      var rest := Answers(l, a', clock[1..]);
      assert Answers(l, a, clock) == [Check(l, a, now).1] + rest;
      forall i | 0 <= i < |clock| - 1 && !keep[1..][i]
        ensures !rest[i].allowed
      {
        assert rest[i] == Answers(l, a, clock)[i + 1];
      }
      CheckAlike(l, a, b, t, now);
      if keep[0] {
        assert Alike(l, a', a', now) by {
          AlikeReflexive(l, a', now);
        }
        DropDenied(l, a', a', now, clock[1..], keep[1..]);
        assert Select(clock, keep) == [now] + Select(clock[1..], keep[1..]);
      } else {
        DeniedLeavesAlike(l, a, b, t, now);
        DropDenied(l, a', b, now, clock[1..], keep[1..]);
        assert Select(clock, keep) == Select(clock[1..], keep[1..]);
        assert Select(Answers(l, a, clock), keep) == Select(rest, keep[1..]);
      }
    }
  }

  lemma AlikeReflexive(l: Limit, a: Option<Bucket>, t: Instant)
    ensures Alike(l, a, a, t)
  {
  }

  /** With a nondecreasing clock, taking any denied checks out of a run leaves every other answer as it was. */
  lemma DeniedChecksAreTransparent(l: Limit, b: Option<Bucket>, clock: seq<Instant>, keep: seq<bool>)
    requires |clock| == |keep| && Nondecreasing(clock) && (clock != [] ==> NotAfter(b, clock[0]))
    requires forall i :: 0 <= i < |clock| && !keep[i] ==> !Answers(l, b, clock)[i].allowed
    ensures Answers(l, b, Select(clock, keep)) == Select(Answers(l, b, clock), keep)
  {
    hide Inflow, Delay;
    if clock != [] {
      DropDenied(l, b, b, clock[0], clock, keep);
    }
  }

  /** The later checks answer as if the check at `now` had not been made, wherever their clock goes after `now`. */
  ghost predicate LeavesNoTrace(l: Limit, b: Option<Bucket>, now: Instant) {
    forall later: seq<Instant> :: later != [] && later[0] >= now ==>
      Answers(l, Some(Check(l, b, now).0), later) == Answers(l, b, later)
  }

  predicate Full(l: Limit, b: Option<Bucket>) {
    b.Some? ==> b.value.tokens >= l.capacity
  }

  /** A denied check that reads the clock behind the bucket's timestamp, if it refills at all, refills it again. */
  lemma StepBackShows(l: Limit, k: Bucket, now: Instant)
    requires k.tokens >= 0.0 && now < k.ts && k.tokens < l.capacity && !Check(l, Some(k), now).1.allowed
    ensures Check(l, Some(Check(l, Some(k), now).0), k.ts).1 != Check(l, Some(k), k.ts).1
  {
    hide Inflow, Delay;
    InflowOrdered(l, 0.0, k.ts - now);
    InflowOrdered(l, k.ts - now, 0.0);
    var sooner := Refilled(l, Some(Check(l, Some(k), now).0), k.ts);
    assert k.tokens < sooner && Refilled(l, Some(k), k.ts) == k.tokens;
    DelayOrdered(l, 1.0 - sooner, 1.0 - k.tokens);
  }

  lemma AlikeAnswersAlike(l: Limit, a: Option<Bucket>, b: Option<Bucket>, t: Instant, later: seq<Instant>)
    requires Alike(l, a, b, t) && later != [] && later[0] >= t
    ensures Answers(l, a, later) == Answers(l, b, later)
  {
    hide Check;
    CheckAlike(l, a, b, t, later[0]);
  }

  /**
   The clock condition is exact: a denied check leaves no trace in any later run precisely when it
   does not read the clock behind the bucket's timestamp, or the bucket is full. When it does leave a
   trace, a check at the old timestamp already shows it.
   */
  lemma DeniedIsTransparentIff(l: Limit, b: Option<Bucket>, now: Instant)
    requires NonNegative(b) && !Check(l, b, now).1.allowed
    ensures LeavesNoTrace(l, b, now) <==> NotAfter(b, now) || Full(l, b)
    ensures !LeavesNoTrace(l, b, now) ==>
              b.Some? && Check(l, Some(Check(l, b, now).0), b.value.ts).1 != Check(l, b, b.value.ts).1
  {
    hide Inflow, Delay;
    var b' := Some(Check(l, b, now).0);
    if NotAfter(b, now) || Full(l, b) {
      assert Alike(l, b', b, now) by {
        if NotAfter(b, now) {
          LazyRefill(l, b, now);
        } else {
          FullStaysFull(l, b, now);
        }
      }
      forall later: seq<Instant> | later != [] && later[0] >= now
        ensures Answers(l, b', later) == Answers(l, b, later)
      {
        AlikeAnswersAlike(l, b', b, now, later);
      }
    } else {
      var ts := b.value.ts;
      StepBackShows(l, b.value, now);
      assert Answers(l, b', [ts])[0] == Check(l, b', ts).1;
      assert Answers(l, b, [ts])[0] == Check(l, b, ts).1;
    }
  }

  lemma FullStaysFull(l: Limit, b: Option<Bucket>, now: Instant)
    requires Full(l, b) && !Check(l, b, now).1.allowed
    ensures Alike(l, Some(Check(l, b, now).0), b, now)
  {
    hide Inflow, Delay;
    forall n: Instant | n >= now
      ensures Refilled(l, Some(Check(l, b, now).0), n) == Refilled(l, b, n)
    {
      InflowOrdered(l, 0.0, n - now);
      if b.Some? {
        InflowOrdered(l, 0.0, Max(0.0, n - b.value.ts));
        InflowOrdered(l, 0.0, Max(0.0, now - b.value.ts));
      }
    }
  }

  /** A witness: at one token a second, an empty bucket denies, denies a second behind, and then allows. */
  lemma ClockStepBackRefills()
    ensures var l, b := LimitParams(1.0, 1.0), Some(Bucket(0.0, 0.0));
            && !Check(l, b, 0.0).1.allowed
            && !Check(l, b, -1.0).1.allowed
            && Check(l, Some(Check(l, b, -1.0).0), 0.0).1.allowed
  {
    var l: Limit, b := LimitParams(1.0, 1.0), Bucket(0.0, 0.0);
    assert Inflow(l, 0.0) == 0.0 && Inflow(l, 1.0) == 1.0;
    hide Inflow, Delay;
    assert Check(l, Some(b), -1.0).0 == Bucket(0.0, -1.0);
  }

  // ---------------------------------------------------------------- lazy and eager refill

  /** The answers of the marked instants when the bucket is also refilled, and written back, at all the others. */
  function EagerAnswers(l: Limit, b: Option<Bucket>, clock: seq<Instant>, checks: seq<bool>): seq<Answer>
    requires |clock| == |checks|
    decreases |clock|
  {
    if clock == [] then []
    else if checks[0] then
      var (b', answer) := Check(l, b, clock[0]);
      [answer] + EagerAnswers(l, Some(b'), clock[1..], checks[1..])
    else EagerAnswers(l, Some(Bucket(Refilled(l, b, clock[0]), clock[0])), clock[1..], checks[1..])
  }

  lemma {:induction false} EagerFrom(l: Limit, a: Option<Bucket>, b: Option<Bucket>, t: Instant,
                                     clock: seq<Instant>, checks: seq<bool>)
    requires |clock| == |checks| && Follows(t, clock) && Alike(l, a, b, t) && NotAfter(a, t)
    ensures EagerAnswers(l, a, clock, checks) == Answers(l, b, Select(clock, checks))
    decreases |clock|
  {
    hide Check, Refilled, Alike;
    if clock != [] {
      var now := clock[0];
      CheckAlike(l, a, b, t, now);
      if checks[0] {
        var next := Some(Check(l, a, now).0);
        AlikeReflexive(l, next, now);
        EagerFrom(l, next, next, now, clock[1..], checks[1..]);
        assert Select(clock, checks) == [now] + Select(clock[1..], checks[1..]);
      } else {
        var refilled := Some(Bucket(Refilled(l, a, now), now));
        RefillAlike(l, a, b, t, now);
        EagerFrom(l, refilled, b, now, clock[1..], checks[1..]);
        assert Select(clock, checks) == Select(clock[1..], checks[1..]);
      }
    }
  }

  lemma RefillAlike(l: Limit, a: Option<Bucket>, b: Option<Bucket>, t: Instant, now: Instant)
    requires Alike(l, a, b, t) && NotAfter(a, t) && t <= now
    ensures Alike(l, Some(Bucket(Refilled(l, a, now), now)), b, now)
  {
    hide Refilled;
    LazyRefill(l, a, now);
  }

  /** Refilling only when a check comes answers every run as refilling at any other instants in between would. */
  lemma LazyIsEager(l: Limit, b: Option<Bucket>, clock: seq<Instant>, checks: seq<bool>)
    requires |clock| == |checks| && Nondecreasing(clock) && (clock != [] ==> NotAfter(b, clock[0]))
    ensures EagerAnswers(l, b, clock, checks) == Answers(l, b, Select(clock, checks))
  {
    hide Check, Refilled;
    if clock != [] {
      AlikeReflexive(l, b, clock[0]);
      EagerFrom(l, b, b, clock[0], clock, checks);
    }
  }

  // ---------------------------------------------------------------- the delay

  lemma {:induction false} DenialsLeaveAlike(l: Limit, a: Option<Bucket>, b: Option<Bucket>, t: Instant,
                                             clock: seq<Instant>, later: Instant)
    requires Follows(t, clock + [later]) && Alike(l, a, b, t) && NotAfter(a, t)
    requires forall i :: 0 <= i < |clock| ==> !Answers(l, a, clock)[i].allowed
    ensures Alike(l, After(l, a, clock), b, later)
    decreases |clock|
  {
    hide Check, Refilled;
    assert (clock + [later])[|clock|] == later;
    if clock != [] {
      var now := clock[0];
      assert now == (clock + [later])[0];
      var a' := Some(Check(l, a, now).0);
      assert Answers(l, a, clock) == [Check(l, a, now).1] + Answers(l, a', clock[1..]);
      assert !Answers(l, a, clock)[0].allowed;
      DeniedLeavesAlike(l, a, b, t, now);
      assert clock[1..] + [later] == (clock + [later])[1..];
      forall i | 0 <= i < |clock| - 1
        ensures !Answers(l, a', clock[1..])[i].allowed
      {
        assert Answers(l, a', clock[1..])[i] == Answers(l, a, clock)[i + 1];
      }
      DenialsLeaveAlike(l, a', b, now, clock[1..], later);
    }
  }

  lemma DelayAfterDenial(l: Limit, b: Option<Bucket>, t: Instant, later: Instant)
    requires NotAfter(b, t) && t <= later && !Check(l, b, t).1.allowed
    ensures Check(l, Some(Check(l, b, t).0), later).1.allowed
            <==> l.capacity >= 1.0 && later - t >= Check(l, b, t).1.retryAfter
  {
    hide Inflow, Delay;
    var missing := 1.0 - Refilled(l, b, t);
    DelayInverts(l, missing);
    InflowOrdered(l, Delay(l, missing), later - t);
  }

  /**
   The delay is exact: after a denial at `t`, with only denials in between, a check at `later`
   is allowed precisely when the announced delay has passed and the bucket can hold a token.
   */
  lemma RetryAfterIsExact(l: Limit, b: Option<Bucket>, t: Instant, between: seq<Instant>, later: Instant)
    requires NotAfter(b, t) && Follows(t, between + [later])
    requires !Check(l, b, t).1.allowed
    requires var b' := Some(Check(l, b, t).0);
             forall i :: 0 <= i < |between| ==> !Answers(l, b', between)[i].allowed
    ensures var b' := Some(Check(l, b, t).0);
            Check(l, After(l, b', between), later).1.allowed
            <==> l.capacity >= 1.0 && later - t >= Check(l, b, t).1.retryAfter
  {
    hide Refilled, Check;
    var b' := Some(Check(l, b, t).0);
    assert (between + [later])[0] <= (between + [later])[|between|];
    AlikeReflexive(l, b, t);
    CheckAlike(l, b, b, t, t);
    AlikeReflexive(l, b', t);
    DenialsLeaveAlike(l, b', b', t, between, later);
    CheckAlike(l, After(l, b', between), b', later, later);
    DelayAfterDenial(l, b, t, later);
  }

  /** The limit the caller derives from a per-minute setting. */
  function PerMinute(n: nat): Limit
    requires n >= 1
  {
    LimitParams(n as real, n as real / 60.0)
  }

  /** The Retry-After header the caller sends is a whole number of seconds between 1 and ceil(60 / n). */
  lemma RetryAfterHeader(n: nat, b: Option<Bucket>, now: Instant)
    requires n >= 1 && NonNegative(b) && !Check(PerMinute(n), b, now).1.allowed
    ensures 1 <= Ceil(Check(PerMinute(n), b, now).1.retryAfter) <= Ceil(60.0 / n as real)
  {
    hide Inflow, Delay;
    var l := PerMinute(n);
    CheckKeepsRange(l, b, now);
    HeaderRange(n, Refilled(l, b, now));
  }

  lemma HeaderRange(n: nat, tokens: real)
    requires n >= 1 && 0.0 <= tokens < 1.0
    ensures 1 <= Ceil(Delay(PerMinute(n), 1.0 - tokens)) <= Ceil(60.0 / n as real)
  {
    var l := PerMinute(n);
    var full := Delay(l, 1.0);
    assert full == 60.0 / n as real;
    DelayOrdered(l, 0.0, 1.0 - tokens);
    DelayOrdered(l, 1.0 - tokens, 1.0);
    CeilMonotone(Delay(l, 1.0 - tokens), full);
  }

  // ---------------------------------------------------------------- expiry of idle keys

  /** Seconds after its last check for which Redis must keep the hash. */
  function Lifetime(l: Limit): int {
    Ceil(Delay(l, 2.0 * l.capacity))
  }

  /** The hash of a per-minute limit lives for two minutes after its last check, whatever the limit. */
  lemma LifetimeIsTwoMinutes(n: nat)
    requires n >= 1
    ensures Lifetime(PerMinute(n)) == 120
  {
    var l := PerMinute(n);
    assert Inflow(l, 120.0) == 2.0 * l.capacity;
    DelayInverts(l, 2.0 * l.capacity);
    hide Delay;
    InflowOrdered(l, Delay(l, 2.0 * l.capacity), 120.0);
    InflowOrdered(l, 120.0, Delay(l, 2.0 * l.capacity));
    assert 120.0.Floor == 120;
  }

  /** Answers when Redis drops the hash before the checks that `gone` marks. */
  function ExpiringAnswers(l: Limit, b: Option<Bucket>, clock: seq<Instant>, gone: seq<bool>): seq<Answer>
    requires |clock| == |gone|
    decreases |clock|
  {
    if clock == [] then []
    else
      var (b', answer) := Check(l, if gone[0] then None else b, clock[0]);
      [answer] + ExpiringAnswers(l, Some(b'), clock[1..], gone[1..])
  }

  /** No hash goes before its lifetime is over; whether it goes at all after that is Redis's choice. */
  predicate DropsOnlyIdle(l: Limit, b: Option<Bucket>, clock: seq<Instant>, gone: seq<bool>)
    requires |clock| == |gone|
    decreases |clock|
  {
    clock != [] ==>
      && (gone[0] && b.Some? ==> clock[0] >= b.value.ts + Lifetime(l) as real)
      && DropsOnlyIdle(l, Some(Check(l, if gone[0] then None else b, clock[0]).0), clock[1..], gone[1..])
  }

  lemma IdleBucketIsFull(l: Limit, b: Bucket, now: Instant)
    requires b.tokens >= 0.0 && now >= b.ts + Lifetime(l) as real
    ensures Refilled(l, Some(b), now) == l.capacity
  {
    hide Inflow, Delay;
    DelayInverts(l, 2.0 * l.capacity);
    InflowOrdered(l, Delay(l, 2.0 * l.capacity), now - b.ts);
    InflowOrdered(l, 0.0, Delay(l, 2.0 * l.capacity));
  }

  /** Dropping idle hashes changes no answer, under any clock. */
  lemma {:induction false} ExpiryIsInvisible(l: Limit, b: Option<Bucket>, clock: seq<Instant>, gone: seq<bool>)
    requires |clock| == |gone| && NonNegative(b) && DropsOnlyIdle(l, b, clock, gone)
    ensures ExpiringAnswers(l, b, clock, gone) == Answers(l, b, clock)
    decreases |clock|
  {
    hide Inflow, Delay;
    if clock != [] {
      if gone[0] && b.Some? {
        IdleBucketIsFull(l, b.value, clock[0]);
      }
      var b' := Check(l, b, clock[0]).0;
      if b.Some? {
        InflowOrdered(l, 0.0, Max(0.0, clock[0] - b.value.ts));
      }
      ExpiryIsInvisible(l, Some(b'), clock[1..], gone[1..]);
    }
  }
}
