/**
 The limiter object, the Redis server it talks to, and its one reload-and-retry. Commands can be
 lost before the server runs them or after, and the server can forget the script at any time.
 */
module RateLimiter {
  import opened Common
  import opened TokenBucket

  datatype Delivery = Answered | Lost | ReplyLost

  /** What happens to one command: the script cache may be emptied just before it arrives. */
  datatype Fate = Fate(flushed: bool, delivery: Delivery)

  /** The fates of the commands one check may send, in the order it sends them. */
  datatype Weather = Weather(load: Fate, eval: Fate, reload: Fate, retry: Fate)

  const SCRIPT_SHA := "bucket-script"

  /** The hashes and script cache of the server, and the digest the client remembers. */
  datatype LimiterState = LimiterState(buckets: map<string, Bucket>, hasScript: bool, scriptSha: Option<string>)

  function Lookup(buckets: map<string, Bucket>, key: string): Option<Bucket> {
    if key in buckets then Some(buckets[key]) else None
  }

  /** SCRIPT LOAD: false stands for an exception at the client. */
  function Load(st: LimiterState, fate: Fate): (LimiterState, bool) {
    var st := if fate.flushed then st.(hasScript := false) else st;
    match fate.delivery
    case Answered => (st.(hasScript := true, scriptSha := Some(SCRIPT_SHA)), true)
    case Lost => (st, false)
    case ReplyLost => (st.(hasScript := true), false)
  }

  function EnsureScript(st: LimiterState, fate: Fate): (LimiterState, bool) {
    if st.scriptSha.Some? then (st, true) else Load(st, fate)
  }

  /** EVALSHA: None stands for an exception at the client, which also a missing script raises. */
  function Eval(st: LimiterState, key: string, l: Limit, now: Instant, fate: Fate): (LimiterState, Option<Answer>) {
    var st := if fate.flushed then st.(hasScript := false) else st;
    if fate.delivery.Lost? || !st.hasScript then (st, None)
    else
      var (bucket, answer) := Check(l, Lookup(st.buckets, key), now);
      (st.(buckets := st.buckets[key := bucket]), if fate.delivery.Answered? then Some(answer) else None)
  }

  /** One check: evaluate, and on any exception forget the digest, reload and evaluate once more. */
  function LimiterCheck(st: LimiterState, key: string, l: Limit, now: Instant, w: Weather)
    : (LimiterState, Option<Answer>)
  {
    var (loaded, ok) := EnsureScript(st, w.load);
    if !ok then (loaded, None)
    else
      var (tried, answer) := Eval(loaded, key, l, now, w.eval);
      if answer.Some? then (tried, answer)
      else
        var (reloaded, again) := EnsureScript(tried.(scriptSha := None), w.reload);
        if !again then (reloaded, None) else Eval(reloaded, key, l, now, w.retry)
  }

  /** The instants of n script runs at `now`. */
  function Times(now: Instant, n: nat): seq<Instant> {
    seq(n, _ => now)
  }

  /** The first evaluation runs on the server but its reply never arrives. */
  predicate FirstReplyLost(st: LimiterState, w: Weather) {
    && EnsureScript(st, w.load).1
    && Runs(EnsureScript(st, w.load).0, w.eval)
    && w.eval.delivery.ReplyLost?
  }

  ghost predicate SameElsewhere(key: string, before: map<string, Bucket>, after: map<string, Bucket>) {
    forall k :: k != key ==> Lookup(after, k) == Lookup(before, k)
  }

  /** The evaluation reaches a server that has the script. */
  predicate Runs(st: LimiterState, fate: Fate) {
    st.hasScript && !fate.flushed && !fate.delivery.Lost?
  }

  lemma EvalIsOneRunOrNone(st: LimiterState, key: string, l: Limit, now: Instant, fate: Fate)
    ensures var (st', answer) := Eval(st, key, l, now, fate);
            var (bucket, result) := Check(l, Lookup(st.buckets, key), now);
            && SameElsewhere(key, st.buckets, st'.buckets)
            && Lookup(st'.buckets, key) == (if Runs(st, fate) then Some(bucket) else Lookup(st.buckets, key))
            && answer == (if Runs(st, fate) && fate.delivery.Answered? then Some(result) else None)
  {
    hide Check;
  }

  /**
   A check is at most two runs of the script on its own key, both at the instant it read; the
   answer is that of the last run; and an answered check ran twice precisely when the reply of the
   first evaluation was lost.
   */
  lemma CheckIsFewRuns(st: LimiterState, key: string, l: Limit, now: Instant, w: Weather) returns (runs: nat)
    ensures runs <= 2
    ensures var (st', answer) := LimiterCheck(st, key, l, now, w);
            && Lookup(st'.buckets, key) == After(l, Lookup(st.buckets, key), Times(now, runs))
            && SameElsewhere(key, st.buckets, st'.buckets)
            && (answer.Some? ==>
                 && runs >= 1
                 && answer.value == Answers(l, Lookup(st.buckets, key), Times(now, runs))[runs - 1]
                 && (runs == 2 <==> FirstReplyLost(st, w)))
  {
    hide Check, After, Answers, Times, Eval;
    UpToTwoRuns(l, Lookup(st.buckets, key), now);
    var (loaded, ok) := EnsureScript(st, w.load);
    EvalIsOneRunOrNone(loaded, key, l, now, w.eval);
    var (tried, answer) := Eval(loaded, key, l, now, w.eval);
    if !ok {
      runs := 0;
    } else if answer.Some? {
      runs := 1;
    } else {
      var (reloaded, again) := EnsureScript(tried.(scriptSha := None), w.reload);
      EvalIsOneRunOrNone(reloaded, key, l, now, w.retry);
      runs := (if Runs(loaded, w.eval) then 1 else 0) + (if again && Runs(reloaded, w.retry) then 1 else 0);
    }
  }

  lemma UpToTwoRuns(l: Limit, b: Option<Bucket>, now: Instant)
    ensures After(l, b, Times(now, 0)) == b
    ensures var (b1, a1) := Check(l, b, now);
            && After(l, b, Times(now, 1)) == Some(b1) && Answers(l, b, Times(now, 1)) == [a1]
            && var (b2, a2) := Check(l, Some(b1), now);
               After(l, b, Times(now, 2)) == Some(b2) && Answers(l, b, Times(now, 2)) == [a1, a2]
  {
    hide Check;
    assert Times(now, 1)[1..] == [] == Times(now, 0);
    assert Times(now, 2)[1..] == Times(now, 1);
    var b1 := Some(Check(l, b, now).0);
    assert After(l, b, Times(now, 1)) == After(l, b1, []);
    assert Answers(l, b, Times(now, 1)) == [Check(l, b, now).1] + Answers(l, b1, []);
    assert After(l, b, Times(now, 2)) == After(l, b1, Times(now, 1));
    assert After(l, b1, Times(now, 1)) == After(l, Some(Check(l, b1, now).0), []);
    assert Answers(l, b, Times(now, 2)) == [Check(l, b, now).1] + Answers(l, b1, Times(now, 1));
    assert Answers(l, b1, Times(now, 1)) == [Check(l, b1, now).1] + Answers(l, Some(Check(l, b1, now).0), []);
  }

  /** The tokens a check took out of its bucket, refill aside. */
  function Spent(l: Limit, before: Option<Bucket>, after: Option<Bucket>, now: Instant): real
    requires after.Some?
  {
    Refilled(l, before, now) - after.value.tokens
  }

  /**
   What a lost reply costs, for every answered check. The bucket gives exactly what the answer says
   unless the first reply was lost while a token was there; then two tokens pay for one permission
   if there were two, and one token pays for a denial if there were fewer.
   */
  lemma ChargeIsExact(st: LimiterState, key: string, l: Limit, now: Instant, w: Weather)
    requires NonNegative(Lookup(st.buckets, key)) && LimiterCheck(st, key, l, now, w).1.Some?
    ensures Lookup(LimiterCheck(st, key, l, now, w).0.buckets, key).Some?
    ensures var (st', answer) := LimiterCheck(st, key, l, now, w);
            var b, lost := Lookup(st.buckets, key), FirstReplyLost(st, w);
            var seen, spent := Refilled(l, b, now), Spent(l, b, Lookup(st'.buckets, key), now);
            && (spent == (if answer.value.allowed then 1.0 else 0.0) <==> !(lost && seen >= 1.0))
            && (answer.value.allowed && spent == 2.0 <==> lost && seen >= 2.0)
            && (!answer.value.allowed && spent == 1.0 <==> lost && 1.0 <= seen < 2.0)
  {
    var b := Lookup(st.buckets, key);
    var runs := CheckIsFewRuns(st, key, l, now, w);
    UpToTwoRuns(l, b, now);
    hide LimiterCheck, FirstReplyLost, After, Answers, Times, Inflow, Delay;
    CheckKeepsRange(l, b, now);
    InflowOrdered(l, 0.0, 0.0);
  }

  /** A witness: the one token of a bucket is taken, the reply is lost, and the retry is denied. */
  lemma LostReplyDenies(l: Limit)
    requires 1.0 <= l.capacity
    ensures var st := LimiterState(map["k" := Bucket(1.0, 0.0)], true, Some(SCRIPT_SHA));
            var ok := Fate(false, Answered);
            var (st', answer) := LimiterCheck(st, "k", l, 0.0, Weather(ok, Fate(false, ReplyLost), ok, ok));
            answer.Some? && !answer.value.allowed && Lookup(st'.buckets, "k") == Some(Bucket(0.0, 0.0))
  {
    hide Inflow, Delay;
    InflowOrdered(l, 0.0, 0.0);
  }

  /** The bucket moved to `now` and paid for the tokens it gave out, from what it held and what flowed in. */
  predicate Paid(l: Limit, before: Option<Bucket>, after: Option<Bucket>, now: Instant, given: nat) {
    && after.Some? && after.value.ts == now && after.value.tokens >= 0.0
    && given as real + after.value.tokens <= l.capacity
    && (before.Some? ==>
          given as real + after.value.tokens <= before.value.tokens + Inflow(l, Max(0.0, now - before.value.ts)))
  }

  lemma CheckPays(l: Limit, b: Option<Bucket>, now: Instant)
    requires NonNegative(b)
    ensures var (b', answer) := Check(l, b, now); Paid(l, b, Some(b'), now, if answer.allowed then 1 else 0)
  {
    hide Inflow, Delay;
    CheckKeepsRange(l, b, now);
    if b.Some? {
      CheckSpends(l, b.value, now);
    }
  }

  /** A second run at the same instant finds nothing more than the first one left. */
  lemma SecondRunPays(l: Limit, b: Option<Bucket>, b1: Bucket, now: Instant, given: nat)
    requires Paid(l, b, Some(b1), now, given)
    ensures var (b2, answer) := Check(l, Some(b1), now);
            Paid(l, b, Some(b2), now, given + (if answer.allowed then 1 else 0))
  {
    hide Inflow, Delay;
    InflowOrdered(l, 0.0, 0.0);
  }

  /** A whole check, retries included: the bucket is untouched, or it paid at least for the answer it gave. */
  lemma LimiterCheckPays(st: LimiterState, key: string, l: Limit, now: Instant, w: Weather)
    requires NonNegative(Lookup(st.buckets, key))
    ensures var (st', answer) := LimiterCheck(st, key, l, now, w);
            var given := if answer.Some? && answer.value.allowed then 1 else 0;
            && SameElsewhere(key, st.buckets, st'.buckets)
            && (|| (given == 0 && Lookup(st'.buckets, key) == Lookup(st.buckets, key))
                || Paid(l, Lookup(st.buckets, key), Lookup(st'.buckets, key), now, given))
  {
    var b := Lookup(st.buckets, key);
    var runs := CheckIsFewRuns(st, key, l, now, w);
    UpToTwoRuns(l, b, now);
    CheckPays(l, b, now);
    var (b1, a1) := Check(l, b, now);
    SecondRunPays(l, b, b1, now, if a1.allowed then 1 else 0);
    hide Check, LimiterCheck, After, Answers, Inflow, Times;
    if runs == 2 {
      PaidForLess(l, b, Some(Check(l, Some(b1), now).0), now);
    } else if runs == 1 {
      PaidForLess(l, b, Some(b1), now);
    }
  }

  /** The answer of a check, retries included, is the script's answer for some bucket that never went negative. */
  lemma AnswerIsOneRun(st: LimiterState, key: string, l: Limit, now: Instant, w: Weather) returns (seen: Option<Bucket>)
    requires NonNegative(Lookup(st.buckets, key)) && LimiterCheck(st, key, l, now, w).1.Some?
    ensures NonNegative(seen) && LimiterCheck(st, key, l, now, w).1.value == Check(l, seen, now).1
  {
    var b := Lookup(st.buckets, key);
    var runs := CheckIsFewRuns(st, key, l, now, w);
    UpToTwoRuns(l, b, now);
    CheckKeepsRange(l, b, now);
    hide Check, LimiterCheck, After, Answers, Times;
    seen := if runs == 2 then Some(Check(l, b, now).0) else b;
  }

  lemma PaidForLess(l: Limit, before: Option<Bucket>, after: Option<Bucket>, now: Instant)
    ensures forall given: nat, less: nat :: less <= given && Paid(l, before, after, now, given) ==>
        Paid(l, before, after, now, less)
  {
  }

  /**
   Losing the cached script is invisible: while every command is answered and the script survives
   from the reload to the retry, a check is exactly one run, whatever the two caches held before.
   */
  lemma ScriptLossIsInvisible(st: LimiterState, key: string, l: Limit, now: Instant, w: Weather)
    requires w.load.delivery.Answered? && w.eval.delivery.Answered?
    requires w.reload.delivery.Answered? && w.retry == Fate(false, Answered)
    ensures var (st', answer) := LimiterCheck(st, key, l, now, w);
            var (bucket, expected) := Check(l, Lookup(st.buckets, key), now);
            && answer == Some(expected)
            && st'.buckets == st.buckets[key := bucket]
            && st'.scriptSha.Some?
  {
    hide Check;
  }

  /** Every command is answered, and the script survives from the reload to the retry. */
  predicate Calm(w: Weather) {
    && w.load.delivery.Answered? && w.eval.delivery.Answered? && w.reload.delivery.Answered?
    && w.retry == Fate(false, Answered)
  }

  /** The limiter after k checks of one key at one instant. */
  function AfterChecks(st: LimiterState, key: string, l: Limit, now: Instant, w: Weather, k: nat): LimiterState {
    if k == 0 then st else LimiterCheck(AfterChecks(st, key, l, now, w, k - 1), key, l, now, w).0
  }

  lemma NoChecks(st: LimiterState, key: string, l: Limit, now: Instant, w: Weather)
    ensures AfterChecks(st, key, l, now, w, 0) == st
  {
  }

  /** A limit of n a minute: of the checks of a new key at one instant, the first n pass and no other does. */
  lemma {:induction false} Burst(st: LimiterState, key: string, n: nat, now: Instant, w: Weather, k: nat)
    requires n >= 1 && key !in st.buckets && Calm(w)
    ensures var st' := AfterChecks(st, key, PerMinute(n), now, w, k);
            var answer := LimiterCheck(st', key, PerMinute(n), now, w).1;
            && answer.Some? && (answer.value.allowed <==> k < n)
            && SameElsewhere(key, st.buckets, st'.buckets)
            && Lookup(st'.buckets, key)
               == (if k == 0 then None else Some(Bucket(if k < n then (n - k) as real else 0.0, now)))
  {
    var l := PerMinute(n);
    hide LimiterCheck, Inflow, Delay, PerMinute;
    assert l.capacity == n as real by {
      CapacityIsLimit(n);
    }
    InflowOrdered(l, 0.0, 0.0);
    if k > 0 {
      Burst(st, key, n, now, w, k - 1);
      ScriptLossIsInvisible(AfterChecks(st, key, l, now, w, k - 1), key, l, now, w);
    }
    ScriptLossIsInvisible(AfterChecks(st, key, l, now, w, k), key, l, now, w);
  }

  lemma CapacityIsLimit(n: nat)
    requires n >= 1
    ensures PerMinute(n).capacity == n as real
  {
  }

  /**
   When a check answers, in terms of the commands it sends: the first evaluation found the script and
   was answered, or else script and answer came with the reload and the retry.
   */
  lemma AnsweredExactlyWhen(st: LimiterState, key: string, l: Limit, now: Instant, w: Weather)
    ensures var known := st.scriptSha.Some?;
            var loaded := known || w.load.delivery.Answered?;
            var found := loaded && !w.eval.flushed && (known ==> st.hasScript);
            && (LimiterCheck(st, key, l, now, w).1.Some?
                <==> || (found && w.eval.delivery.Answered?)
                     || (loaded && w.reload.delivery.Answered? && !w.retry.flushed && w.retry.delivery.Answered?))
            && (FirstReplyLost(st, w) <==> found && w.eval.delivery.ReplyLost?)
  {
    hide Check;
  }

  /** The server: its hashes and whether its script cache still holds the script. */
  class Redis {
    var buckets: map<string, Bucket>
    var hasScript: bool

    constructor ()
      ensures buckets == map[] && !hasScript
    {
      buckets := map[];
      hasScript := false;
    }

    method ScriptLoad(fate: Fate) returns (sha: Option<string>)
      modifies this`hasScript
      ensures sha == if fate.delivery.Answered? then Some(SCRIPT_SHA) else None
      ensures hasScript == if fate.delivery.Lost? then old(hasScript) && !fate.flushed else true
    {
      if fate.flushed {
        hasScript := false;
      }
      sha := None;
      if !fate.delivery.Lost? {
        hasScript := true;
        if fate.delivery.Answered? {
          sha := Some(SCRIPT_SHA);
        }
      }
    }

    method EvalSha(key: string, l: Limit, now: Instant, fate: Fate) returns (answer: Option<Answer>)
      modifies this
      ensures hasScript == (old(hasScript) && !fate.flushed)
      ensures var ran := hasScript && !fate.delivery.Lost?;
              var (bucket, result) := Check(l, Lookup(old(buckets), key), now);
              && buckets == (if ran then old(buckets)[key := bucket] else old(buckets))
              && answer == (if ran && fate.delivery.Answered? then Some(result) else None)
    {
      if fate.flushed {
        hasScript := false;
      }
      answer := None;
      if hasScript && !fate.delivery.Lost? {
        var tokens, ts := l.capacity, now;
        if key in buckets {
          tokens, ts := buckets[key].tokens, buckets[key].ts;
        }
        var elapsed := Max(0.0, now - ts);
        tokens := Min(l.capacity, tokens + Inflow(l, elapsed));
        var allowed, retryAfter := false, 0.0;
        if tokens >= 1.0 {
          tokens := tokens - 1.0;
          allowed := true;
        } else {
          retryAfter := Delay(l, 1.0 - tokens);
        }
        buckets := buckets[key := Bucket(tokens, now)];
        if fate.delivery.Answered? {
          answer := Some(Answer(allowed, retryAfter));
        }
        InflowOrdered(l, 0.0, 0.0);
      }
    }
  }

  class Limiter {
    const redis: Redis
    var scriptSha: Option<string>

    constructor (redis: Redis)
      ensures this.redis == redis && scriptSha == None
    {
      this.redis := redis;
      scriptSha := None;
    }

    ghost function State(): LimiterState
      reads this, redis
    {
      LimiterState(redis.buckets, redis.hasScript, scriptSha)
    }

    /** False when loading the script raised. */
    method EnsureLoaded(fate: Fate) returns (ok: bool)
      modifies this`scriptSha, redis`hasScript
      ensures (State(), ok) == EnsureScript(old(State()), fate)
    {
      if scriptSha.None? {
        var sha := redis.ScriptLoad(fate);
        if sha.None? {
          return false;
        }
        scriptSha := sha;
      }
      return true;
    }

    /** Try to take one token; None when the check raised. */
    method TryTake(key: string, l: Limit, now: Instant, w: Weather) returns (answer: Option<Answer>)
      modifies this, redis
      ensures (State(), answer) == LimiterCheck(old(State()), key, l, now, w)
    {
      var ok := EnsureLoaded(w.load);
      if !ok {
        return None;
      }
      answer := redis.EvalSha(key, l, now, w.eval);
      if answer.None? {
        scriptSha := None;
        ok := EnsureLoaded(w.reload);
        if !ok {
          return None;
        }
        answer := redis.EvalSha(key, l, now, w.retry);
      }
    }
  }
}
