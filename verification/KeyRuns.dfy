/** Idempotency keys over serial runs of the whole service: 24 hours between acceptances, stable replay in between. */
module KeyRuns {
  import opened Common
  import opened RateLimiter
  import opened Store
  import opened Outbound
  import opened Service

  function ResponseAt(c: Config, w: World, steps: seq<Step>, n: nat): Response
    requires n < |steps| && steps[n].Post?
  {
    PostEnding(c, At(c, w, steps, n), steps[n].req, steps[n].env).response
  }

  predicate AcceptedAt(c: Config, w: World, steps: seq<Step>, n: nat)
    requires n < |steps|
  {
    steps[n].Post? && ResponseAt(c, w, steps, n).Accepted?
  }

  /** Step n is an accepted request with this actor and key. */
  predicate AcceptsKey(c: Config, w: World, steps: seq<Step>, n: nat, scope: (string, string))
    requires n < |steps|
  {
    AcceptedAt(c, w, steps, n) && Scope(steps[n].req) == scope && steps[n].req.key != ""
  }

  /** The row stands, or its day is over. */
  predicate Standing(s: Store, clock: Instant, scope: (string, string), row: KeyRow) {
    (scope in s.keys && s.keys[scope] == row) || clock >= row.expiresAt
  }

  lemma PostKeepsStanding(s: Store, lim: LimiterState, c: Config, req: Request, env: Env, scope: (string, string),
                          row: KeyRow)
    requires scope in s.keys && s.keys[scope] == row && env.clock.Ordered()
    ensures Standing(Commit(s, Handle(s, lim, c.settings, req, env)), env.clock.persist, scope, row)
  {
    hide Handle;
    var e := Handle(s, lim, c.settings, req, env);
    if e.response.Accepted? {
      AcceptedAddsOneMessage(s, lim, c.settings, req, env);
      if scope != Scope(req) {
        OtherKeysStay(s, Commit(s, e), req, scope);
      }
    } else {
      RefusalLeavesNoTrace(s, lim, c.settings, req, env);
    }
  }

  lemma OtherKeysStay(s: Store, s': Store, req: Request, scope: (string, string))
    requires scope in s.keys && scope != Scope(req)
    requires s'.keys == s.keys || s'.keys - {Scope(req)} == s.keys - {Scope(req)}
    ensures scope in s'.keys && s'.keys[scope] == s.keys[scope]
  {
    assert scope in s.keys - {Scope(req)};
    assert s'.keys != s.keys ==> scope in s'.keys - {Scope(req)};
  }

  lemma OnlyRequestsAndReapingTouchKeys(c: Config, w: World, step: Step)
    requires !step.Post? && !step.Reap?
    ensures Apply(c, w, step).store.keys == w.store.keys
  {
    hide Possible, DeliveryStatus.MetaAll, Batches.Drained, Inbound.InsertAll;
    match step
    case Webhook(list, created, _) => Inbound.BatchIsUnion(w.store, list, created);
    case MetaBatch(provider, items, created, _) => DeliveryStatus.MetaAllKeeps(w.store, provider, items, created);
    case _ =>
  }

  lemma StepKeepsStanding(c: Config, w: World, step: Step, clock: Instant, scope: (string, string), row: KeyRow)
    requires Standing(w.store, clock, scope, row) && Possible(c, w, step) && clock <= Starts(step) <= Ends(step)
    ensures Standing(Apply(c, w, step).store, Ends(step), scope, row)
  {
    hide Handle;
    if clock < row.expiresAt {
      match step
      case Post(req, env) => PostKeepsStanding(w.store, w.limiter, c, req, env, scope, row);
      case Reap(now) =>
      case _ => OnlyRequestsAndReapingTouchKeys(c, w, step);
    }
  }

  lemma {:induction false} RowStands(c: Config, w: World, clock: Instant, steps: seq<Step>, m: nat, n: nat,
                                     scope: (string, string), row: KeyRow)
    requires Serial(clock, steps) && AllPossible(c, w, steps) && m <= n <= |steps|
    requires Standing(At(c, w, steps, m).store, ClockAt(clock, steps, m), scope, row)
    ensures Standing(At(c, w, steps, n).store, ClockAt(clock, steps, n), scope, row)
    decreases n
  {
    hide Apply, Standing, Possible;
    if m < n {
      RowStands(c, w, clock, steps, m, n - 1, scope, row);
      assert Possible(c, At(c, w, steps, n - 1), steps[n - 1]);
      StepKeepsStanding(c, At(c, w, steps, n - 1), steps[n - 1], ClockAt(clock, steps, n - 1), scope, row);
    }
  }

  /** The row an accepted request leaves: the claim time, and the message it made. */
  function RowAfter(c: Config, w: World, steps: seq<Step>, n: nat, scope: (string, string)): KeyRow
    requires n < |steps|
  {
    var keys := At(c, w, steps, n + 1).store.keys;
    if scope in keys then keys[scope] else ClaimRow("", 0.0)
  }

  /** An accepted request with a key leaves a row for its body and its message, claimed during its own step. */
  lemma AcceptanceWritesRow(c: Config, w: World, clock: Instant, steps: seq<Step>, n: nat, scope: (string, string))
    requires Serial(clock, steps) && AllPossible(c, w, steps) && n < |steps| && AcceptsKey(c, w, steps, n, scope)
    ensures var row, before := RowAfter(c, w, steps, n, scope), At(c, w, steps, n);
            && scope in At(c, w, steps, n + 1).store.keys && At(c, w, steps, n + 1).store.keys[scope] == row
            && row.messageId == Some(ResponseAt(c, w, steps, n).messageId)
            && row.fingerprint == Sha256(steps[n].req.body)
            && row.expiresAt == row.createdAt + 86400.0
            && Starts(steps[n]) <= row.createdAt <= Ends(steps[n])
            && (scope in before.store.keys ==>
                  before.store.keys[scope].expiresAt <= steps[n].env.clock.examine <= row.createdAt)
  {
    hide Handle, Gates;
    var before := At(c, w, steps, n);
    assert Possible(c, before, steps[n]);
    AcceptedAddsOneMessage(before.store, before.limiter, c.settings, steps[n].req, steps[n].env);
  }

  /** Two acceptances of one actor and key lie at least a day apart, measured between their claims. */
  lemma ExpirySpacing(c: Config, w: World, clock: Instant, steps: seq<Step>, i: nat, j: nat, scope: (string, string))
    requires Serial(clock, steps) && AllPossible(c, w, steps) && i < j < |steps|
    requires AcceptsKey(c, w, steps, i, scope) && AcceptsKey(c, w, steps, j, scope)
    ensures RowAfter(c, w, steps, j, scope).createdAt >= RowAfter(c, w, steps, i, scope).createdAt + 86400.0
  {
    hide At, AcceptsKey, AllPossible;
    AcceptanceWritesRow(c, w, clock, steps, i, scope);
    AcceptanceWritesRow(c, w, clock, steps, j, scope);
    RowStands(c, w, clock, steps, i + 1, j, scope, RowAfter(c, w, steps, i, scope));
    assert ClockAt(clock, steps, j) <= Starts(steps[j]);
    hide Serial, ClockAt, Starts, Ends, RowAfter;
  }

  lemma LiveRowAnswers(c: Config, w: World, req: Request, env: Env)
    requires EnvelopeError(req).None? && req.key != "" && env.clock.Ordered()
    requires Scope(req) in w.store.keys && w.store.keys[Scope(req)].expiresAt > env.clock.examine
    ensures PostEnding(c, w, req, env).response
            == if w.store.keys[Scope(req)].fingerprint == Sha256(req.body)
               then Replayed(w.store.keys[Scope(req)].messageId) else Mismatched
    ensures Apply(c, w, Post(req, env)) == w
  {
    hide Handle;
    LiveKeyAnswers(w.store, w.limiter, c.settings, req, env);
  }

  /**
   Stable replay: after an acceptance, every well-formed request with the same actor and key that is
   examined before the day is over changes nothing and consumes no token; the same body gets the
   accepted message's id, any other body a 422.
   */
  lemma StableReplay(c: Config, w: World, clock: Instant, steps: seq<Step>, i: nat, k: nat, scope: (string, string))
    requires Serial(clock, steps) && AllPossible(c, w, steps) && i < k < |steps|
    requires AcceptsKey(c, w, steps, i, scope)
    requires steps[k].Post? && Scope(steps[k].req) == scope && steps[k].req.key != ""
        && EnvelopeError(steps[k].req).None?
    requires steps[k].env.clock.examine < RowAfter(c, w, steps, i, scope).createdAt + 86400.0
    ensures ResponseAt(c, w, steps, k)
            == if steps[k].req.body == steps[i].req.body then Replayed(Some(ResponseAt(c, w, steps, i).messageId))
              else Mismatched
    ensures At(c, w, steps, k + 1) == At(c, w, steps, k)
  {
    hide At, AcceptsKey, Apply, PostEnding, AllPossible;
    AcceptanceWritesRow(c, w, clock, steps, i, scope);
    RowStands(c, w, clock, steps, i + 1, k, scope, RowAfter(c, w, steps, i, scope));
    assert ClockAt(clock, steps, k) <= Starts(steps[k]);
    StepFromTo(c, w, steps, k);
    LiveRowAnswers(c, At(c, w, steps, k), steps[k].req, steps[k].env);
  }

  lemma StepFromTo(c: Config, w: World, steps: seq<Step>, k: nat)
    requires AllPossible(c, w, steps) && k < |steps|
    ensures Possible(c, At(c, w, steps, k), steps[k])
        && At(c, w, steps, k + 1) == Apply(c, At(c, w, steps, k), steps[k])
  {
    hide Possible, Apply;
  }
}
