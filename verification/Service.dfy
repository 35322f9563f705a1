/**
 The whole service as a machine whose steps are its committed transactions: requests, webhooks,
 the two drains and the reaper, over one store, one limiter and one stream.
 */
module Service {
  import opened Common
  import Batches
  import opened Conversation
  import opened RateLimiter
  import opened Store
  import opened StoreEdits
  import opened Outbound
  import Inbound
  import DeliveryStatus
  import OutboxDrain
  import EventDrain

  datatype World = World(store: Store, limiter: LimiterState, stream: seq<nat>)

  datatype Step =
    | Post(req: Request, env: Env)
    | Webhook(list: seq<Inbound.Arrival>, created: Instant, until: Instant)
    | StatusReport(provider: Provider, id: string, report: DeliveryStatus.Report, created: Instant, audited: bool)
    | MetaBatch(provider: Provider, items: seq<DeliveryStatus.MetaItem>, created: Instant, until: Instant)
    | DispatchDrain(now: Instant, batch: seq<nat>, outcomes: seq<OutboxDrain.Dispatch>, until: Instant, commits: bool)
    | PublishDrain(now: Instant, batch: seq<nat>, published: seq<EventDrain.Publication>, until: Instant, commits: bool)
    | Reap(now: Instant)

  /** Settings that stay fixed over a run: the rate limits and the two batch sizes. */
  datatype Config = Config(settings: Settings, dispatchBatch: nat, publishBatch: nat)

  function Starts(step: Step): Instant {
    match step
    case Post(_, env) => env.clock.arrive
    case Webhook(_, created, _) => created
    case StatusReport(_, _, _, created, _) => created
    case MetaBatch(_, _, created, _) => created
    case DispatchDrain(now, _, _, _, _) => now
    case PublishDrain(now, _, _, _, _) => now
    case Reap(now) => now
  }

  function Ends(step: Step): Instant {
    match step
    case Post(_, env) => env.clock.persist
    case Webhook(_, _, until) => until
    case StatusReport(_, _, _, created, _) => created
    case MetaBatch(_, _, _, until) => until
    case DispatchDrain(_, _, _, until, _) => until
    case PublishDrain(_, _, _, until, _) => until
    case Reap(now) => now
  }

  /** What the database, the clock and the providers can do in one step. */
  predicate Possible(c: Config, w: World, step: Step) {
    match step
    case Post(_, env) => env.clock.Ordered()
    case Webhook(_, _, _) => true
    case StatusReport(_, _, report, _, _) => report.providerStatus != "read"
    case MetaBatch(provider, items, _, _) =>
      && DeliveryStatus.IsMeta(provider)
      && (forall k :: 0 <= k < |items| ==> DeliveryStatus.PickIsNewest(w.store.messages, provider, items[k]))
    case DispatchDrain(now, batch, outcomes, until, _) =>
      && |batch| == |outcomes| && OutboxDrain.IsBatch(w.store.items, now, c.dispatchBatch, batch)
      && (forall i :: 0 <= i < |outcomes| ==> OutboxDrain.Punctual(outcomes[i], now, until))
    case PublishDrain(_, batch, outcomes, _, commits) =>
      && |outcomes| <= |batch| && (commits ==> |outcomes| == |batch|)
      && EventDrain.IsBatch(w.store.events, c.publishBatch, batch)
    case Reap(_) => true
  }

  function PostEnding(c: Config, w: World, req: Request, env: Env): Ending {
    Handle(w.store, w.limiter, c.settings, req, env)
  }

  /** One committed step; what is not possible does not happen. */
  function Apply(c: Config, w: World, step: Step): World {
    if !Possible(c, w, step) then w
    else
      match step
      case Post(req, env) =>
        var e := PostEnding(c, w, req, env);
        w.(store := Commit(w.store, e), limiter := e.limiter)
      case Webhook(list, created, _) => w.(store := Inbound.Receive(w.store, list, created))
      case StatusReport(provider, id, report, created, audited) =>
        w.(store := DeliveryStatus.CommitReport(w.store, provider, id, report, created, audited))
      case MetaBatch(provider, items, created, _) =>
        if DeliveryStatus.AuditsPass(w.store.messages, provider, items)
        then w.(store := DeliveryStatus.MetaAll(w.store, provider, items, created)) else w
      case DispatchDrain(_, batch, outcomes, _, commits) =>
        var items := Batches.Drained(w.store.items, batch, outcomes, OutboxDrain.Settle);
        if commits then w.(store := w.store.(items := items)) else w
      case PublishDrain(_, batch, outcomes, _, commits) =>
        World(if commits
              then w.store.(events := Batches.Drained(w.store.events, batch, outcomes, EventDrain.Settle)) else w.store,
              w.limiter, w.stream + EventDrain.Appended(batch[..|outcomes|], outcomes))
      case Reap(now) => w.(store := w.store.(keys := Reaped(w.store.keys, now)))
  }

  /** The world after the first n steps. */
  function At(c: Config, w: World, steps: seq<Step>, n: nat): World
    requires n <= |steps|
  {
    if n == 0 then w else Apply(c, At(c, w, steps, n - 1), steps[n - 1])
  }

  function ClockAt(clock: Instant, steps: seq<Step>, n: nat): Instant
    requires n <= |steps|
  {
    if n == 0 then clock else Ends(steps[n - 1])
  }

  /** A serial run with a clock that never goes back. */
  predicate Serial(clock: Instant, steps: seq<Step>) {
    forall n :: 0 <= n < |steps| ==> ClockAt(clock, steps, n) <= Starts(steps[n]) <= Ends(steps[n])
  }

  predicate AllPossible(c: Config, w: World, steps: seq<Step>) {
    forall n :: 0 <= n < |steps| ==> Possible(c, At(c, w, steps, n), steps[n])
  }

  // ---------------------------------------------------------------- the store invariant

  lemma ApplyKeepsInv(c: Config, w: World, step: Step)
    requires Inv(w.store)
    ensures Inv(Apply(c, w, step).store)
  {
    hide Inv, Handle, Inbound.Receive, DeliveryStatus.MetaAll, DeliveryStatus.Apply, Batches.Drained;
    hide OutboxDrain.IsBatch, EventDrain.IsBatch;
    if Possible(c, w, step) {
      match step
      case Post(req, env) => HandleKeepsInv(w.store, w.limiter, c.settings, req, env);
      case Webhook(list, created, _) => WebhookKeepsInv(w.store, list, created);
      case StatusReport(provider, id, report, created, audited) =>
        DeliveryStatus.ApplyKeepsInv(w.store, provider, id, report, created);
      case MetaBatch(provider, items, created, _) => DeliveryStatus.MetaAllKeeps(w.store, provider, items, created);
      case DispatchDrain(now, batch, outcomes, _, _) =>
        OutboxDrain.DrainKeepsInv(w.store, now, c.dispatchBatch, batch, outcomes);
      case PublishDrain(_, batch, outcomes, _, commits) =>
        if commits {
          EventDrain.DrainKeepsInv(w.store, c.publishBatch, batch, outcomes);
        }
      case Reap(now) =>
        var gone := set scope | scope in w.store.keys && w.store.keys[scope].expiresAt <= now;
        assert w.store.keys - gone == Reaped(w.store.keys, now);
        DropKeysKeepsInv(w.store, gone);
    }
  }

  lemma WebhookKeepsInv(s: Store, list: seq<Inbound.Arrival>, created: Instant)
    requires Inv(s)
    ensures Inv(Inbound.Receive(s, list, created))
  {
    hide Inv;
    Inbound.InsertAllKeepsInv(s, list, created);
  }

  /** Every store reachable by committed steps satisfies the invariant. */
  lemma {:induction false} ReachableStoresAreSound(c: Config, w: World, steps: seq<Step>, n: nat)
    requires Inv(w.store) && n <= |steps|
    ensures Inv(At(c, w, steps, n).store)
  {
    hide Inv, Apply;
    if n > 0 {
      ReachableStoresAreSound(c, w, steps, n - 1);
      ApplyKeepsInv(c, At(c, w, steps, n - 1), steps[n - 1]);
    }
  }

  lemma EmptyStoreIsSound()
    ensures Inv(EMPTY)
  {
  }

  /**
   From the empty database on: lookups by external id match at most one row, threads and conversations
   are the same partition, and each message's status is the one its event log replays to.
   */
  lemma ReachableStoresMakeSense(c: Config, limiter: LimiterState, steps: seq<Step>, n: nat, i: nat, j: nat)
    requires n <= |steps|
    requires i < |At(c, World(EMPTY, limiter, []), steps, n).store.messages|
    requires j < |At(c, World(EMPTY, limiter, []), steps, n).store.messages|
    ensures var s := At(c, World(EMPTY, limiter, []), steps, n).store;
            var a, b := s.messages[i], s.messages[j];
            && (HasExternalId(a, b.provider, b.providerMessageId) <==> i == j)
            && (a.threadId.Some? && b.threadId.Some? ==>
                 (a.conversationId == b.conversationId <==> a.provider == b.provider && a.threadId == b.threadId))
            && a.status == ReplayStatus(s.events, i, InitialStatus(a.direction))
  {
    hide Apply;
    EmptyStoreIsSound();
    ReachableStoresAreSound(c, World(EMPTY, limiter, []), steps, n);
    var s := At(c, World(EMPTY, limiter, []), steps, n).store;
    Threading(s, i, j);
    AtMostOneMatch(s.messages, s.messages[j].provider, s.messages[j].providerMessageId, i);
    AtMostOneMatch(s.messages, s.messages[j].provider, s.messages[j].providerMessageId, j);
  }

  // ---------------------------------------------------------------- messages are forever

  /** Messages stay, keep everything but their status fields, and never lose a delivery time. */
  predicate MessagesEndure(a: seq<Message>, b: seq<Message>) {
    |a| <= |b| && forall i :: 0 <= i < |a| ==> SameButStatus(a[i], b[i]) && DeliveryStatus.KeepsDelivery(a[i], b[i])
  }

  lemma ApplyEndures(c: Config, w: World, step: Step)
    ensures MessagesEndure(w.store.messages, Apply(c, w, step).store.messages)
  {
    hide DeliveryStatus.MetaAll, DeliveryStatus.Apply, Batches.Drained, Inbound.InsertAll;
    hide OutboxDrain.IsBatch, EventDrain.IsBatch, Handle;
    if Possible(c, w, step) {
      match step
      case Post(req, env) =>
        var e := Handle(w.store, w.limiter, c.settings, req, env);
        if e.response.Accepted? {
          AcceptedAddsOneMessage(w.store, w.limiter, c.settings, req, env);
        } else {
          RefusalLeavesNoTrace(w.store, w.limiter, c.settings, req, env);
        }
      case Webhook(list, created, _) =>
        Inbound.BatchIsUnion(w.store, list, created);
        var s' := Inbound.InsertAll(w.store, list, created);
        assert forall i :: 0 <= i < |w.store.messages| ==> s'.messages[i] == s'.messages[..|w.store.messages|][i];
      case StatusReport(provider, id, report, created, audited) =>
        ReportEndures(w.store, provider, id, report, created);
      case MetaBatch(provider, items, created, _) => DeliveryStatus.MetaAllKeeps(w.store, provider, items, created);
      case _ =>
    }
  }

  lemma ReportEndures(s: Store, provider: Provider, id: string, r: DeliveryStatus.Report, created: Instant)
    ensures MessagesEndure(s.messages, DeliveryStatus.Apply(s, provider, id, r, created).messages)
  {
  }

  /** Over any run, in any store: no message disappears or changes identity, and no delivery time is cleared. */
  lemma {:induction false} MessagesEndureRuns(c: Config, w: World, steps: seq<Step>, m: nat, n: nat)
    requires m <= n <= |steps|
    ensures MessagesEndure(At(c, w, steps, m).store.messages, At(c, w, steps, n).store.messages)
    decreases n
  {
    hide Apply;
    if m < n {
      MessagesEndureRuns(c, w, steps, m, n - 1);
      var a, b := At(c, w, steps, m).store.messages, At(c, w, steps, n - 1).store.messages;
      ApplyEndures(c, At(c, w, steps, n - 1), steps[n - 1]);
      var d := At(c, w, steps, n).store.messages;
      forall i | 0 <= i < |a|
        ensures SameButStatus(a[i], d[i]) && DeliveryStatus.KeepsDelivery(a[i], d[i])
      {
        assert SameButStatus(a[i], b[i]) && SameButStatus(b[i], d[i]);
      }
    }
  }
}
