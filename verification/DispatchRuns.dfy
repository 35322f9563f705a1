/** The outbox table inside runs of the whole service: the table's own run, and what it gives each message. */
module DispatchRuns {
  import opened Common
  import opened Store
  import opened Outbound
  import opened Service
  import opened KeyRuns
  import OutboxDrain

  /** What a service step means to the outbox table, if anything. */
  function TableStep(c: Config, w: World, step: Step): seq<OutboxDrain.Step> {
    match step
    case Post(req, env) =>
      var e := PostEnding(c, w, req, env);
      if e.response.Accepted? then [OutboxDrain.Enqueue(NewItem(|w.store.messages|, env.clock))] else []
    case DispatchDrain(now, batch, outcomes, until, commits) =>
      [OutboxDrain.Drain(now, batch, outcomes, until, commits)]
    case _ => []
  }

  /** The table's run inside the first n service steps from step m on. */
  function TableRun(c: Config, w: World, steps: seq<Step>, m: nat): seq<OutboxDrain.Step>
    requires m <= |steps|
    decreases |steps| - m
  {
    if m == |steps| then [] else TableStep(c, At(c, w, steps, m), steps[m]) + TableRun(c, w, steps, m + 1)
  }

  lemma StepProjects(c: Config, w: World, step: Step, clock: Instant)
    requires Possible(c, w, step) && clock <= Starts(step) <= Ends(step)
    ensures var run := TableStep(c, w, step);
            && (run == [] ==> Apply(c, w, step).store.items == w.store.items)
            && (run != [] ==>
                 && |run| == 1 && OutboxDrain.ValidStep(w.store.items, clock, c.dispatchBatch, run[0])
                 && OutboxDrain.After(w.store.items, clock, c.dispatchBatch, run[0]) == Apply(c, w, step).store.items
                 && OutboxDrain.ClockAfter(run[0]) == Ends(step))
  {
    hide Handle, OutboxDrain.IsBatch, Batches.Drained, EventDrain.IsBatch;
    match step
    case Post(req, env) =>
      var e := PostEnding(c, w, req, env);
      if e.response.Accepted? {
        AcceptedAddsOneMessage(w.store, w.limiter, c.settings, req, env);
      } else {
        RefusalLeavesNoTrace(w.store, w.limiter, c.settings, req, env);
      }
    case Webhook(list, created, _) => Inbound.BatchIsUnion(w.store, list, created);
    case MetaBatch(provider, items, created, _) => DeliveryStatus.MetaAllKeeps(w.store, provider, items, created);
    case _ =>
  }

  lemma EarlierClock(items: seq<OutboxItem>, earlier: Instant, clock: Instant, limit: nat, run: seq<OutboxDrain.Step>)
    requires OutboxDrain.ValidRun(items, clock, limit, run) && earlier <= clock
    ensures OutboxDrain.ValidRun(items, earlier, limit, run)
  {
  }

  /** The outbox table of a serial run of the service runs exactly as the drain's own model says. */
  lemma {:induction false} TableRunIsValid(c: Config, w: World, clock: Instant, steps: seq<Step>, m: nat)
    requires Serial(clock, steps) && AllPossible(c, w, steps) && m <= |steps|
    ensures OutboxDrain.ValidRun(At(c, w, steps, m).store.items, ClockAt(clock, steps, m), c.dispatchBatch,
                                 TableRun(c, w, steps, m))
    ensures OutboxDrain.End(At(c, w, steps, m).store.items, ClockAt(clock, steps, m), c.dispatchBatch,
                            TableRun(c, w, steps, m)).0 == At(c, w, steps, |steps|).store.items
    ensures OutboxDrain.End(At(c, w, steps, m).store.items, ClockAt(clock, steps, m), c.dispatchBatch,
                            TableRun(c, w, steps, m)).1 <= ClockAt(clock, steps, |steps|)
    decreases |steps| - m
  {
    hide Apply, TableStep, Possible, OutboxDrain.ValidStep, OutboxDrain.After;
    if m < |steps| {
      TableRunIsValid(c, w, clock, steps, m + 1);
      var before, after := At(c, w, steps, m), At(c, w, steps, m + 1);
      assert Possible(c, before, steps[m]);
      StepProjects(c, before, steps[m], ClockAt(clock, steps, m));
      var rest := TableRun(c, w, steps, m + 1);
      var first := TableStep(c, before, steps[m]);
      if first == [] {
        assert first + rest == rest;
        EarlierRun(before.store.items, ClockAt(clock, steps, m), ClockAt(clock, steps, m + 1), c.dispatchBatch, rest);
      } else {
        assert (first + rest)[0] == first[0] && (first + rest)[1..] == rest;
      }
    }
  }

  lemma EarlierRun(items: seq<OutboxItem>, earlier: Instant, clock: Instant, limit: nat, run: seq<OutboxDrain.Step>)
    requires OutboxDrain.ValidRun(items, clock, limit, run) && earlier <= clock
    ensures OutboxDrain.ValidRun(items, earlier, limit, run)
    ensures OutboxDrain.End(items, earlier, limit, run).0 == OutboxDrain.End(items, clock, limit, run).0
    ensures OutboxDrain.End(items, earlier, limit, run).1 <= OutboxDrain.End(items, clock, limit, run).1
  {
    EarlierClock(items, earlier, clock, limit, run);
  }

  lemma RunStartsHere(c: Config, w: World, clock: Instant, steps: seq<Step>)
    ensures At(c, w, steps, 0) == w && ClockAt(clock, steps, 0) == clock
  {
    hide Apply;
  }

  /** A due row of the outbox is claimed while the rest of the service goes on as it likes. */
  lemma NoStarvationInService(c: Config, w: World, clock: Instant, steps: seq<Step>, x: nat)
    requires Serial(clock, steps) && AllPossible(c, w, steps) && c.dispatchBatch >= 1
    requires x < |w.store.items| && w.store.items[x].state == Pending && w.store.items[x].nextAttemptAt <= clock
    requires var run := TableRun(c, w, steps, 0);
             OutboxDrain.CommittedDrains(run)
             >= Rounds(|OutboxDrain.Rivals(w.store.items, x)| + OutboxDrain.Ties(run, w.store.items[x]),
               c.dispatchBatch)
    ensures exists n :: 0 <= n < |steps| && ClaimsRow(steps[n], x)
  {
    hide *;
    RunStartsHere(c, w, clock, steps);
    TableRunIsValid(c, w, clock, steps, 0);
    OutboxDrain.NoStarvation(w.store.items, clock, c.dispatchBatch, TableRun(c, w, steps, 0), x);
    ClaimComesFromService(c, w, steps, 0, x);
  }

  predicate ClaimsRow(step: Step, x: nat) {
    step.DispatchDrain? && step.commits && x in step.batch
  }

  lemma {:induction false} ClaimComesFromService(c: Config, w: World, steps: seq<Step>, m: nat, x: nat)
    requires m <= |steps| && OutboxDrain.ClaimedIn(TableRun(c, w, steps, m), x)
    ensures exists n :: m <= n < |steps| && ClaimsRow(steps[n], x)
    decreases |steps| - m
  {
    hide At;
    var run := TableRun(c, w, steps, m);
    var i :| 0 <= i < |run| && OutboxDrain.Claims(run[i], x);
    var first := TableStep(c, At(c, w, steps, m), steps[m]);
    if i < |first| {
      assert ClaimsRow(steps[m], x);
    } else {
      assert run[i] == TableRun(c, w, steps, m + 1)[i - |first|];
      ClaimComesFromService(c, w, steps, m + 1, x);
    }
  }

  /**
   The dispatch of an accepted request: after k failures its row is due no earlier than 2^(k+1) - 2
   seconds after it was queued, and it is not given up within 254 seconds.
   */
  lemma RetryScheduleInService(c: Config, w: World, clock: Instant, steps: seq<Step>, n: nat)
    requires Serial(clock, steps) && AllPossible(c, w, steps) && n < |steps| && AcceptedAt(c, w, steps, n)
    ensures var row, queued, items :=
              |At(c, w, steps, n).store.items|, At(c, w, steps, n + 1).store.items,
                At(c, w, steps, |steps|).store.items;
            && row < |queued| && queued[row] == NewItem(ResponseAt(c, w, steps, n).messageId, steps[n].env.clock)
            && row < |items|
            && (items[row].state.Pending? ==>
                  items[row].nextAttemptAt >= Ends(steps[n]) + OutboxDrain.Pow2(items[row].attempts + 1) as real - 2.0)
            && (items[row].state.Dead? ==> ClockAt(clock, steps, |steps|) >= Ends(steps[n]) + 254.0)
  {
    hide Apply, At, Possible, PostEnding, TableRun, OutboxDrain.End, OutboxDrain.ValidRun;
    QueuedAt(c, w, steps, n);
    var row, queued := |At(c, w, steps, n).store.items|, At(c, w, steps, n + 1).store.items;
    TableRunIsValid(c, w, clock, steps, n + 1);
    OutboxDrain.RetrySchedule(queued, ClockAt(clock, steps, n + 1), c.dispatchBatch, TableRun(c, w, steps, n + 1), row);
  }

  /** The item of an accepted request is due when it is queued, and after k refusals 2^k seconds after the last. */
  lemma DueDatesInService(c: Config, w: World, clock: Instant, steps: seq<Step>, n: nat)
    requires Serial(clock, steps) && AllPossible(c, w, steps) && n < |steps| && AcceptedAt(c, w, steps, n)
    ensures var row, items := |At(c, w, steps, n).store.items|, At(c, w, steps, |steps|).store.items;
            var refusals := OutboxDrain.Refusals(TableRun(c, w, steps, n + 1), row);
            && row < |items| && items[row].attempts == |refusals| <= 8
            && (items[row].state.Dead? <==> |refusals| == 8)
            && (items[row].state.Pending? ==>
                  items[row].nextAttemptAt
                  == if refusals == [] then Ends(steps[n])
                     else refusals[|refusals| - 1] + OutboxDrain.Pow2(|refusals|) as real)
  {
    hide Apply, At, Possible, PostEnding, TableRun, OutboxDrain.End, OutboxDrain.ValidRun, OutboxDrain.Refusals;
    QueuedAt(c, w, steps, n);
    var row, queued := |At(c, w, steps, n).store.items|, At(c, w, steps, n + 1).store.items;
    TableRunIsValid(c, w, clock, steps, n + 1);
    OutboxDrain.DueDates(queued, ClockAt(clock, steps, n + 1), c.dispatchBatch, TableRun(c, w, steps, n + 1), row);
  }

  lemma QueuedAt(c: Config, w: World, steps: seq<Step>, n: nat)
    requires AllPossible(c, w, steps) && n < |steps| && AcceptedAt(c, w, steps, n)
    ensures At(c, w, steps, n + 1).store.items
            == At(c, w, steps, n).store.items + [NewItem(ResponseAt(c, w, steps, n).messageId, steps[n].env.clock)]
  {
    hide Apply, Possible, PostEnding;
    assert Possible(c, At(c, w, steps, n), steps[n]);
    QueuedRow(c, At(c, w, steps, n), steps[n]);
  }

  lemma QueuedRow(c: Config, w: World, step: Step)
    requires step.Post? && Possible(c, w, step) && PostEnding(c, w, step.req, step.env).response.Accepted?
    ensures Apply(c, w, step).store.items
            == w.store.items + [NewItem(PostEnding(c, w, step.req, step.env).response.messageId, step.env.clock)]
  {
    hide Handle;
    AcceptedAddsOneMessage(w.store, w.limiter, c.settings, step.req, step.env);
  }
}
