/** The event table inside runs of the whole service: the table's own run, and when a row gets published. */
module PublishRuns {
  import opened Common
  import opened Store
  import opened Outbound
  import opened Service
  import opened StoreEdits
  import DeliveryStatus
  import Batches
  import EventDrain

  function Appends(rows: seq<EventRow>): seq<EventDrain.Step> {
    if rows == [] then [] else [EventDrain.Append(rows[0])] + Appends(rows[1..])
  }

  /** What a service step means to the event table: a committed drain, or the rows it adds. */
  function TableSteps(c: Config, w: World, step: Step): seq<EventDrain.Step> {
    match step
    case PublishDrain(_, batch, outcomes, _, commits) =>
      if commits then [EventDrain.Drain(batch, outcomes, true)] else []
    case _ =>
      var before, after := w.store.events, Apply(c, w, step).store.events;
      if |before| <= |after| then Appends(after[|before|..]) else []
  }

  /** The table's run inside the service steps from step m on. */
  function TableRun(c: Config, w: World, steps: seq<Step>, m: nat): seq<EventDrain.Step>
    requires m <= |steps|
    decreases |steps| - m
  {
    if m == |steps| then [] else TableSteps(c, At(c, w, steps, m), steps[m]) + TableRun(c, w, steps, m + 1)
  }

  /** Every other step than a drain only adds pending rows, created no earlier than the step begins. */
  lemma StepAdds(c: Config, w: World, step: Step)
    requires Possible(c, w, step) && !step.PublishDrain?
    ensures AddsEvents(w.store.events, Apply(c, w, step).store.events, Starts(step))
  {
    hide Handle, OutboxDrain.IsBatch, Batches.Drained, EventDrain.IsBatch, DeliveryStatus.MetaAll, Inbound.InsertAll;
    var before, after := w.store.events, Apply(c, w, step).store.events;
    assert before[..|before|] == before;
    match step
    case Post(req, env) =>
      var e := PostEnding(c, w, req, env);
      if e.response.Accepted? {
        AcceptedAddsOneMessage(w.store, w.limiter, c.settings, req, env);
      } else {
        RefusalLeavesNoTrace(w.store, w.limiter, c.settings, req, env);
      }
    case Webhook(list, created, _) => WebhookAdds(w.store, list, created);
    case StatusReport(provider, id, report, created, audited) =>
    case MetaBatch(provider, items, created, _) => DeliveryStatus.MetaAllAdds(w.store, provider, items, created);
    case _ =>
  }

  lemma WebhookAdds(s: Store, list: seq<Inbound.Arrival>, created: Instant)
    ensures AddsEvents(s.events, Inbound.InsertAll(s, list, created).events, created)
  {
    hide Inbound.InsertAll, Inbound.ExternalIds, Inbound.ListIds;
    Inbound.BatchIsUnion(s, list, created);
    var s' := Inbound.InsertAll(s, list, created);
    forall k | |s.events| <= k < |s'.events|
      ensures s'.events[k] == EventRow(k - |s.events| + |s.messages|, ReceivedEvent, created, Pending, None)
    {
      var i := k - |s.events| + |s.messages|;
      assert s'.messages[i].direction.In?;
    }
  }

  lemma {:induction false} AppendsRun(events: seq<EventRow>, limit: nat, rows: seq<EventRow>,
                                      rest: seq<EventDrain.Step>)
    requires forall i :: 0 <= i < |rows| ==> rows[i].state.Pending?
    requires EventDrain.ValidRun(events + rows, limit, rest)
    ensures EventDrain.ValidRun(events, limit, Appends(rows) + rest)
    ensures EventDrain.End(events, limit, Appends(rows) + rest) == EventDrain.End(events + rows, limit, rest)
    decreases |rows|
  {
    hide EventDrain.ValidRun, EventDrain.End;
    if rows == [] {
      assert events + rows == events && Appends(rows) + rest == rest;
    } else {
      assert events + rows == (events + [rows[0]]) + rows[1..];
      AppendsRun(events + [rows[0]], limit, rows[1..], rest);
      AppendFirst(events, limit, rows[0], Appends(rows[1..]) + rest);
      assert Appends(rows) + rest == [EventDrain.Append(rows[0])] + (Appends(rows[1..]) + rest);
    }
  }

  lemma AppendFirst(events: seq<EventRow>, limit: nat, row: EventRow, rest: seq<EventDrain.Step>)
    requires row.state.Pending? && EventDrain.ValidRun(events + [row], limit, rest)
    ensures EventDrain.ValidRun(events, limit, [EventDrain.Append(row)] + rest)
    ensures EventDrain.End(events, limit, [EventDrain.Append(row)] + rest)
        == EventDrain.End(events + [row], limit, rest)
  {
    assert ([EventDrain.Append(row)] + rest)[1..] == rest;
  }

  lemma StepProjects(c: Config, w: World, step: Step, rest: seq<EventDrain.Step>)
    requires Possible(c, w, step)
    requires EventDrain.ValidRun(Apply(c, w, step).store.events, c.publishBatch, rest)
    ensures var run := TableSteps(c, w, step) + rest;
            && EventDrain.ValidRun(w.store.events, c.publishBatch, run)
            && EventDrain.End(w.store.events, c.publishBatch, run)
               == EventDrain.End(Apply(c, w, step).store.events, c.publishBatch, rest)
  {
    var before, after := w.store.events, Apply(c, w, step).store.events;
    if step.PublishDrain? {
      hide EventDrain.IsBatch, Batches.Drained;
      var run := TableSteps(c, w, step) + rest;
      if step.commits {
        assert run[1..] == rest;
      } else {
        assert run == rest;
      }
    } else {
      StepAdds(c, w, step);
      hide Apply, Possible;
      assert after == before + after[|before|..];
      AppendsRun(before, c.publishBatch, after[|before|..], rest);
    }
  }

  /** The event table of a run of the service runs exactly as the drain's own model says. */
  lemma {:induction false} TableRunIsValid(c: Config, w: World, steps: seq<Step>, m: nat)
    requires AllPossible(c, w, steps) && m <= |steps|
    ensures EventDrain.ValidRun(At(c, w, steps, m).store.events, c.publishBatch, TableRun(c, w, steps, m))
    ensures EventDrain.End(At(c, w, steps, m).store.events, c.publishBatch, TableRun(c, w, steps, m))
            == At(c, w, steps, |steps|).store.events
    decreases |steps| - m
  {
    hide Apply, TableSteps, Possible, EventDrain.ValidStep, EventDrain.After;
    if m < |steps| {
      TableRunIsValid(c, w, steps, m + 1);
      assert Possible(c, At(c, w, steps, m), steps[m]);
      StepProjects(c, At(c, w, steps, m), steps[m], TableRun(c, w, steps, m + 1));
    }
  }

  lemma NoStepsYet(c: Config, w: World, steps: seq<Step>)
    ensures At(c, w, steps, 0) == w
  {
    hide Apply;
  }

  /**
   Progress while the rest of the service goes on as it likes: a healthy row is published within
   floor(healthy rows ahead / (batch - failing rows ahead)) + 1 committed drains, the rows that join
   ahead of it meanwhile included.
   */
  lemma ProgressInService(c: Config, w: World, steps: seq<Step>, failing: set<nat>, x: nat)
    requires AllPossible(c, w, steps) && x < |w.store.events| && w.store.events[x].state.Pending? && x !in failing
    requires EventDrain.Fails(TableRun(c, w, steps, 0), failing)
    requires var ahead := EventDrain.EverAhead(w.store.events, At(c, w, steps, |steps|).store.events, x);
             && |ahead * failing| < c.publishBatch
             && EventDrain.CommittedDrains(TableRun(c, w, steps, 0))
                >= Rounds(|ahead - failing|, c.publishBatch - |ahead * failing|)
    ensures x < |At(c, w, steps, |steps|).store.events| && At(c, w, steps, |steps|).store.events[x].state.Done?
  {
    hide *;
    NoStepsYet(c, w, steps);
    TableRunIsValid(c, w, steps, 0);
    EventDrain.Progress(w.store.events, c.publishBatch, TableRun(c, w, steps, 0), failing, x);
  }

  /** Rows are kept with their creation time, and what is added is created no earlier than the run begins. */
  predicate AddsLater(before: seq<EventRow>, after: seq<EventRow>, clock: Instant) {
    && |before| <= |after|
    && (forall k :: 0 <= k < |before| ==> after[k].createdAt == before[k].createdAt)
    && (forall k :: |before| <= k < |after| ==> after[k].createdAt >= clock)
  }

  lemma StepAddsLater(c: Config, w: World, step: Step, clock: Instant)
    requires Possible(c, w, step) && clock <= Starts(step)
    ensures AddsLater(w.store.events, Apply(c, w, step).store.events, clock)
  {
    if step.PublishDrain? {
      hide EventDrain.IsBatch, Batches.Drained;
      if step.commits {
        EventDrain.StepKeepsCreation(w.store.events, c.publishBatch,
          EventDrain.Drain(step.batch, step.published, true));
      }
    } else {
      StepAdds(c, w, step);
      hide Apply, Possible;
      var before, after := w.store.events, Apply(c, w, step).store.events;
      assert forall k :: 0 <= k < |before| ==> after[k] == after[..|before|][k];
    }
  }

  lemma {:induction false} RunAddsLater(c: Config, w: World, clock: Instant, steps: seq<Step>, n: nat)
    requires Serial(clock, steps) && AllPossible(c, w, steps) && n <= |steps|
    ensures AddsLater(w.store.events, At(c, w, steps, n).store.events, clock) && clock <= ClockAt(clock, steps, n)
  {
    hide Apply, Possible;
    if n > 0 {
      RunAddsLater(c, w, clock, steps, n - 1);
      assert Possible(c, At(c, w, steps, n - 1), steps[n - 1]);
      StepAddsLater(c, At(c, w, steps, n - 1), steps[n - 1], clock);
    }
  }

  /** In a serial run, a row can only join ahead of an earlier one by being created at the very instant of both. */
  lemma JoinersTie(c: Config, w: World, clock: Instant, steps: seq<Step>, x: nat, k: nat)
    requires Serial(clock, steps) && AllPossible(c, w, steps)
    requires x < |w.store.events| && w.store.events[x].createdAt <= clock
    requires k in EventDrain.Joiners(w.store.events, At(c, w, steps, |steps|).store.events, x)
    ensures At(c, w, steps, |steps|).store.events[k].createdAt == clock == w.store.events[x].createdAt
  {
    hide At;
    RunAddsLater(c, w, clock, steps, |steps|);
  }
}
