/** The dispatch drain: batch claims in due order, backoff, dead-lettering, and who waits for whom. */
module OutboxDrain {
  import opened Common
  import opened Batches
  import opened Store
  import opened StoreEdits
  import opened Runtime

  const MAX_BACKOFF_SECONDS: Instant := 3600.0

  /** What dispatching one row did; `at` is the clock reading when the failure was handled. */
  datatype Dispatch = Sent | Refused(error: string, at: Instant)

  function Pow2(k: nat): nat {
    if k == 0 then 1 else 2 * Pow2(k - 1)
  }

  function Backoff(attempts: nat): Instant {
    Min(Pow2(attempts) as real, MAX_BACKOFF_SECONDS)
  }

  function Settle(row: OutboxItem, d: Dispatch): OutboxItem {
    match d
    case Sent => row.(state := Done, lastError := None)
    case Refused(error, at) =>
      var failed := row.(attempts := row.attempts + 1, lastError := Some(error));
      if failed.attempts >= MAX_ATTEMPTS then failed.(state := Dead)
      else failed.(nextAttemptAt := at + Backoff(failed.attempts), state := Pending)
  }

  // ---------------------------------------------------------------- the claim query

  predicate Due(row: OutboxItem, now: Instant) {
    row.state.Pending? && row.nextAttemptAt <= now
  }

  /** The query's order; rows that agree on both columns may come in either order. */
  predicate AtOrBefore(a: OutboxItem, b: OutboxItem) {
    a.nextAttemptAt < b.nextAttemptAt || (a.nextAttemptAt == b.nextAttemptAt && a.createdAt <= b.createdAt)
  }

  /** The first `limit` due rows in order, for some order of the ties. */
  predicate IsBatch(items: seq<OutboxItem>, now: Instant, limit: nat, batch: seq<nat>) {
    FirstReady(items, row => Due(row, now), AtOrBefore, limit, batch)
  }

  /** The query always has an answer. */
  lemma QueryHasAnswer(items: seq<OutboxItem>, now: Instant, limit: nat) returns (batch: seq<nat>)
    ensures IsBatch(items, now, limit, batch)
  {
    batch := BatchExists(items, row => Due(row, now), AtOrBefore, limit);
  }

  /** The query written out: pending rows due by now, the earliest first, and nothing skipped while there is room. */
  lemma QueryWrittenOut(items: seq<OutboxItem>, now: Instant, limit: nat, batch: seq<nat>)
    ensures IsBatch(items, now, limit, batch)
            <==> && Distinct(batch) && |batch| <= limit
                 && (forall i :: 0 <= i < |batch| ==>
                       && batch[i] < |items| && items[batch[i]].state == Pending
                       && items[batch[i]].nextAttemptAt <= now)
                 && (forall i, j :: 0 <= i < j < |batch| ==>
                       var a, b := items[batch[i]], items[batch[j]];
                       || a.nextAttemptAt < b.nextAttemptAt
                       || (a.nextAttemptAt == b.nextAttemptAt && a.createdAt <= b.createdAt))
                 && (forall k: nat :: k < |items| && items[k].state == Pending && items[k].nextAttemptAt <= now
                                      && k !in batch ==>
                       |batch| == limit
                       && forall i :: 0 <= i < |batch| ==>
                            var a := items[batch[i]];
                            || a.nextAttemptAt < items[k].nextAttemptAt
                            || (a.nextAttemptAt == items[k].nextAttemptAt && a.createdAt <= items[k].createdAt))
  {
  }

  // ---------------------------------------------------------------- one drain

  class Worker {
    const database: Database
    const batchSize: nat

    constructor (database: Database, batchSize: nat)
      ensures this.database == database && this.batchSize == batchSize
    {
      this.database, this.batchSize := database, batchSize;
    }

    method MarkRetry(row: OutboxItem, error: string, at: Instant) returns (row': OutboxItem)
      ensures row' == Settle(row, Refused(error, at))
      ensures row'.attempts == row.attempts + 1 && row'.lastError == Some(error)
      ensures if row.attempts + 1 >= 8 then row'.state.Dead? && row'.nextAttemptAt == row.nextAttemptAt
              else row'.state.Pending? && row'.nextAttemptAt == at + Pow2(row.attempts + 1) as real
    {
      row' := row.(attempts := row.attempts + 1, lastError := Some(error));
      if row'.attempts >= MAX_ATTEMPTS {
        return row'.(state := Dead);
      }
      CapNeverBinds(row'.attempts);
      row' := row'.(nextAttemptAt := at + Backoff(row'.attempts), state := Pending);
    }

    /** One drain over the rows its claim query returned; `commits` is false when the transaction is lost. */
    method DrainOnce(now: Instant, batch: seq<nat>, outcomes: seq<Dispatch>, commits: bool)
      requires |batch| == |outcomes| && IsBatch(database.store.items, now, batchSize, batch)
      modifies database
      ensures var s := old(database.store);
              database.store == if commits then s.(items := Drained(s.items, batch, outcomes, Settle)) else s
    {
      hide Drained, Backoff;
      var session: Session := new Session(database);
      ghost var start := database.store;
      NothingDrained(start.items, batch, outcomes, Settle);
      for i := 0 to |batch|
        invariant session.database == database && database.store == start
        invariant session.work == start.(items := Drained(start.items, batch[..i], outcomes[..i], Settle))
      {
        DrainOneMore(start.items, batch, outcomes, Settle, i);
        var id := batch[i];
        ghost var before := session.work.items;
        session.work := session.work.(items := session.work.items[id := session.work.items[id].(state := Claimed)]);
        ghost var claimed := session.work.items[id];
        var row := session.work.items[id];
        match outcomes[i] {
          case Refused(error, at) => row := MarkRetry(row, error, at);
          case Sent => row := row.(state := Done, lastError := None);
        }
        session.work := session.work.(items := session.work.items[id := row]);
        UpdatedTwice(before, id, claimed, row);
        assert row == Settle(before[id], outcomes[i]);
      }
      assert batch[..|batch|] == batch && outcomes[..|batch|] == outcomes;
      session.Close(!commits);
    }
  }

  // ---------------------------------------------------------------- runs of the table

  /** A drain by the one worker, or the commit of a request that adds a row. */
  datatype Step =
    | Drain(now: Instant, batch: seq<nat>, outcomes: seq<Dispatch>, until: Instant, commits: bool)
    | Enqueue(item: OutboxItem)

  predicate Punctual(d: Dispatch, now: Instant, until: Instant) {
    d.Refused? ==> now <= d.at <= until
  }

  predicate ValidStep(items: seq<OutboxItem>, clock: Instant, limit: nat, step: Step) {
    match step
    case Drain(now, batch, outcomes, until, _) =>
      && clock <= now <= until && |batch| == |outcomes| && IsBatch(items, now, limit, batch)
      && (forall i :: 0 <= i < |outcomes| ==> Punctual(outcomes[i], now, until))
    case Enqueue(item) =>
      item.state.Pending? && item.attempts == 0 && clock <= item.createdAt <= item.nextAttemptAt
  }

  function After(items: seq<OutboxItem>, clock: Instant, limit: nat, step: Step): seq<OutboxItem>
    requires ValidStep(items, clock, limit, step)
  {
    match step
    case Drain(_, batch, outcomes, _, commits) => if commits then Drained(items, batch, outcomes, Settle) else items
    case Enqueue(item) => items + [item]
  }

  function ClockAfter(step: Step): Instant {
    if step.Drain? then step.until else step.item.nextAttemptAt
  }

  predicate ValidRun(items: seq<OutboxItem>, clock: Instant, limit: nat, steps: seq<Step>)
    decreases |steps|
  {
    steps != [] ==>
      && ValidStep(items, clock, limit, steps[0])
      && ValidRun(After(items, clock, limit, steps[0]), ClockAfter(steps[0]), limit, steps[1..])
  }

  function End(items: seq<OutboxItem>, clock: Instant, limit: nat, steps: seq<Step>): (seq<OutboxItem>, Instant)
    requires ValidRun(items, clock, limit, steps)
    decreases |steps|
  {
    if steps == [] then (items, clock)
    else End(After(items, clock, limit, steps[0]), ClockAfter(steps[0]), limit, steps[1..])
  }

  predicate Claims(step: Step, x: nat) {
    step.Drain? && step.commits && x in step.batch
  }

  predicate ClaimedIn(steps: seq<Step>, x: nat) {
    exists i :: 0 <= i < |steps| && Claims(steps[i], x)
  }

  function CommittedDrains(steps: seq<Step>): nat {
    if steps == [] then 0
    else (if steps[0].Drain? && steps[0].commits then 1 else 0) + CommittedDrains(steps[1..])
  }

  // ---------------------------------------------------------------- no starvation

  /** The other pending rows that may be claimed no later than x. */
  function Rivals(items: seq<OutboxItem>, x: nat): set<nat>
    requires x < |items|
  {
    set k: nat | k < |items| && k != x && items[k].state.Pending? && AtOrBefore(items[k], items[x])
  }

  /** The rows enqueued during the run that tie with x or sort ahead of it. */
  function Ties(steps: seq<Step>, x: OutboxItem): nat {
    if steps == [] then 0
    else (if steps[0].Enqueue? && AtOrBefore(steps[0].item, x) then 1 else 0) + Ties(steps[1..], x)
  }

  /** Once x is due, a later request can only tie with it by being enqueued at the instant x was. */
  lemma TiesAreSimultaneous(x: OutboxItem, clock: Instant, item: OutboxItem)
    requires x.nextAttemptAt <= clock <= item.createdAt <= item.nextAttemptAt
    requires x.createdAt <= x.nextAttemptAt && AtOrBefore(item, x)
    ensures item.createdAt == item.nextAttemptAt == x.createdAt == x.nextAttemptAt
  {
  }

  lemma {:induction false} PositiveBackoff(k: nat)
    ensures Pow2(k) >= 1 && Backoff(k) >= 1.0
  {
    if k > 0 {
      PositiveBackoff(k - 1);
    }
  }

  /** A settled row is finished or due strictly later than anything that was due when it was claimed. */
  lemma SettledIsNoRival(row: OutboxItem, d: Dispatch, x: OutboxItem, now: Instant, until: Instant)
    requires Punctual(d, now, until) && x.nextAttemptAt <= now
    ensures !(Settle(row, d).state.Pending? && AtOrBefore(Settle(row, d), x))
  {
    hide Backoff;
    PositiveBackoff(row.attempts + 1);
  }

  lemma DrainClearsBatch(items: seq<OutboxItem>, clock: Instant, limit: nat, step: Step, x: nat)
    requires ValidStep(items, clock, limit, step) && step.Drain? && step.commits
    requires x < |items| && Due(items[x], clock) && !Claims(step, x)
    ensures var items' := After(items, clock, limit, step);
            && items'[x] == items[x]
            && (forall k :: 0 <= k < |items| && k !in step.batch ==> items'[k] == items[k])
            && (forall k :: k in step.batch ==>
                  k < |items| && !(items'[k].state.Pending? && AtOrBefore(items'[k], items[x])))
  {
    hide Settle;
    var items' := After(items, clock, limit, step);
    DrainedRows(items, step.batch, step.outcomes, Settle);
    forall k | k in step.batch
      ensures k < |items| && !(items'[k].state.Pending? && AtOrBefore(items'[k], items[x]))
    {
      var i :| 0 <= i < |step.batch| && step.batch[i] == k;
      assert Punctual(step.outcomes[i], step.now, step.until);
      SettledIsNoRival(items[k], step.outcomes[i], items[x], step.now, step.until);
    }
  }

  lemma PassedOverMeansFull(items: seq<OutboxItem>, now: Instant, limit: nat, batch: seq<nat>, x: nat)
    requires IsBatch(items, now, limit, batch) && x < |items| && Due(items[x], now) && x !in batch
    ensures Members(batch) <= Rivals(items, x) && |Members(batch)| == limit
  {
    DistinctSize(batch);
    forall k | k in Members(batch)
      ensures k in Rivals(items, x)
    {
      var i :| 0 <= i < |batch| && batch[i] == k;
      assert AtOrBefore(items[batch[i]], items[x]);
    }
  }

  /** A committed drain that passes x over takes a full batch of its rivals away for good. */
  lemma DrainRemovesRivals(items: seq<OutboxItem>, clock: Instant, limit: nat, step: Step, x: nat)
    requires ValidStep(items, clock, limit, step) && step.Drain? && step.commits
    requires x < |items| && Due(items[x], clock) && !Claims(step, x)
    ensures var items' := After(items, clock, limit, step);
            items'[x] == items[x] && |Rivals(items', x)| + limit <= |Rivals(items, x)|
  {
    DrainClearsBatch(items, clock, limit, step, x);
    PassedOverMeansFull(items, step.now, limit, step.batch, x);
    hide IsBatch, ValidStep;
    var items', taken := After(items, clock, limit, step), Members(step.batch);
    forall k: nat
      ensures k in Rivals(items', x) <==> k in Rivals(items, x) - taken
    {
      assert k in taken <==> k in step.batch;
    }
    assert Rivals(items', x) == Rivals(items, x) - taken;
  }

  lemma EnqueueAddsRival(items: seq<OutboxItem>, item: OutboxItem, x: nat)
    requires x < |items|
    ensures |Rivals(items + [item], x)| <= |Rivals(items, x)| + (if AtOrBefore(item, items[x]) then 1 else 0)
  {
    var grown := Rivals(items, x) + (if AtOrBefore(item, items[x]) then {|items|} else {});
    assert Rivals(items + [item], x) <= grown;
    SubsetSize(Rivals(items + [item], x), grown);
  }

  lemma {:induction false} WaitingIsPaidFor(items: seq<OutboxItem>, clock: Instant, limit: nat, steps: seq<Step>,
                                            x: nat)
    requires ValidRun(items, clock, limit, steps) && x < |items|
    requires items[x].state == Pending && items[x].nextAttemptAt <= clock
    requires !ClaimedIn(steps, x)
    ensures limit * CommittedDrains(steps) <= |Rivals(items, x)| + Ties(steps, items[x])
    decreases |steps|
  {
    if steps != [] {
      var step := steps[0];
      assert !Claims(step, x);
      forall i | 0 <= i < |steps| - 1
        ensures !Claims(steps[1..][i], x)
      {
        assert !Claims(steps[i + 1], x);
      }
      var items' := After(items, clock, limit, step);
      if step.Drain? && step.commits {
        DrainRemovesRivals(items, clock, limit, step, x);
      } else if step.Enqueue? {
        EnqueueAddsRival(items, step.item, x);
      }
      WaitingIsPaidFor(items', ClockAfter(step), limit, steps[1..], x);
      assert limit * (1 + CommittedDrains(steps[1..])) == limit + limit * CommittedDrains(steps[1..]);
    }
  }

  /**
   No starvation: whatever succeeds, fails, aborts or is enqueued meanwhile, a due row with r rows at
   or before it is claimed within floor((r + ties) / batch) + 1 committed drains.
   */
  lemma NoStarvation(items: seq<OutboxItem>, clock: Instant, limit: nat, steps: seq<Step>, x: nat)
    requires ValidRun(items, clock, limit, steps) && x < |items| && limit >= 1
    requires items[x].state == Pending && items[x].nextAttemptAt <= clock
    requires CommittedDrains(steps) >= Rounds(|Rivals(items, x)| + Ties(steps, items[x]), limit)
    ensures ClaimedIn(steps, x)
  {
    if !ClaimedIn(steps, x) {
      WaitingIsPaidFor(items, clock, limit, steps, x);
      var queue, drains := |Rivals(items, x)| + Ties(steps, items[x]), CommittedDrains(steps);
      FloorBound(queue, limit, drains);
    }
  }

  // ---------------------------------------------------------------- retry schedule

  /** How far past an earlier due time a pending row with more attempts is due at the least. */
  predicate Spaced(before: OutboxItem, after: OutboxItem) {
    && before.attempts <= after.attempts
    && after.nextAttemptAt - before.nextAttemptAt >= (Pow2(after.attempts + 1) - Pow2(before.attempts + 1)) as real
  }

  /** What a run can do to a pending row: space it out, finish it, or kill it no earlier than its spacing allows. */
  predicate OnSchedule(before: OutboxItem, after: OutboxItem, clock: Instant) {
    match after.state
    case Pending => Spaced(before, after)
    case Done => before.attempts <= after.attempts < MAX_ATTEMPTS
    case Dead => after.attempts == MAX_ATTEMPTS
                 && clock - before.nextAttemptAt >= (Pow2(MAX_ATTEMPTS) - Pow2(before.attempts + 1)) as real
    case Claimed => false
  }

  lemma SmallPowers()
    ensures Pow2(1) == 2 && Pow2(2) == 4 && Pow2(3) == 8 && Pow2(4) == 16
    ensures Pow2(5) == 32 && Pow2(6) == 64 && Pow2(7) == 128 && Pow2(8) == 256
  {
    assert Pow2(4) == 16;
  }

  /** The cap of an hour never binds: at most seven failures leave a row pending. */
  lemma CapNeverBinds(attempts: nat)
    requires attempts < MAX_ATTEMPTS
    ensures Backoff(attempts) == Pow2(attempts) as real
  {
    SmallPowers();
  }

  lemma SettleOnSchedule(first: OutboxItem, row: OutboxItem, d: Dispatch, now: Instant, until: Instant)
    requires Due(row, now) && AttemptsSound(row) && Spaced(first, row) && Punctual(d, now, until) && now <= until
    ensures OnSchedule(first, Settle(row, d), until)
  {
    if d.Refused? && row.attempts + 1 < MAX_ATTEMPTS {
      CapNeverBinds(row.attempts + 1);
      assert Pow2(row.attempts + 2) == 2 * Pow2(row.attempts + 1);
    }
  }

  lemma StepOnSchedule(first: OutboxItem, items: seq<OutboxItem>, clock: Instant, limit: nat, step: Step, x: nat)
    requires ValidStep(items, clock, limit, step) && x < |items|
    requires AttemptsSound(items[x]) && OnSchedule(first, items[x], clock)
    ensures OnSchedule(first, After(items, clock, limit, step)[x], ClockAfter(step))
    ensures AttemptsSound(After(items, clock, limit, step)[x])
    ensures !items[x].state.Pending? ==> After(items, clock, limit, step)[x] == items[x]
  {
    if step.Drain? && step.commits {
      DrainedRows(items, step.batch, step.outcomes, Settle);
      if x in step.batch {
        var i :| 0 <= i < |step.batch| && step.batch[i] == x;
        assert Punctual(step.outcomes[i], step.now, step.until);
        SettleOnSchedule(first, items[x], step.outcomes[i], step.now, step.until);
      }
    }
  }

  lemma {:induction false} RunOnSchedule(first: OutboxItem, items: seq<OutboxItem>, clock: Instant, limit: nat,
                                         steps: seq<Step>, x: nat)
    requires ValidRun(items, clock, limit, steps) && x < |items|
    requires AttemptsSound(items[x]) && OnSchedule(first, items[x], clock)
    ensures var (items', clock') := End(items, clock, limit, steps);
            && |items| <= |items'| && OnSchedule(first, items'[x], clock') && AttemptsSound(items'[x])
            && (!items[x].state.Pending? ==> items'[x] == items[x])
    decreases |steps|
  {
    if steps != [] {
      StepOnSchedule(first, items, clock, limit, steps[0], x);
      RunOnSchedule(first, After(items, clock, limit, steps[0]), ClockAfter(steps[0]), limit, steps[1..], x);
    }
  }

  /**
   From the instant t0 at which a fresh row first falls due: with k failures and still pending it is
   due no earlier than t0 + 2^(k+1) - 2, and it cannot be dead before t0 + 254 seconds.
   */
  lemma RetrySchedule(items: seq<OutboxItem>, clock: Instant, limit: nat, steps: seq<Step>, x: nat)
    requires ValidRun(items, clock, limit, steps) && x < |items|
    requires items[x].state.Pending? && items[x].attempts == 0
    ensures var (items', clock') := End(items, clock, limit, steps);
            && |items| <= |items'|
            && var t0, row := items[x].nextAttemptAt, items'[x];
               && (row.state.Pending? ==>
                     row.attempts <= 7 && row.nextAttemptAt >= t0 + Pow2(row.attempts + 1) as real - 2.0)
               && (row.state.Dead? ==> row.attempts == 8 && clock' >= t0 + 254.0)
  {
    SmallPowers();
    RunOnSchedule(items[x], items, clock, limit, steps, x);
  }

  /** What settling does to a pending row with fewer than eight failures. */
  lemma SettleWrittenOut(row: OutboxItem, d: Dispatch)
    requires row.state.Pending? && row.attempts < 8
    ensures var row' := Settle(row, d);
            && row'.messageId == row.messageId && row'.createdAt == row.createdAt
            && (d.Sent? ==>
                  && row'.state == Done && row'.lastError == None
                  && row'.attempts == row.attempts && row'.nextAttemptAt == row.nextAttemptAt)
            && (d.Refused? ==>
                  && row'.attempts == row.attempts + 1 && row'.lastError == Some(d.error)
                  && (row.attempts < 7 ==>
                        row'.state == Pending && row'.nextAttemptAt == d.at + Pow2(row.attempts + 1) as real)
                  && (row.attempts == 7 ==> row'.state == Dead && row'.nextAttemptAt == row.nextAttemptAt))
  {
    if row.attempts < 7 {
      CapNeverBinds(row.attempts + 1);
    }
  }

  /** When committed drains handled a refusal of row x. */
  function Refusals(steps: seq<Step>, x: nat): seq<Instant> {
    if steps == [] then [] else StepRefusals(steps[0], x) + Refusals(steps[1..], x)
  }

  function StepRefusals(step: Step, x: nat): seq<Instant> {
    if step.Drain? && step.commits
      && |step.batch| == |step.outcomes| then RefusalsOf(step.batch, step.outcomes, x) else []
  }

  function RefusalsOf(batch: seq<nat>, outcomes: seq<Dispatch>, x: nat): seq<Instant>
    requires |batch| == |outcomes|
  {
    if batch == [] then []
    else
      var last := |batch| - 1;
      RefusalsOf(batch[..last], outcomes[..last], x)
      + (if batch[last] == x && outcomes[last].Refused? then [outcomes[last].at] else [])
  }

  lemma {:induction false} NotClaimedNotRefused(batch: seq<nat>, outcomes: seq<Dispatch>, x: nat)
    requires |batch| == |outcomes| && x !in batch
    ensures RefusalsOf(batch, outcomes, x) == []
  {
    if batch != [] {
      NotClaimedNotRefused(batch[..|batch| - 1], outcomes[..|batch| - 1], x);
    }
  }

  lemma {:induction false} ClaimedOnceRefusedOnce(batch: seq<nat>, outcomes: seq<Dispatch>, x: nat, i: nat)
    requires |batch| == |outcomes| && Distinct(batch) && i < |batch| && batch[i] == x
    ensures RefusalsOf(batch, outcomes, x) == if outcomes[i].Refused? then [outcomes[i].at] else []
  {
    var last := |batch| - 1;
    if i == last {
      NotClaimedNotRefused(batch[..last], outcomes[..last], x);
    } else {
      ClaimedOnceRefusedOnce(batch[..last], outcomes[..last], x, i);
    }
  }

  /** The row as its refusals so far make it. */
  predicate Dated(first: Instant, row: OutboxItem, refusals: seq<Instant>) {
    && row.attempts == |refusals|
    && match row.state
       case Pending =>
         |refusals| < 8
         && row.nextAttemptAt
            == (if refusals == [] then first else refusals[|refusals| - 1] + Pow2(|refusals|) as real)
       case Done => |refusals| < 8
       case Dead => |refusals| == 8
       case Claimed => false
  }

  lemma StepStaysDated(first: Instant, items: seq<OutboxItem>, clock: Instant, limit: nat, step: Step, x: nat,
                       refusals: seq<Instant>)
    requires ValidStep(items, clock, limit, step) && x < |items| && Dated(first, items[x], refusals)
    ensures Dated(first, After(items, clock, limit, step)[x], refusals + StepRefusals(step, x))
  {
    if step.Drain? && step.commits {
      DrainedRows(items, step.batch, step.outcomes, Settle);
      hide Drained, Settle;
      if x in step.batch {
        var i :| 0 <= i < |step.batch| && step.batch[i] == x;
        ClaimedOnceRefusedOnce(step.batch, step.outcomes, x, i);
        SettleWrittenOut(items[x], step.outcomes[i]);
      } else {
        NotClaimedNotRefused(step.batch, step.outcomes, x);
        assert refusals + [] == refusals;
      }
    } else {
      assert refusals + [] == refusals;
    }
  }

  lemma {:induction false} RunStaysDated(first: Instant, items: seq<OutboxItem>, clock: Instant, limit: nat,
                                         steps: seq<Step>, x: nat, refusals: seq<Instant>)
    requires ValidRun(items, clock, limit, steps) && x < |items| && Dated(first, items[x], refusals)
    ensures var items' := End(items, clock, limit, steps).0;
            x < |items'| && Dated(first, items'[x], refusals + Refusals(steps, x))
    decreases |steps|
  {
    hide Dated, StepRefusals, ValidStep, After;
    if steps == [] {
      assert refusals + [] == refusals;
    } else {
      StepStaysDated(first, items, clock, limit, steps[0], x, refusals);
      assert |items| <= |After(items, clock, limit, steps[0])| by {
        StepKeepsLength(items, clock, limit, steps[0]);
      }
      RunStaysDated(first, After(items, clock, limit, steps[0]), ClockAfter(steps[0]), limit, steps[1..], x,
                    refusals + StepRefusals(steps[0], x));
      assert refusals + Refusals(steps, x) == (refusals + StepRefusals(steps[0], x)) + Refusals(steps[1..], x);
    }
  }

  lemma StepKeepsLength(items: seq<OutboxItem>, clock: Instant, limit: nat, step: Step)
    requires ValidStep(items, clock, limit, step)
    ensures |items| <= |After(items, clock, limit, step)|
  {
  }

  /**
   The exact schedule of a fresh row over any run: its attempts are its refusals; while pending it is
   due at first when it was enqueued for, and after k refusals 2^k seconds after the last; it is dead
   exactly when there were eight.
   */
  lemma DueDates(items: seq<OutboxItem>, clock: Instant, limit: nat, steps: seq<Step>, x: nat)
    requires ValidRun(items, clock, limit, steps) && x < |items|
    requires items[x].state.Pending? && items[x].attempts == 0
    ensures x < |End(items, clock, limit, steps).0|
    ensures var row, refusals := End(items, clock, limit, steps).0[x], Refusals(steps, x);
            && row.attempts == |refusals| <= 8
            && (row.state.Dead? <==> |refusals| == 8)
            && (row.state.Pending? ==>
                  row.nextAttemptAt == if refusals == [] then items[x].nextAttemptAt
                                       else refusals[|refusals| - 1] + Pow2(|refusals|) as real)
  {
    RunStaysDated(items[x].nextAttemptAt, items, clock, limit, steps, x, []);
    assert [] + Refusals(steps, x) == Refusals(steps, x);
  }

  /** Rows that are done or dead never change again. */
  lemma {:induction false} FinalRowsStay(items: seq<OutboxItem>, clock: Instant, limit: nat, steps: seq<Step>, x: nat)
    requires ValidRun(items, clock, limit, steps) && x < |items| && (items[x].state.Done? || items[x].state.Dead?)
    ensures var items' := End(items, clock, limit, steps).0; x < |items'| && items'[x] == items[x]
    decreases |steps|
  {
    if steps != [] {
      if steps[0].Drain? && steps[0].commits {
        DrainedRows(items, steps[0].batch, steps[0].outcomes, Settle);
      }
      FinalRowsStay(After(items, clock, limit, steps[0]), ClockAfter(steps[0]), limit, steps[1..], x);
    }
  }

  // ---------------------------------------------------------------- attempts are bounded

  function RowBudget(row: OutboxItem): nat {
    if row.state.Pending? && row.attempts < MAX_ATTEMPTS then MAX_ATTEMPTS - row.attempts else 0
  }

  /** The attempts that pending rows still have. */
  function Budget(items: seq<OutboxItem>): nat {
    if items == [] then 0 else Budget(items[..|items| - 1]) + RowBudget(items[|items| - 1])
  }

  lemma {:induction false} BudgetUpdate(items: seq<OutboxItem>, k: nat, row: OutboxItem)
    requires k < |items|
    ensures Budget(items[k := row]) + RowBudget(items[k]) == Budget(items) + RowBudget(row)
  {
    var last := |items| - 1;
    if k == last {
      assert items[k := row][..last] == items[..last];
    } else {
      BudgetUpdate(items[..last], k, row);
      assert items[k := row][..last] == items[..last][k := row];
    }
  }

  lemma SettleSpends(row: OutboxItem, d: Dispatch)
    requires row.state.Pending? && AttemptsSound(row)
    ensures RowBudget(Settle(row, d)) < RowBudget(row) && AttemptsSound(Settle(row, d))
  {
  }

  predicate AllSound(items: seq<OutboxItem>) {
    forall k :: 0 <= k < |items| ==> AttemptsSound(items[k])
  }

  lemma {:induction false} DrainSpends(items: seq<OutboxItem>, batch: seq<nat>, outcomes: seq<Dispatch>)
    requires |batch| == |outcomes| && Distinct(batch) && AllSound(items)
    requires forall i :: 0 <= i < |batch| ==> batch[i] < |items| && items[batch[i]].state.Pending?
    ensures Budget(Drained(items, batch, outcomes, Settle)) + |batch| <= Budget(items)
    ensures AllSound(Drained(items, batch, outcomes, Settle))
  {
    if batch != [] {
      var last := |batch| - 1;
      var before := Drained(items, batch[..last], outcomes[..last], Settle);
      DrainSpends(items, batch[..last], outcomes[..last]);
      DrainedRows(items, batch[..last], outcomes[..last], Settle);
      assert before[batch[last]] == items[batch[last]];
      SettleSpends(items[batch[last]], outcomes[last]);
      BudgetUpdate(before, batch[last], Settle(before[batch[last]], outcomes[last]));
    }
  }

  function Enqueued(steps: seq<Step>): nat {
    if steps == [] then 0 else (if steps[0].Enqueue? then 1 else 0) + Enqueued(steps[1..])
  }

  /** The dispatch attempts of committed drains. */
  function Attempted(steps: seq<Step>): nat {
    if steps == [] then 0
    else (if steps[0].Drain? && steps[0].commits then |steps[0].batch| else 0) + Attempted(steps[1..])
  }

  /** Every committed attempt is paid from the budget, and only a new row brings more of it: eight attempts. */
  lemma {:induction false} AttemptsAreBounded(items: seq<OutboxItem>, clock: Instant, limit: nat, steps: seq<Step>)
    requires ValidRun(items, clock, limit, steps) && AllSound(items)
    ensures Attempted(steps) + Budget(End(items, clock, limit, steps).0)
        <= Budget(items) + MAX_ATTEMPTS * Enqueued(steps)
    decreases |steps|
  {
    if steps != [] {
      var step := steps[0];
      if step.Drain? && step.commits {
        DrainSpends(items, step.batch, step.outcomes);
      } else if step.Enqueue? {
        assert (items + [step.item])[..|items|] == items;
      }
      AttemptsAreBounded(After(items, clock, limit, step), ClockAfter(step), limit, steps[1..]);
    }
  }

  /** A committed drain keeps the store invariant. */
  lemma DrainKeepsInv(s: Store, now: Instant, limit: nat, batch: seq<nat>, outcomes: seq<Dispatch>)
    requires Inv(s) && |batch| == |outcomes| && IsBatch(s.items, now, limit, batch)
    ensures Inv(s.(items := Drained(s.items, batch, outcomes, Settle)))
  {
    hide Inv, Drained;
    InvItems(s);
    DrainedRows(s.items, batch, outcomes, Settle);
    var items := Drained(s.items, batch, outcomes, Settle);
    forall k | 0 <= k < |items|
      ensures items[k].messageId == s.items[k].messageId && ItemSound(s.messages, items[k])
    {
      if k in batch {
        var i :| 0 <= i < |batch| && batch[i] == k;
        assert items[k] == Settle(s.items[k], outcomes[i]);
        SettleSpends(s.items[k], outcomes[i]);
      }
    }
    ReplaceItemsKeepsInv(s, items);
  }

  lemma InvItems(s: Store)
    requires Inv(s)
    ensures forall k :: 0 <= k < |s.items| ==> ItemSound(s.messages, s.items[k])
  {
  }
}
