/** The event drain: batch claims in creation order, published inside the transaction, failures left at the head. */
module EventDrain {
  import opened Common
  import opened Batches
  import opened Store
  import opened StoreEdits
  import opened Runtime

  /** What publishing one row did; a call can append to the stream and still raise. */
  datatype Publication = Published(at: Instant) | Rejected | AppendedThenRaised

  function Settle(row: EventRow, p: Publication): EventRow {
    match p
    case Published(at) => row.(state := Done, publishedAt := Some(at))
    case Rejected => row.(state := Pending)
    case AppendedThenRaised => row.(state := Pending)
  }

  // ---------------------------------------------------------------- the claim query

  predicate AtOrBefore(a: EventRow, b: EventRow) {
    a.createdAt <= b.createdAt
  }

  predicate IsPending(row: EventRow) {
    row.state.Pending?
  }

  /** The first `limit` pending rows by creation time, for some order of the ties. */
  predicate IsBatch(events: seq<EventRow>, limit: nat, batch: seq<nat>) {
    FirstReady(events, IsPending, AtOrBefore, limit, batch)
  }

  function PendingRows(events: seq<EventRow>): set<nat> {
    set k: nat | k < |events| && events[k].state.Pending?
  }

  /** The query always has an answer. */
  lemma QueryHasAnswer(events: seq<EventRow>, limit: nat) returns (batch: seq<nat>)
    ensures IsBatch(events, limit, batch)
  {
    batch := BatchExists(events, IsPending, AtOrBefore, limit);
  }

  /** The query written out: pending rows, the oldest first, and nothing skipped while there is room. */
  lemma QueryWrittenOut(events: seq<EventRow>, limit: nat, batch: seq<nat>)
    ensures IsBatch(events, limit, batch)
            <==> && Distinct(batch) && |batch| <= limit
                 && (forall i :: 0 <= i < |batch| ==> batch[i] < |events| && events[batch[i]].state == Pending)
                 && (forall i, j :: 0 <= i < j < |batch| ==> events[batch[i]].createdAt <= events[batch[j]].createdAt)
                 && (forall k: nat :: k < |events| && events[k].state == Pending && k !in batch ==>
                       |batch| == limit
                       && forall i :: 0 <= i < |batch| ==> events[batch[i]].createdAt <= events[k].createdAt)
  {
  }

  // ---------------------------------------------------------------- one drain

  /** The rows whose events reached the stream, in the order of the batch. */
  function Appended(batch: seq<nat>, outcomes: seq<Publication>): seq<nat>
    requires |batch| == |outcomes|
  {
    if batch == [] then []
    else
      var last := |batch| - 1;
      Appended(batch[..last], outcomes[..last]) + (if outcomes[last].Rejected? then [] else [batch[last]])
  }

  /** What reaches the stream are the rows whose publication was not rejected, in the order of the batch. */
  lemma {:induction false} AppendedAreAttempted(batch: seq<nat>, outcomes: seq<Publication>)
    requires |batch| == |outcomes|
    ensures Appended(batch, outcomes)
            == Select(batch, seq(|batch|, i requires 0 <= i < |batch| => !outcomes[i].Rejected?))
  {
    if batch != [] {
      var last := |batch| - 1;
      AppendedAreAttempted(batch[..last], outcomes[..last]);
      var keep := seq(|batch|, i requires 0 <= i < |batch| => !outcomes[i].Rejected?);
      SelectLast(batch[..last], batch[last], keep[..last], keep[last]);
      assert batch == batch[..last] + [batch[last]] && keep == keep[..last] + [keep[last]];
      assert keep[..last] == seq(last, i requires 0 <= i < last => !outcomes[..last][i].Rejected?);
    }
  }

  lemma NothingAppended(batch: seq<nat>, outcomes: seq<Publication>)
    requires |batch| == |outcomes|
    ensures Appended(batch[..0], outcomes[..0]) == []
  {
  }

  lemma AppendOneMore(batch: seq<nat>, outcomes: seq<Publication>, i: nat)
    requires i < |batch| == |outcomes|
    ensures Appended(batch[..i + 1], outcomes[..i + 1])
            == Appended(batch[..i], outcomes[..i]) + (if outcomes[i].Rejected? then [] else [batch[i]])
  {
    assert batch[..i + 1][..i] == batch[..i] && outcomes[..i + 1][..i] == outcomes[..i];
  }

  /** The Redis stream, as the rows whose events were appended to it. */
  class Stream {
    var log: seq<nat>

    constructor ()
      ensures log == []
    {
      log := [];
    }

    /** Publish one event; false when the call raised, which says nothing about the append. */
    method Publish(row: nat, p: Publication) returns (ok: bool)
      modifies this
      ensures ok == p.Published?
      ensures log == if p.Rejected? then old(log) else old(log) + [row]
    {
      if !p.Rejected? {
        log := log + [row];
      }
      return p.Published?;
    }
  }

  class Worker {
    const database: Database
    const stream: Stream
    const batchSize: nat

    constructor (database: Database, stream: Stream, batchSize: nat)
      ensures this.database == database && this.stream == stream && this.batchSize == batchSize
    {
      this.database, this.stream, this.batchSize := database, stream, batchSize;
    }

    /** One row of the batch: claimed, published, and settled by how that went. */
    method PublishRow(session: Session, id: nat, p: Publication)
      requires id < |session.work.events|
      modifies session`work, stream
      ensures session.work
           == old(session.work).(events := old(session.work).events[id := Settle(old(session.work).events[id], p)])
      ensures var row, row' := old(session.work).events[id], session.work.events[id];
              && row'.messageId == row.messageId && row'.data == row.data && row'.createdAt == row.createdAt
              && (if p.Published? then row'.state == Done && row'.publishedAt == Some(p.at)
                  else row'.state == Pending && row'.publishedAt == row.publishedAt)
      ensures stream.log == if p.Rejected? then old(stream.log) else old(stream.log) + [id]
    {
      ghost var before := session.work.events;
      var row := session.work.events[id].(state := Claimed);
      session.work := session.work.(events := session.work.events[id := row]);
      ghost var claimed := row;
      var ok := stream.Publish(id, p);
      if ok {
        row := row.(state := Done, publishedAt := Some(p.at));
      } else {
        row := row.(state := Pending);
      }
      session.work := session.work.(events := session.work.events[id := row]);
      UpdatedTwice(before, id, claimed, row);
    }

    /**
     One drain, which may die anywhere: it gets as far as there are outcomes. When it does not commit,
     the rows roll back and the stream keeps what it got.
     */
    method DrainOnce(batch: seq<nat>, outcomes: seq<Publication>, commits: bool)
      requires |outcomes| <= |batch| && (commits ==> |outcomes| == |batch|)
      requires IsBatch(database.store.events, batchSize, batch)
      modifies database, stream
      ensures var s := old(database.store);
              database.store == if commits then s.(events := Drained(s.events, batch, outcomes, Settle)) else s
      ensures stream.log == old(stream.log) + Appended(batch[..|outcomes|], outcomes)
    {
      hide Drained, Appended, Settle;
      var session: Session := new Session(database);
      ghost var start, log, reached := database.store, stream.log, batch[..|outcomes|];
      NothingDrained(start.events, reached, outcomes, Settle);
      NothingAppended(reached, outcomes);
      for i := 0 to |outcomes|
        invariant session.database == database && database.store == start
        invariant session.work == start.(events := Drained(start.events, reached[..i], outcomes[..i], Settle))
        invariant stream.log == log + Appended(reached[..i], outcomes[..i])
      {
        DrainOneMore(start.events, reached, outcomes, Settle, i);
        AppendOneMore(reached, outcomes, i);
        PublishRow(session, batch[i], outcomes[i]);
      }
      assert reached[..|outcomes|] == reached && outcomes[..|outcomes|] == outcomes;
      assert commits ==> reached == batch;
      session.Close(!commits);
    }
  }

  /** A committed drain keeps the store invariant. */
  lemma DrainKeepsInv(s: Store, limit: nat, batch: seq<nat>, outcomes: seq<Publication>)
    requires Inv(s) && |batch| == |outcomes| && IsBatch(s.events, limit, batch)
    ensures Inv(s.(events := Drained(s.events, batch, outcomes, Settle)))
  {
    DrainedRows(s.events, batch, outcomes, Settle);
    var events := Drained(s.events, batch, outcomes, Settle);
    forall k | 0 <= k < |events|
      ensures SameNews(s.events[k], events[k]) && (events[k].state.Pending? || events[k].state.Done?)
    {
      assert EventSound(s.messages, s.events[k]);
      if k in batch {
        var i :| 0 <= i < |batch| && batch[i] == k;
        assert events[k] == Settle(s.events[k], outcomes[i]);
      }
    }
    hide Inv;
    ReplaceEventsKeepsInv(s, events);
  }

  // ---------------------------------------------------------------- runs of the table

  /** A drain, or the commit of a transaction that adds a row (possibly created earlier than others). */
  datatype Step = Drain(batch: seq<nat>, outcomes: seq<Publication>, commits: bool) | Append(row: EventRow)

  predicate ValidStep(events: seq<EventRow>, limit: nat, step: Step) {
    match step
    case Drain(batch, outcomes, _) => |batch| == |outcomes| && IsBatch(events, limit, batch)
    case Append(row) => row.state.Pending?
  }

  function After(events: seq<EventRow>, limit: nat, step: Step): seq<EventRow>
    requires ValidStep(events, limit, step)
  {
    match step
    case Drain(batch, outcomes, commits) => if commits then Drained(events, batch, outcomes, Settle) else events
    case Append(row) => events + [row]
  }

  predicate ValidRun(events: seq<EventRow>, limit: nat, steps: seq<Step>)
    decreases |steps|
  {
    steps != [] ==> ValidStep(events, limit, steps[0]) && ValidRun(After(events, limit, steps[0]), limit, steps[1..])
  }

  function End(events: seq<EventRow>, limit: nat, steps: seq<Step>): seq<EventRow>
    requires ValidRun(events, limit, steps)
    decreases |steps|
  {
    if steps == [] then events else End(After(events, limit, steps[0]), limit, steps[1..])
  }

  predicate IsCommittedDrain(step: Step) {
    step.Drain? && step.commits
  }

  function CommittedDrains(steps: seq<Step>): nat {
    if steps == [] then 0 else (if IsCommittedDrain(steps[0]) then 1 else 0) + CommittedDrains(steps[1..])
  }

  /** Publishing fails for the rows of `failing`, always, and for no other row. */
  predicate StepFails(step: Step, failing: set<nat>) {
    step.Drain? ==>
      forall i :: 0 <= i < |step.batch| && i < |step.outcomes| ==>
          (step.outcomes[i].Published? <==> step.batch[i] !in failing)
  }

  predicate Fails(steps: seq<Step>, failing: set<nat>) {
    forall i :: 0 <= i < |steps| ==> StepFails(steps[i], failing)
  }

  /** No added row sorts at or before x. */
  predicate NoneJoinsAhead(steps: seq<Step>, x: EventRow) {
    forall i :: 0 <= i < |steps| && steps[i].Append? ==> !AtOrBefore(steps[i].row, x)
  }

  // ---------------------------------------------------------------- progress and starvation

  /** The other pending rows that may be claimed no later than x. */
  function Rivals(events: seq<EventRow>, x: nat): set<nat>
    requires x < |events|
  {
    set k: nat | k < |events| && k != x && events[k].state.Pending? && AtOrBefore(events[k], events[x])
  }

  lemma PassedOverMeansFull(events: seq<EventRow>, limit: nat, batch: seq<nat>, x: nat)
    requires IsBatch(events, limit, batch) && x < |events| && events[x].state.Pending? && x !in batch
    ensures Members(batch) <= Rivals(events, x) && |Members(batch)| == limit
  {
    DistinctSize(batch);
    forall k | k in Members(batch)
      ensures k in Rivals(events, x)
    {
      var i :| 0 <= i < |batch| && batch[i] == k;
      assert AtOrBefore(events[batch[i]], events[x]);
    }
  }

  /** A committed drain marks exactly the healthy rows of its batch done. */
  lemma DrainSorts(events: seq<EventRow>, limit: nat, step: Step, failing: set<nat>)
    requires ValidStep(events, limit, step) && IsCommittedDrain(step) && StepFails(step, failing)
    ensures var events' := After(events, limit, step);
            && (forall k :: 0 <= k < |events| ==> events'[k].createdAt == events[k].createdAt)
            && (forall k: nat :: k < |events| && k in step.batch && k !in failing ==> events'[k].state.Done?)
            && (forall k: nat :: k < |events| && (k !in step.batch || k in failing) ==>
              events'[k].state == events[k].state)
  {
    DrainedRows(events, step.batch, step.outcomes, Settle);
    var events' := After(events, limit, step);
    forall k: nat | k < |events| && k in step.batch
      ensures events'[k].createdAt == events[k].createdAt
      ensures events'[k].state == if k in failing then Pending else Done
      ensures events[k].state.Pending?
    {
      var i :| 0 <= i < |step.batch| && step.batch[i] == k;
      assert events'[k] == Settle(events[k], step.outcomes[i]);
    }
  }

  /** Rows added between the two tables that may be claimed no later than x. */
  function Joiners(events: seq<EventRow>, later: seq<EventRow>, x: nat): set<nat>
    requires x < |events|
  {
    set k: nat | |events| <= k < |later| && AtOrBefore(later[k], events[x])
  }

  /** All rows that may be claimed no later than x, now or by the time of the later table. */
  function EverAhead(events: seq<EventRow>, later: seq<EventRow>, x: nat): set<nat>
    requires x < |events|
  {
    Rivals(events, x) + Joiners(events, later, x)
  }

  lemma DrainRemovesHealthyRivals(events: seq<EventRow>, limit: nat, step: Step, failing: set<nat>, x: nat,
                                  later: seq<EventRow>)
    requires ValidStep(events, limit, step) && IsCommittedDrain(step) && StepFails(step, failing)
    requires x < |events| && events[x].state.Pending? && x !in step.batch
    ensures var events' := After(events, limit, step);
            var before, after := EverAhead(events, later, x), EverAhead(events', later, x);
            && events'[x].state.Pending? && events'[x].createdAt == events[x].createdAt
            && after * failing == before * failing
            && |after - failing| + limit <= |before - failing| + |before * failing|
  {
    hide IsBatch, StepFails, Drained;
    DrainSorts(events, limit, step, failing);
    PassedOverMeansFull(events, limit, step.batch, x);
    var events', taken := After(events, limit, step), Members(step.batch);
    forall k: nat
      ensures k in EverAhead(events', later, x) <==> k in EverAhead(events, later, x) && !(k in taken && k !in failing)
    {
      assert k in taken <==> k in step.batch;
      assert k in taken ==> k in Rivals(events, x);
    }
    HealthyTaken(EverAhead(events, later, x), EverAhead(events', later, x), taken, failing);
  }

  lemma HealthyTaken(before: set<nat>, after: set<nat>, taken: set<nat>, failing: set<nat>)
    requires taken <= before
    requires forall k :: k in after <==> k in before && !(k in taken && k !in failing)
    ensures after * failing == before * failing
    ensures |after - failing| + |taken| <= |before - failing| + |before * failing|
  {
    var healthy, stuck := taken - failing, taken * failing;
    assert after - failing == (before - failing) - healthy;
    assert healthy <= before - failing;
    assert taken == healthy + stuck;
    SubsetSize(stuck, before * failing);
  }

  /** Done rows stay as they are. */
  lemma {:induction false} DoneStays(events: seq<EventRow>, limit: nat, steps: seq<Step>, x: nat)
    requires ValidRun(events, limit, steps) && x < |events| && events[x].state.Done?
    ensures x < |End(events, limit, steps)| && End(events, limit, steps)[x] == events[x]
    decreases |steps|
  {
    if steps != [] {
      if IsCommittedDrain(steps[0]) {
        DrainedRows(events, steps[0].batch, steps[0].outcomes, Settle);
      }
      DoneStays(After(events, limit, steps[0]), limit, steps[1..], x);
    }
  }

  /** Rows are only added, and keep their creation time. */
  lemma {:induction false} CreationStays(events: seq<EventRow>, limit: nat, steps: seq<Step>)
    requires ValidRun(events, limit, steps)
    ensures |events| <= |End(events, limit, steps)|
    ensures forall k :: 0 <= k < |events| ==> End(events, limit, steps)[k].createdAt == events[k].createdAt
    decreases |steps|
  {
    if steps != [] {
      var events' := After(events, limit, steps[0]);
      assert |events| <= |events'| && forall k :: 0 <= k < |events| ==> events'[k].createdAt == events[k].createdAt by {
        StepKeepsCreation(events, limit, steps[0]);
      }
      CreationStays(events', limit, steps[1..]);
    }
  }

  lemma StepKeepsCreation(events: seq<EventRow>, limit: nat, step: Step)
    requires ValidStep(events, limit, step)
    ensures var events' := After(events, limit, step);
            |events| <= |events'| && forall k :: 0 <= k < |events| ==> events'[k].createdAt == events[k].createdAt
  {
    if IsCommittedDrain(step) {
      DrainedRows(events, step.batch, step.outcomes, Settle);
      forall k | 0 <= k < |events|
        ensures After(events, limit, step)[k].createdAt == events[k].createdAt
      {
        if k in step.batch {
          var i :| 0 <= i < |step.batch| && step.batch[i] == k;
        }
      }
    }
  }

  /** A row that joins was counted as a joiner before it joined. */
  lemma JoiningChangesNothing(events: seq<EventRow>, row: EventRow, later: seq<EventRow>, x: nat)
    requires x < |events| < |later| && row.state.Pending? && later[|events|].createdAt == row.createdAt
    ensures EverAhead(events + [row], later, x) == EverAhead(events, later, x)
  {
    forall k: nat
      ensures k in EverAhead(events + [row], later, x) <==> k in EverAhead(events, later, x)
    {
    }
  }

  lemma StepKeepsAhead(events: seq<EventRow>, limit: nat, step: Step, x: nat, later: seq<EventRow>)
    requires ValidStep(events, limit, step) && !IsCommittedDrain(step) && x < |events|
    requires step.Append? ==> |events| < |later| && later[|events|].createdAt == step.row.createdAt
    ensures EverAhead(After(events, limit, step), later, x) == EverAhead(events, later, x)
  {
    if step.Append? {
      JoiningChangesNothing(events, step.row, later, x);
    }
  }

  lemma {:induction false} WaitingIsPaidFor(events: seq<EventRow>, limit: nat, steps: seq<Step>, failing: set<nat>,
                                            x: nat)
    requires ValidRun(events, limit, steps) && Fails(steps, failing) && x !in failing
    requires x < |events| && events[x].state.Pending?
    requires |EverAhead(events, End(events, limit, steps), x) * failing| < limit
    ensures x < |End(events, limit, steps)|
    ensures var ahead := EverAhead(events, End(events, limit, steps), x);
            End(events, limit, steps)[x].state.Done?
            || (limit - |ahead * failing|) * CommittedDrains(steps) <= |ahead - failing|
    decreases |steps|
  {
    hide IsBatch, EverAhead;
    if steps != [] {
      var step, later := steps[0], End(events, limit, steps);
      assert StepFails(step, failing);
      var events' := After(events, limit, step);
      CreationStays(events', limit, steps[1..]);
      WaitingFails(steps, failing);
      if IsCommittedDrain(step) && x in step.batch {
        DrainSorts(events, limit, step, failing);
        DoneStays(events', limit, steps[1..], x);
      } else {
        if IsCommittedDrain(step) {
          DrainRemovesHealthyRivals(events, limit, step, failing, x, later);
        } else {
          StepKeepsAhead(events, limit, step, x, later);
        }
        WaitingIsPaidFor(events', limit, steps[1..], failing, x);
        var width := limit - |EverAhead(events, later, x) * failing|;
        assert width * (1 + CommittedDrains(steps[1..])) == width + width * CommittedDrains(steps[1..]);
      }
    }
  }

  /**
   Progress: if fewer than a batch of the rows ever at or before x fail forever, x is published within
   floor(healthy rows ahead / (batch - failing rows ahead)) + 1 committed drains, rows that join ahead
   included.
   */
  lemma Progress(events: seq<EventRow>, limit: nat, steps: seq<Step>, failing: set<nat>, x: nat)
    requires ValidRun(events, limit, steps) && Fails(steps, failing) && x !in failing
    requires x < |events| && events[x].state.Pending?
    requires |EverAhead(events, End(events, limit, steps), x) * failing| < limit
    requires var ahead := EverAhead(events, End(events, limit, steps), x);
             CommittedDrains(steps) >= Rounds(|ahead - failing|, limit - |ahead * failing|)
    ensures x < |End(events, limit, steps)| && End(events, limit, steps)[x].state.Done?
  {
    hide EverAhead;
    var ahead := EverAhead(events, End(events, limit, steps), x);
    WaitingIsPaidFor(events, limit, steps, failing, x);
    FloorBound(|ahead - failing|, limit - |ahead * failing|, CommittedDrains(steps));
  }

  /** When no row joins ahead, the rows ever ahead are those that are ahead now. */
  lemma {:induction false} NobodyJoins(events: seq<EventRow>, limit: nat, steps: seq<Step>, x: nat)
    requires ValidRun(events, limit, steps) && x < |events| && NoneJoinsAhead(steps, events[x])
    ensures Joiners(events, End(events, limit, steps), x) == {}
    decreases |steps|
  {
    hide IsBatch;
    if steps != [] {
      var step := steps[0];
      var events', later := After(events, limit, step), End(events, limit, steps);
      StepKeepsCreation(events, limit, step);
      CreationStays(events', limit, steps[1..]);
      assert NoneJoinsAhead(steps[1..], events'[x]) by {
        assert forall i :: 0 <= i < |steps| - 1 ==> steps[1..][i] == steps[i + 1];
      }
      NobodyJoins(events', limit, steps[1..], x);
      forall k | k in Joiners(events, later, x)
        ensures k in Joiners(events', later, x)
      {
        assert step.Append? ==> !AtOrBefore(step.row, events[x]);
      }
    }
  }

  /** Pending rows that fail forever and come strictly before x. */
  predicate BlocksHead(events: seq<EventRow>, head: set<nat>, failing: set<nat>, x: nat) {
    x < |events|
    && forall k :: k in head ==>
      k < |events| && k in failing && events[k].state.Pending? && events[k].createdAt < events[x].createdAt
  }

  lemma HeadKeepsOut(events: seq<EventRow>, limit: nat, batch: seq<nat>, head: set<nat>, failing: set<nat>, x: nat)
    requires IsBatch(events, limit, batch) && BlocksHead(events, head, failing, x) && |head| >= limit
    ensures x !in batch
  {
    DistinctSize(batch);
    if x in batch {
      var i :| 0 <= i < |batch| && batch[i] == x;
      forall k | k in head
        ensures k in Members(batch)
      {
        assert k in batch || AtOrBefore(events[batch[i]], events[k]);
      }
      assert x !in head;
      SubsetSize(head + {x}, Members(batch));
    }
  }

  /** Starvation: a batch of failing rows at the head keeps every later row pending for ever. */
  lemma {:induction false} HeadOfLineBlocking(events: seq<EventRow>, limit: nat, steps: seq<Step>, head: set<nat>,
                                              failing: set<nat>, x: nat)
    requires ValidRun(events, limit, steps) && Fails(steps, failing)
    requires BlocksHead(events, head, failing, x) && |head| >= limit
    ensures x < |End(events, limit, steps)| && End(events, limit, steps)[x] == events[x]
    decreases |steps|
  {
    if steps != [] {
      var step := steps[0];
      assert StepFails(step, failing);
      if IsCommittedDrain(step) {
        HeadKeepsOut(events, limit, step.batch, head, failing, x);
        DrainSorts(events, limit, step, failing);
        DrainedRows(events, step.batch, step.outcomes, Settle);
      }
      WaitingFails(steps, failing);
      HeadOfLineBlocking(After(events, limit, step), limit, steps[1..], head, failing, x);
    }
  }

  lemma WaitingFails(steps: seq<Step>, failing: set<nat>)
    requires steps != [] && Fails(steps, failing)
    ensures Fails(steps[1..], failing)
  {
    forall i | 0 <= i < |steps| - 1
      ensures StepFails(steps[1..][i], failing)
    {
      assert StepFails(steps[i + 1], failing);
    }
  }

  /** With a batch of rivals, the query may leave x out: ties may come in either order. */
  lemma PassingBatch(events: seq<EventRow>, limit: nat, x: nat) returns (batch: seq<nat>)
    requires x < |events| && events[x].state.Pending? && |Rivals(events, x)| >= limit
    ensures IsBatch(events, limit, batch) && x !in batch
  {
    var others := events[x := events[x].(state := Done)];
    batch := QueryHasAnswer(others, limit);
    var members, rivals := Members(batch), Rivals(events, x);
    DistinctSize(batch);
    if |batch| < limit {
      assert forall k :: k in rivals ==> others[k].state.Pending? && k in batch;
      assert rivals <= members;
      SubsetSize(rivals, members);
    }
    forall i | 0 <= i < |batch|
      ensures AtOrBefore(events[batch[i]], events[x])
    {
      if rivals <= members {
        SameSizeSubset(rivals, members);
        assert batch[i] in members;
      } else {
        var r :| r in rivals && r !in members;
        assert r !in batch && others[r].state.Pending?;
        assert AtOrBefore(others[batch[i]], others[r]);
      }
    }
  }

  lemma SameSizeSubset(a: set<nat>, b: set<nat>)
    requires a <= b && |a| >= |b|
    ensures a == b
  {
    assert b == a + (b - a);
  }

  lemma NoDrains(events: seq<EventRow>, limit: nat, failing: set<nat>)
    ensures ValidRun(events, limit, []) && Fails([], failing) && CommittedDrains([]) == 0
        && End(events, limit, []) == events
  {
  }

  /** Any number of committed drains can follow one another without ever getting to x. */
  lemma {:induction false} PassingDrains(events: seq<EventRow>, limit: nat, failing: set<nat>, x: nat, n: nat)
    returns (steps: seq<Step>)
    requires x < |events| && events[x].state.Pending? && |Rivals(events, x) * failing| >= limit
    ensures ValidRun(events, limit, steps) && Fails(steps, failing) && CommittedDrains(steps) == n
    ensures forall i :: 0 <= i < |steps| ==> steps[i].Drain?
    ensures x < |End(events, limit, steps)| && End(events, limit, steps)[x].state.Pending?
    decreases n
  {
    hide IsBatch, StepFails, Drained, ValidRun, End, Fails, CommittedDrains;
    if n == 0 {
      steps := [];
      NoDrains(events, limit, failing);
    } else {
      SubsetSize(Rivals(events, x) * failing, Rivals(events, x));
      var batch := PassingBatch(events, limit, x);
      var step := PassingStep(events, limit, failing, batch);
      var events' := After(events, limit, step);
      DrainRemovesHealthyRivals(events, limit, step, failing, x, events);
      assert EverAhead(events, events, x) == Rivals(events, x) && EverAhead(events', events, x) == Rivals(events', x);
      var rest := PassingDrains(events', limit, failing, x, n - 1);
      steps := [step] + rest;
      DrainFirst(events, limit, failing, step, rest);
    }
  }

  lemma DrainFirst(events: seq<EventRow>, limit: nat, failing: set<nat>, step: Step, rest: seq<Step>)
    requires ValidStep(events, limit, step) && IsCommittedDrain(step) && StepFails(step, failing)
    requires ValidRun(After(events, limit, step), limit, rest) && Fails(rest, failing)
    ensures var steps := [step] + rest;
            && ValidRun(events, limit, steps) && Fails(steps, failing)
            && CommittedDrains(steps) == 1 + CommittedDrains(rest)
            && End(events, limit, steps) == End(After(events, limit, step), limit, rest)
  {
    hide IsBatch, StepFails, Drained;
    assert ([step] + rest)[1..] == rest;
    forall i | 0 <= i < |[step] + rest|
      ensures StepFails(([step] + rest)[i], failing)
    {
      assert i > 0 ==> StepFails(rest[i - 1], failing);
    }
  }

  /** A committed drain of the batch in which precisely the rows of `failing` fail. */
  lemma PassingStep(events: seq<EventRow>, limit: nat, failing: set<nat>, batch: seq<nat>) returns (step: Step)
    requires IsBatch(events, limit, batch)
    ensures ValidStep(events, limit, step) && IsCommittedDrain(step) && step.batch == batch && StepFails(step, failing)
  {
    step := Drain(batch, seq(|batch|, i requires 0 <= i < |batch| =>
                                        if batch[i] in failing then Rejected else Published(0.0)), true);
  }

  /**
   Some number of committed drains publishes x in every run in which the rows of `failing` fail and none
   joins ahead.
   */
  ghost predicate PublishedWithin(events: seq<EventRow>, limit: nat, failing: set<nat>, x: nat, n: nat)
    requires x < |events|
  {
    forall steps: seq<Step> ::
      ValidRun(events, limit, steps) && Fails(steps, failing) && NoneJoinsAhead(steps, events[x])
      && CommittedDrains(steps) >= n ==>
        x < |End(events, limit, steps)| && End(events, limit, steps)[x].state.Done?
  }

  ghost predicate BoundExists(events: seq<EventRow>, limit: nat, failing: set<nat>, x: nat)
    requires x < |events|
  {
    exists n: nat :: PublishedWithin(events, limit, failing, x, n)
  }

  /** Exactly when the event drain gets to a healthy row: fewer than a batch of the rows ahead of it fail forever. */
  lemma ProgressIffFewFail(events: seq<EventRow>, limit: nat, failing: set<nat>, x: nat)
    requires x < |events| && events[x].state.Pending? && x !in failing
    ensures BoundExists(events, limit, failing, x) <==> |Rivals(events, x) * failing| < limit
  {
    var stuck := |Rivals(events, x) * failing|;
    if stuck < limit {
      var n := Rounds(|Rivals(events, x) - failing|, limit - stuck);
      forall steps: seq<Step> |
        ValidRun(events, limit, steps) && Fails(steps, failing) && NoneJoinsAhead(steps, events[x])
          && CommittedDrains(steps) >= n
        ensures x < |End(events, limit, steps)| && End(events, limit, steps)[x].state.Done?
      {
        NobodyJoins(events, limit, steps, x);
        assert EverAhead(events, End(events, limit, steps), x) == Rivals(events, x);
        Progress(events, limit, steps, failing, x);
      }
      assert PublishedWithin(events, limit, failing, x, n);
    } else {
      forall n: nat
        ensures !PublishedWithin(events, limit, failing, x, n)
      {
        var steps := PassingDrains(events, limit, failing, x, n);
      }
    }
  }

  // ---------------------------------------------------------------- without failures

  predicate AllDrainsPublish(steps: seq<Step>) {
    forall i :: 0 <= i < |steps| ==> IsCommittedDrain(steps[i]) && StepFails(steps[i], {})
  }

  function StepLog(step: Step): seq<nat> {
    if step.Drain? && |step.batch| == |step.outcomes| then Appended(step.batch, step.outcomes) else []
  }

  /** What a run appends to the stream. */
  function StreamLog(steps: seq<Step>): seq<nat> {
    if steps == [] then [] else StepLog(steps[0]) + StreamLog(steps[1..])
  }

  lemma HealthyDrain(events: seq<EventRow>, limit: nat, step: Step)
    requires ValidStep(events, limit, step) && IsCommittedDrain(step) && StepFails(step, {})
    ensures var events' := After(events, limit, step);
            && PendingRows(events') == PendingRows(events) - Members(step.batch)
            && Members(step.batch) <= PendingRows(events)
            && |step.batch| == (if |PendingRows(events)| < limit then |PendingRows(events)| else limit)
            && |PendingRows(events')| == |PendingRows(events)| - |step.batch|
            && (forall k :: 0 <= k < |events| ==> events'[k].createdAt == events[k].createdAt)
  {
    DrainSorts(events, limit, step, {});
    DistinctSize(step.batch);
    var events', taken := After(events, limit, step), Members(step.batch);
    assert PendingRows(events') == PendingRows(events) - taken;
    assert taken <= PendingRows(events);
    SubsetSize(taken, PendingRows(events));
    if |step.batch| < limit {
      assert PendingRows(events) == taken;
    }
  }

  /** The rows that so many drains can take at the most. */
  function Room(limit: nat, drains: nat): nat {
    limit * drains
  }

  lemma OneDrainMore(limit: nat, drains: nat, pending: nat)
    ensures Room(limit, 0) == 0
    ensures var taken := if pending < limit then pending else limit;
            Room(limit, drains) >= pending - taken <==> Room(limit, drains + 1) >= pending
  {
    assert limit * (drains + 1) == limit * drains + limit;
  }

  /** With no failures, n pending rows are all published after d drains precisely when d * batch >= n. */
  lemma {:induction false} DrainsNeeded(events: seq<EventRow>, limit: nat, steps: seq<Step>)
    requires ValidRun(events, limit, steps) && AllDrainsPublish(steps)
    ensures PendingRows(End(events, limit, steps)) == {} <==> Room(limit, |steps|) >= |PendingRows(events)|
    decreases |steps|
  {
    hide Room, PendingRows, IsBatch, StepFails, Drained, Members;
    if steps == [] {
      OneDrainMore(limit, 0, 0);
      assert PendingRows(events) == {} <==> |PendingRows(events)| == 0;
    } else {
      assert IsCommittedDrain(steps[0]) && StepFails(steps[0], {});
      HealthyDrain(events, limit, steps[0]);
      DrainsNeeded(After(events, limit, steps[0]), limit, steps[1..]);
      OneDrainMore(limit, |steps| - 1, |PendingRows(events)|);
    }
  }

  predicate InCreationOrder(events: seq<EventRow>, log: seq<nat>) {
    && (forall i :: 0 <= i < |log| ==> log[i] < |events|)
    && (forall i, j :: 0 <= i < j < |log| ==> AtOrBefore(events[log[i]], events[log[j]]))
  }

  /** A drain without failures appends its batch. */
  lemma {:induction false} HealthyAppends(batch: seq<nat>, outcomes: seq<Publication>)
    requires |batch| == |outcomes| && forall i :: 0 <= i < |outcomes| ==> outcomes[i].Published?
    ensures Appended(batch, outcomes) == batch
  {
    if batch != [] {
      HealthyAppends(batch[..|batch| - 1], outcomes[..|batch| - 1]);
    }
  }

  lemma HealthyStepLog(step: Step)
    requires IsCommittedDrain(step) && StepFails(step, {}) && |step.batch| == |step.outcomes|
    ensures StepLog(step) == step.batch
  {
    HealthyAppends(step.batch, step.outcomes);
  }

  /** With no failures, the stream gets the pending rows in creation order, each once, as they leave the table. */
  lemma {:induction false} PublishedInOrder(events: seq<EventRow>, limit: nat, steps: seq<Step>)
    requires ValidRun(events, limit, steps) && AllDrainsPublish(steps)
    ensures OrderedLog(events, StreamLog(steps))
    ensures |StreamLog(steps)| == |PendingRows(events)| - |PendingRows(End(events, limit, steps))|
    decreases |steps|
  {
    hide OrderedLog, StepLog, PendingRows, IsBatch, StepFails, Drained;
    if steps == [] {
      assert OrderedLog(events, []) by {
        EmptyLog(events);
      }
    } else {
      assert IsCommittedDrain(steps[0]) && StepFails(steps[0], {});
      PublishedInOrder(After(events, limit, steps[0]), limit, steps[1..]);
      LogOneDrain(events, limit, steps[0], StreamLog(steps[1..]));
    }
  }

  /** A log of pending rows, each once, in creation order. */
  predicate OrderedLog(events: seq<EventRow>, log: seq<nat>) {
    AllPending(events, log) && InCreationOrder(events, log) && Distinct(log)
  }

  lemma EmptyLog(events: seq<EventRow>)
    ensures OrderedLog(events, [])
  {
  }

  lemma LogOneDrain(events: seq<EventRow>, limit: nat, step: Step, rest: seq<nat>)
    requires ValidStep(events, limit, step) && IsCommittedDrain(step) && StepFails(step, {})
    requires OrderedLog(After(events, limit, step), rest)
    ensures OrderedLog(events, StepLog(step) + rest)
    ensures |StepLog(step)| == |PendingRows(events)| - |PendingRows(After(events, limit, step))|
  {
    hide InCreationOrder, AllPending, PendingRows, Members, Distinct, StepLog, IsBatch, StepFails, Drained;
    HealthyDrain(events, limit, step);
    HealthyStepLog(step);
    DrainPrecedes(events, limit, step);
    JoinLogs(events, After(events, limit, step), step.batch, rest);
  }

  predicate AllPending(events: seq<EventRow>, log: seq<nat>) {
    forall i :: 0 <= i < |log| ==> log[i] in PendingRows(events)
  }

  lemma JoinLogs(events: seq<EventRow>, later: seq<EventRow>, batch: seq<nat>, rest: seq<nat>)
    requires |later| == |events| && forall k :: 0 <= k < |events| ==> later[k].createdAt == events[k].createdAt
    requires PendingRows(later) == PendingRows(events) - Members(batch)
    requires InCreationOrder(events, batch) && Distinct(batch) && AllPending(events, batch)
    requires InCreationOrder(later, rest) && Distinct(rest) && AllPending(later, rest)
    requires forall i, k :: 0 <= i < |batch| && k in PendingRows(later) ==> AtOrBefore(events[batch[i]], events[k])
    ensures InCreationOrder(events, batch + rest) && Distinct(batch + rest) && AllPending(events, batch + rest)
  {
    var log := batch + rest;
    forall i, j | 0 <= i < j < |log|
      ensures AtOrBefore(events[log[i]], events[log[j]]) && log[i] != log[j]
    {
      if i < |batch| <= j {
        assert rest[j - |batch|] in PendingRows(later);
        assert batch[i] in Members(batch);
      } else if |batch| <= i {
        assert AtOrBefore(later[rest[i - |batch|]], later[rest[j - |batch|]]);
      }
    }
    forall i | 0 <= i < |log|
      ensures log[i] in PendingRows(events)
    {
      assert i >= |batch| ==> rest[i - |batch|] in PendingRows(later);
    }
  }

  /** A batch is in order and comes no later than any pending row it leaves. */
  lemma DrainPrecedes(events: seq<EventRow>, limit: nat, step: Step)
    requires ValidStep(events, limit, step) && step.Drain?
    ensures InCreationOrder(events, step.batch) && Distinct(step.batch) && AllPending(events, step.batch)
    ensures forall i, k :: 0 <= i < |step.batch| && k in PendingRows(events) - Members(step.batch) ==>
              AtOrBefore(events[step.batch[i]], events[k])
  {
    forall i, k | 0 <= i < |step.batch| && k in PendingRows(events) - Members(step.batch)
      ensures AtOrBefore(events[step.batch[i]], events[k])
    {
      assert k !in step.batch;
    }
  }
}
