/**
 Any number of event drains at once. Each holds row locks from its claim to its end; publishing
 reaches the stream at once, while row states become visible only at commit.
 */
module Publication {
  import opened Common
  import opened Batches
  import opened Store
  import opened EventDrain

  /** A drain in flight: the rows it holds and what publishing did to the first of them. */
  datatype Drainer = Idle | Draining(batch: seq<nat>, outcomes: seq<Publication>)

  /** The committed table, the stream, the drains, and the history of what was appended without a commit. */
  datatype State = State(
    events: seq<EventRow>,
    stream: seq<nat>,
    drainers: seq<Drainer>,
    aborted: multiset<nat>,
    ambiguous: multiset<nat>)

  datatype Action =
    | Insert(row: EventRow)
    | Begin(w: nat, batch: seq<nat>)
    | Publish(w: nat, outcome: Publication)
    | Commit(w: nat)
    | Abort(w: nat)

  function Held(d: Drainer): set<nat> {
    if d.Draining? then Members(d.batch) else {}
  }

  /** The rows of a batch whose publication was confirmed. */
  function Confirmed(batch: seq<nat>, outcomes: seq<Publication>): multiset<nat>
    requires |outcomes| <= |batch|
  {
    if outcomes == [] then multiset{}
    else
      var last := |outcomes| - 1;
      Confirmed(batch, outcomes[..last]) + (if outcomes[last].Published? then multiset{batch[last]} else multiset{})
  }

  predicate WellFormed(d: Drainer) {
    d.Draining? ==> |d.outcomes| <= |d.batch|
  }

  function InFlight(d: Drainer): multiset<nat>
    requires WellFormed(d)
  {
    if d.Draining? then Confirmed(d.batch, d.outcomes) else multiset{}
  }

  /** Confirmed publications of row r by drains that have not ended. */
  function CountInFlight(drainers: seq<Drainer>, r: nat): nat
    requires forall w :: 0 <= w < |drainers| ==> WellFormed(drainers[w])
  {
    if drainers == [] then 0
    else CountInFlight(drainers[..|drainers| - 1], r) + InFlight(drainers[|drainers| - 1])[r]
  }

  /** SKIP LOCKED: the rows a claim may return are pending and held by nobody. */
  predicate Claimable(s: State, batch: seq<nat>) {
    && Distinct(batch)
    && (forall i :: 0 <= i < |batch| ==> batch[i] < |s.events| && s.events[batch[i]].state.Pending?)
    && (forall w :: 0 <= w < |s.drainers| ==> Members(batch) !! Held(s.drainers[w]))
  }

  predicate Enabled(s: State, a: Action) {
    match a
    case Insert(row) => row.state.Pending?
    case Begin(w, batch) => w < |s.drainers| && s.drainers[w].Idle? && Claimable(s, batch)
    case Publish(w, _) =>
      w < |s.drainers| && s.drainers[w].Draining? && |s.drainers[w].outcomes| < |s.drainers[w].batch|
    case Commit(w) =>
      && w < |s.drainers| && s.drainers[w].Draining? && |s.drainers[w].outcomes| == |s.drainers[w].batch|
      && (forall i :: 0 <= i < |s.drainers[w].batch| ==> s.drainers[w].batch[i] < |s.events|)
    case Abort(w) => w < |s.drainers| && s.drainers[w].Draining? && WellFormed(s.drainers[w])
  }

  function Next(s: State, a: Action): State
    requires Enabled(s, a)
  {
    match a
    case Insert(row) => s.(events := s.events + [row])
    case Begin(w, batch) => s.(drainers := s.drainers[w := Draining(batch, [])])
    case Publish(w, outcome) =>
      var d := s.drainers[w];
      var row := d.batch[|d.outcomes|];
      s.(drainers := s.drainers[w := d.(outcomes := d.outcomes + [outcome])],
         stream := if outcome.Rejected? then s.stream else s.stream + [row],
         ambiguous := if outcome.AppendedThenRaised? then s.ambiguous + multiset{row} else s.ambiguous)
    case Commit(w) =>
      s.(events := Drained(s.events, s.drainers[w].batch, s.drainers[w].outcomes, Settle),
        drainers := s.drainers[w := Idle])
    case Abort(w) =>
      s.(drainers := s.drainers[w := Idle], aborted := s.aborted + InFlight(s.drainers[w]))
  }

  predicate ValidRun(s: State, actions: seq<Action>)
    decreases |actions|
  {
    actions != [] ==> Enabled(s, actions[0]) && ValidRun(Next(s, actions[0]), actions[1..])
  }

  function End(s: State, actions: seq<Action>): State
    requires ValidRun(s, actions)
    decreases |actions|
  {
    if actions == [] then s else End(Next(s, actions[0]), actions[1..])
  }

  function Start(drainers: nat): State {
    State([], [], seq(drainers, _ => Idle), multiset{}, multiset{})
  }

  // ---------------------------------------------------------------- invariant

  predicate Holding(s: State, d: Drainer) {
    d.Draining? ==>
      && |d.outcomes| <= |d.batch| && Distinct(d.batch)
      && (forall i :: 0 <= i < |d.batch| ==> d.batch[i] < |s.events| && s.events[d.batch[i]].state.Pending?)
  }

  function DoneOnce(row: EventRow): nat {
    if row.state.Done? then 1 else 0
  }

  /** Locks: every drain in flight holds pending rows, and no row is held twice. */
  predicate LocksHold(s: State) {
    && (forall w :: 0 <= w < |s.drainers| ==> Holding(s, s.drainers[w]))
    && (forall v, w :: 0 <= v < w < |s.drainers| ==> Held(s.drainers[v]) !! Held(s.drainers[w]))
  }

  /**
   Every append of the row's event is explained by its commit, an abort, an ambiguous failure or a drain
   in flight.
   */
  predicate Accounted(s: State, r: nat)
    requires LocksHold(s)
  {
    multiset(s.stream)[r]
    == (if r < |s.events| then DoneOnce(s.events[r]) else 0) + s.aborted[r] + s.ambiguous[r]
      + CountInFlight(s.drainers, r)
  }

  lemma {:induction false} ConfirmedMeaning(batch: seq<nat>, outcomes: seq<Publication>, i: nat)
    requires |outcomes| <= |batch| && Distinct(batch) && i < |batch|
    ensures Confirmed(batch, outcomes)[batch[i]] == if i < |outcomes| && outcomes[i].Published? then 1 else 0
  {
    if outcomes != [] {
      ConfirmedMeaning(batch, outcomes[..|outcomes| - 1], i);
    }
  }

  lemma {:induction false} OnlyHeldConfirmed(batch: seq<nat>, outcomes: seq<Publication>, r: nat)
    requires |outcomes| <= |batch| && r !in batch
    ensures Confirmed(batch, outcomes)[r] == 0
  {
    if outcomes != [] {
      OnlyHeldConfirmed(batch, outcomes[..|outcomes| - 1], r);
    }
  }

  lemma {:induction false} CountUpdate(drainers: seq<Drainer>, w: nat, d: Drainer, r: nat)
    requires w < |drainers| && WellFormed(d) && forall v :: 0 <= v < |drainers| ==> WellFormed(drainers[v])
    ensures CountInFlight(drainers[w := d], r) + InFlight(drainers[w])[r] == CountInFlight(drainers, r) + InFlight(d)[r]
  {
    hide InFlight, WellFormed;
    var last := |drainers| - 1;
    if w == last {
      assert drainers[w := d][..last] == drainers[..last];
    } else {
      CountUpdate(drainers[..last], w, d, r);
      assert drainers[w := d][..last] == drainers[..last][w := d];
    }
  }

  lemma {:induction false} NotHeldNotCounted(drainers: seq<Drainer>, r: nat)
    requires forall v :: 0 <= v < |drainers| ==> WellFormed(drainers[v])
    requires forall v :: 0 <= v < |drainers| ==> r !in Held(drainers[v])
    ensures CountInFlight(drainers, r) == 0
  {
    if drainers != [] {
      var d := drainers[|drainers| - 1];
      NotHeldNotCounted(drainers[..|drainers| - 1], r);
      if d.Draining? {
        assert r !in d.batch by {
          assert forall i :: 0 <= i < |d.batch| ==> d.batch[i] in Held(d);
        }
        OnlyHeldConfirmed(d.batch, d.outcomes, r);
      }
    }
  }

  lemma NextKeepsLocks(s: State, a: Action)
    requires LocksHold(s) && Enabled(s, a)
    ensures LocksHold(Next(s, a))
  {
    hide Drained;
    var s' := Next(s, a);
    forall v | 0 <= v < |s'.drainers|
      ensures Holding(s', s'.drainers[v])
    {
      assert Holding(s, s.drainers[v]);
      if a.Commit? && v != a.w && s.drainers[v].Draining? {
        CommitSparesOthers(s, a.w, v);
      }
    }
  }

  lemma CommitSparesOthers(s: State, w: nat, v: nat)
    requires LocksHold(s) && Enabled(s, Commit(w)) && v < |s.drainers| && v != w && s.drainers[v].Draining?
    ensures var events' := Next(s, Commit(w)).events;
            && |events'| == |s.events|
            && forall i :: 0 <= i < |s.drainers[v].batch| ==>
              events'[s.drainers[v].batch[i]] == s.events[s.drainers[v].batch[i]]
  {
    var mine, other := s.drainers[w], s.drainers[v];
    assert Holding(s, mine) && Holding(s, other);
    DrainedRows(s.events, mine.batch, mine.outcomes, Settle);
    assert Held(mine) !! Held(other);
    forall i | 0 <= i < |other.batch|
      ensures other.batch[i] !in mine.batch
    {
      assert other.batch[i] in Held(other);
      assert forall j :: 0 <= j < |mine.batch| ==> mine.batch[j] in Held(mine);
    }
  }

  lemma InsertAccounted(s: State, row: EventRow, r: nat)
    requires LocksHold(s) && Enabled(s, Insert(row)) && Accounted(s, r)
    ensures LocksHold(Next(s, Insert(row))) && Accounted(Next(s, Insert(row)), r)
  {
    NextKeepsLocks(s, Insert(row));
  }

  lemma CommitAccounted(s: State, w: nat, r: nat)
    requires LocksHold(s) && Enabled(s, Commit(w)) && Accounted(s, r)
    ensures LocksHold(Next(s, Commit(w))) && Accounted(Next(s, Commit(w)), r)
  {
    NextKeepsLocks(s, Commit(w));
    var d := s.drainers[w];
    assert Holding(s, d);
    CountUpdate(s.drainers, w, Idle, r);
    DrainedRows(s.events, d.batch, d.outcomes, Settle);
    if r in d.batch {
      var i :| 0 <= i < |d.batch| && d.batch[i] == r;
      ConfirmedMeaning(d.batch, d.outcomes, i);
      assert Next(s, Commit(w)).events[r] == Settle(s.events[r], d.outcomes[i]);
    } else {
      OnlyHeldConfirmed(d.batch, d.outcomes, r);
    }
  }

  lemma BeginAccounted(s: State, w: nat, batch: seq<nat>, r: nat)
    requires LocksHold(s) && Enabled(s, Begin(w, batch)) && Accounted(s, r)
    ensures LocksHold(Next(s, Begin(w, batch))) && Accounted(Next(s, Begin(w, batch)), r)
  {
    NextKeepsLocks(s, Begin(w, batch));
    CountUpdate(s.drainers, w, Draining(batch, []), r);
  }

  lemma PublishAccounted(s: State, w: nat, outcome: Publication, r: nat)
    requires LocksHold(s) && Enabled(s, Publish(w, outcome)) && Accounted(s, r)
    ensures LocksHold(Next(s, Publish(w, outcome))) && Accounted(Next(s, Publish(w, outcome)), r)
  {
    hide Held, Claimable, Confirmed, DoneOnce, Drained, CountInFlight;
    NextKeepsLocks(s, Publish(w, outcome));
    var d := s.drainers[w];
    CountUpdate(s.drainers, w, d.(outcomes := d.outcomes + [outcome]), r);
    ConfirmedAppend(d.batch, d.outcomes, outcome, r);
  }

  lemma ConfirmedAppend(batch: seq<nat>, outcomes: seq<Publication>, outcome: Publication, r: nat)
    requires |outcomes| < |batch|
    ensures Confirmed(batch, outcomes + [outcome])[r]
            == Confirmed(batch, outcomes)[r] + (if outcome.Published? && batch[|outcomes|] == r then 1 else 0)
  {
    assert (outcomes + [outcome])[..|outcomes|] == outcomes;
  }

  lemma AbortAccounted(s: State, w: nat, r: nat)
    requires LocksHold(s) && Enabled(s, Abort(w)) && Accounted(s, r)
    ensures LocksHold(Next(s, Abort(w))) && Accounted(Next(s, Abort(w)), r)
  {
    NextKeepsLocks(s, Abort(w));
    CountUpdate(s.drainers, w, Idle, r);
  }

  lemma NextAccounted(s: State, a: Action, r: nat)
    requires LocksHold(s) && Enabled(s, a) && Accounted(s, r)
    ensures LocksHold(Next(s, a)) && Accounted(Next(s, a), r)
  {
    hide LocksHold, Accounted, Enabled, Next;
    match a
    case Insert(row) => InsertAccounted(s, row, r);
    case Commit(w) => CommitAccounted(s, w, r);
    case Begin(w, batch) => BeginAccounted(s, w, batch, r);
    case Publish(w, outcome) => PublishAccounted(s, w, outcome, r);
    case Abort(w) => AbortAccounted(s, w, r);
  }

  lemma {:induction false} RunAccounted(s: State, actions: seq<Action>, r: nat)
    requires LocksHold(s) && Accounted(s, r) && ValidRun(s, actions)
    ensures LocksHold(End(s, actions)) && Accounted(End(s, actions), r)
    decreases |actions|
  {
    hide LocksHold, Accounted, Enabled, Next;
    if actions != [] {
      NextAccounted(s, actions[0], r);
      RunAccounted(Next(s, actions[0]), actions[1..], r);
    }
  }

  /**
   Under any interleaving of any number of drains: no two drains hold the same row, and the row's
   event is in the stream once if the row is done, plus once for each abort after publishing it,
   each publication that appended and then raised, and each confirmed publication still in flight.
   */
  lemma PublicationAccounting(n: nat, actions: seq<Action>, r: nat)
    requires ValidRun(Start(n), actions)
    ensures LocksHold(End(Start(n), actions)) && Accounted(End(Start(n), actions), r)
  {
    NotHeldNotCounted(Start(n).drainers, r);
    RunAccounted(Start(n), actions, r);
  }

  /** A row whose commit says done is in the stream, and exactly once if nothing aborted or failed ambiguously on it. */
  lemma DoneMeansPublished(n: nat, actions: seq<Action>, r: nat)
    requires ValidRun(Start(n), actions) && r < |End(Start(n), actions).events|
    requires End(Start(n), actions).events[r].state.Done?
    ensures var s := End(Start(n), actions);
            && r in s.stream
            && (multiset(s.stream)[r] == 1 <==> r !in s.aborted && r !in s.ambiguous)
  {
    PublicationAccounting(n, actions, r);
    var s := End(Start(n), actions);
    forall w | 0 <= w < |s.drainers|
      ensures WellFormed(s.drainers[w]) && r !in Held(s.drainers[w])
    {
      assert Holding(s, s.drainers[w]);
    }
    NotHeldNotCounted(s.drainers, r);
    assert multiset(s.stream)[r] > 0;
  }

  // ---------------------------------------------------------------- one drain, uninterrupted

  function Publishes(w: nat, outcomes: seq<Publication>): seq<Action> {
    if outcomes == [] then [Commit(w)] else [Publish(w, outcomes[0])] + Publishes(w, outcomes[1..])
  }

  lemma {:induction false} SoloFrom(s: State, w: nat, batch: seq<nat>, outcomes: seq<Publication>, k: nat,
                                    log: seq<nat>)
    requires k <= |outcomes| == |batch| && w < |s.drainers|
    requires forall i :: 0 <= i < |batch| ==> batch[i] < |s.events|
    requires s.drainers[w] == Draining(batch, outcomes[..k]) && s.stream == log + Appended(batch[..k], outcomes[..k])
    ensures ValidRun(s, Publishes(w, outcomes[k..]))
    ensures var s' := End(s, Publishes(w, outcomes[k..]));
            && s'.events == Drained(s.events, batch, outcomes, Settle)
            && s'.stream == log + Appended(batch, outcomes)
            && s'.drainers == s.drainers[w := Idle]
    decreases |outcomes| - k
  {
    hide Drained, Appended;
    var actions := Publishes(w, outcomes[k..]);
    if k == |outcomes| {
      assert outcomes[..k] == outcomes && batch[..k] == batch;
      assert actions == [Commit(w)] && actions[1..] == [];
    } else {
      var next := Next(s, Publish(w, outcomes[k]));
      assert outcomes[..k + 1] == outcomes[..k] + [outcomes[k]] && outcomes[k..][1..] == outcomes[k + 1..];
      AppendOneMore(batch, outcomes, k);
      SoloFrom(next, w, batch, outcomes, k + 1, log);
      assert actions[1..] == Publishes(w, outcomes[k + 1..]);
    }
  }

  /** A drain that nobody interrupts is the atomic drain of EventDrain: same table, same stream. */
  lemma SoloDrainIsAtomic(s: State, w: nat, batch: seq<nat>, outcomes: seq<Publication>)
    requires |outcomes| == |batch| && Enabled(s, Begin(w, batch))
    ensures var actions := [Begin(w, batch)] + Publishes(w, outcomes);
            && ValidRun(s, actions)
            && End(s, actions).events == Drained(s.events, batch, outcomes, Settle)
            && End(s, actions).stream == s.stream + Appended(batch, outcomes)
            && End(s, actions).drainers == s.drainers
  {
    hide Drained;
    var begun := Next(s, Begin(w, batch));
    var actions := [Begin(w, batch)] + Publishes(w, outcomes);
    assert outcomes[..0] == [] && batch[..0] == [] && outcomes[0..] == outcomes;
    SoloFrom(begun, w, batch, outcomes, 0, s.stream);
    assert actions[1..] == Publishes(w, outcomes);
    assert begun.drainers[w := Idle] == s.drainers;
  }
}
