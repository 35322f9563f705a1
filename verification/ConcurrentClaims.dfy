/**
 Any number of concurrent POST /outbound requests with one actor and one idempotency key, as
 interleaved statements of their transactions. Reads see committed rows and the transaction's own
 changes; an insert waits for the outcome of every other transaction that has inserted or deleted
 the key row; a delete waits for the holder of the row.
 */
module ConcurrentClaims {
  import opened Common
  import opened Store

  /** One version of the key row; a new insert is a new row. */
  datatype Row = Row(id: nat, fingerprint: Fingerprint, message: Option<nat>, expiresAt: Instant)

  datatype Outcome = Accepted(message: nat) | Replayed(original: Option<nat>) | Mismatched | RateLimited | Errored

  /** `again` marks the second claim, after an expired row was deleted. */
  datatype Phase =
    | Selecting(again: bool)
    | Inserting(again: bool)
    | Reselecting(again: bool)
    | Examining(existing: Row)
    | Deleting(expired: Row)
    | Working
    | Persisted(message: nat)
    | Ended(outcome: Outcome)

  /** A request: its body, the external id its message would get, and its uncommitted changes. */
  datatype Tx = Tx(fingerprint: Fingerprint, external: string, phase: Phase, mine: Option<Row>, deleted: Option<nat>)

  datatype State = State(row: Option<Row>, txs: seq<Tx>, saved: set<string>, nextRow: nat, nextMessage: nat,
    clock: Instant)

  datatype Action =
    | Select(i: nat)
    | Insert(i: nat, now: Instant)
    | Reselect(i: nat)
    | Examine(i: nat, now: Instant)
    | Delete(i: nat)
    | Persist(i: nat)
    | RateLimit(i: nat)
    | Fail(i: nat)
    | Commit(i: nat)
    | Reap(now: Instant)
    | Foreign(external: string)

  // ---------------------------------------------------------------- steps

  /** The committed row, unless the transaction itself has deleted it. */
  function Visible(s: State, t: Tx): Option<Row> {
    if s.row.Some? && t.deleted != Some(s.row.value.id) then s.row else None
  }

  /** No other transaction has an undecided insert or delete of the key row. */
  predicate IndexFree(s: State, i: nat) {
    forall j :: 0 <= j < |s.txs| && j != i ==> s.txs[j].mine.None? && s.txs[j].deleted.None?
  }

  predicate RowFree(s: State, i: nat) {
    forall j :: 0 <= j < |s.txs| && j != i ==> s.txs[j].deleted.None?
  }

  /** No other transaction has an undecided insert of this external message id. */
  predicate ExternalFree(s: State, i: nat, external: string) {
    forall j :: 0 <= j < |s.txs| && j != i && s.txs[j].phase.Persisted? ==> s.txs[j].external != external
  }

  predicate Enabled(s: State, a: Action) {
    match a
    case Select(i) => i < |s.txs| && s.txs[i].phase.Selecting?
    case Insert(i, now) => i < |s.txs| && s.txs[i].phase.Inserting? && s.clock <= now && IndexFree(s, i)
    case Reselect(i) => i < |s.txs| && s.txs[i].phase.Reselecting?
    case Examine(i, now) => i < |s.txs| && s.txs[i].phase.Examining? && s.clock <= now
    case Delete(i) => i < |s.txs| && s.txs[i].phase.Deleting? && RowFree(s, i)
    case Persist(i) => i < |s.txs| && s.txs[i].phase.Working? && ExternalFree(s, i, s.txs[i].external)
    case RateLimit(i) => i < |s.txs| && s.txs[i].phase.Working?
    case Fail(i) => i < |s.txs| && !s.txs[i].phase.Ended?
    case Commit(i) => i < |s.txs| && s.txs[i].phase.Persisted?
    case Reap(now) => s.clock <= now && RowFree(s, |s.txs|)
    case Foreign(external) => ExternalFree(s, |s.txs|, external)
  }

  function Set(s: State, i: nat, t: Tx): State
    requires i < |s.txs|
  {
    s.(txs := s.txs[i := t])
  }

  function RolledBack(t: Tx, phase: Phase): Tx {
    t.(phase := phase, mine := None, deleted := None)
  }

  /** The key row once the transaction's delete, if any, is committed. */
  function AfterDelete(s: State, t: Tx): Option<Row> {
    if t.deleted.Some? then None else s.row
  }

  function Next(s: State, a: Action): State
    requires Enabled(s, a)
  {
    match a
    case Select(i) =>
      var t := s.txs[i];
      var found := Visible(s, t);
      Set(s, i, t.(phase := if found.None? then Inserting(t.phase.again)
                            else if t.phase.again then Working else Examining(found.value)))
    case Insert(i, now) =>
      var t := s.txs[i];
      if Visible(s, t).Some? then Set(s, i, RolledBack(t, Reselecting(t.phase.again))).(clock := now)
      else Set(s, i, t.(phase := Working, mine := Some(Row(s.nextRow, t.fingerprint, None, now + DAY))))
           .(nextRow := s.nextRow + 1, clock := now)
    case Reselect(i) =>
      var t := s.txs[i];
      var found := Visible(s, t);
      Set(s, i, t.(phase := if t.phase.again || found.None? then Working else Examining(found.value)))
    case Examine(i, now) =>
      var t := s.txs[i];
      var row := t.phase.existing;
      Set(s, i, t.(phase := if row.expiresAt <= now then Deleting(row)
                            else if row.fingerprint != t.fingerprint then Ended(Mismatched)
                            else Ended(Replayed(row.message)))).(clock := now)
    case Delete(i) =>
      var t := s.txs[i];
      var there := s.row.Some? && s.row.value.id == t.phase.expired.id;
      Set(s, i, t.(phase := Selecting(true), deleted := if there then Some(t.phase.expired.id) else None))
    case Persist(i) =>
      var t := s.txs[i];
      if t.external in s.saved then Set(s, i, RolledBack(t, Ended(Errored)))
      else
        var named := if t.mine.Some? then Some(t.mine.value.(message := Some(s.nextMessage))) else None;
        Set(s, i, t.(phase := Persisted(s.nextMessage), mine := named)).(nextMessage := s.nextMessage + 1)
    case RateLimit(i) =>
      Set(s, i, RolledBack(s.txs[i], Ended(RateLimited))).(row := AfterDelete(s, s.txs[i]))
    case Fail(i) => Set(s, i, RolledBack(s.txs[i], Ended(Errored)))
    case Commit(i) =>
      var t := s.txs[i];
      Set(s, i, RolledBack(t, Ended(Accepted(t.phase.message))))
      .(row := if t.mine.Some? then t.mine else AfterDelete(s, t), saved := s.saved + {t.external})
    case Reap(now) => s.(row := if s.row.Some? && s.row.value.expiresAt <= now then None else s.row, clock := now)
    case Foreign(external) => s.(saved := s.saved + {external})
  }

  predicate ValidRun(s: State, actions: seq<Action>)
    decreases |actions|
  {
    actions != [] ==> Enabled(s, actions[0]) && ValidRun(Next(s, actions[0]), actions[1..])
  }

  function End(s: State, actions: seq<Action>): State
    requires ValidRun(s, actions)
    decreases |actions|
  {
    if actions == [] then s else End(Next(s, actions[0]), actions[1..])
  }

  /** Requests that have arrived and done nothing yet; a committed row names a message. */
  predicate Arrived(s: State) {
    && (forall i :: 0 <= i < |s.txs| ==>
          s.txs[i].phase == Selecting(false) && s.txs[i].mine.None? && s.txs[i].deleted.None?)
    && (s.row.Some? ==> s.row.value.message.Some? && s.row.value.id < s.nextRow)
  }

  predicate IsAccepted(t: Tx) {
    t.phase.Ended? && t.phase.outcome.Accepted?
  }

  predicate AtMostOneAccepted(s: State) {
    forall i, j :: 0 <= i < j < |s.txs| ==> !(IsAccepted(s.txs[i]) && IsAccepted(s.txs[j]))
  }

  // ---------------------------------------------------------------- while no row expires

  /** A row for the key can expire by the horizon: the one that stands, or else the first that is inserted. */
  predicate CanExpire(s: State, horizon: Instant) {
    if s.row.Some? then s.row.value.expiresAt <= horizon else s.clock + DAY <= horizon
  }

  /** What a request can be up to as long as no row for the key expires by `horizon`. */
  predicate Sound(s: State, t: Tx, horizon: Instant) {
    && t.deleted.None?
    && (t.mine.Some? <==> t.phase.Working? || t.phase.Persisted?)
    && (t.mine.Some? ==> s.row.None? && t.mine.value.fingerprint == t.fingerprint && t.mine.value.expiresAt > horizon)
    && (match t.phase
        case Selecting(again) => !again
        case Inserting(again) => !again
        case Reselecting(again) => !again && s.row.Some?
        case Examining(existing) => s.row == Some(existing)
        case Deleting(_) => false
        case Working => true
        case Persisted(message) => t.mine.value.message == Some(message)
        case Ended(Accepted(message)) =>
          s.row.Some? && s.row.value.message == Some(message) && s.row.value.fingerprint == t.fingerprint
        case Ended(Replayed(original)) =>
          s.row.Some? && s.row.value.message == original && s.row.value.fingerprint == t.fingerprint
        case Ended(Mismatched) => s.row.Some? && s.row.value.fingerprint != t.fingerprint
        case Ended(RateLimited) => true
        case Ended(Errored) => true)
  }

  predicate OneOwner(txs: seq<Tx>) {
    forall i, j :: 0 <= i < j < |txs| ==> !(txs[i].mine.Some? && txs[j].mine.Some?)
  }

  predicate Quiet(s: State, horizon: Instant) {
    && (s.row.None? ==> horizon < s.clock + DAY)
    && (s.row.Some? ==> s.row.value.message.Some? && s.row.value.expiresAt > horizon)
    && (forall i :: 0 <= i < |s.txs| ==> Sound(s, s.txs[i], horizon))
    && OneOwner(s.txs)
    && AtMostOneAccepted(s)
  }

  /** The row present at the start stays, and then nobody is accepted. */
  predicate Kept(first: Option<Row>, s: State) {
    first.Some? ==> s.row == first && forall i :: 0 <= i < |s.txs| ==> !IsAccepted(s.txs[i])
  }

  lemma CommitStaysQuiet(s: State, i: nat, horizon: Instant)
    requires Quiet(s, horizon) && Enabled(s, Commit(i))
    ensures Quiet(Next(s, Commit(i)), horizon)
  {
    var s' := Next(s, Commit(i));
    assert Sound(s, s.txs[i], horizon);
    forall j | 0 <= j < |s'.txs|
      ensures Sound(s', s'.txs[j], horizon)
      ensures j != i ==> !IsAccepted(s'.txs[j])
    {
      assert Sound(s, s.txs[j], horizon);
    }
  }

  lemma InsertStaysQuiet(s: State, i: nat, now: Instant, horizon: Instant)
    requires Quiet(s, horizon) && Enabled(s, Insert(i, now)) && now <= horizon
    ensures Quiet(Next(s, Insert(i, now)), horizon)
  {
    var s' := Next(s, Insert(i, now));
    assert Sound(s, s.txs[i], horizon);
    forall j | 0 <= j < |s'.txs|
      ensures Sound(s', s'.txs[j], horizon)
    {
      assert Sound(s, s.txs[j], horizon);
    }
  }

  predicate Within(a: Action, horizon: Instant) {
    (a.Insert? || a.Examine? || a.Reap?) ==> a.now <= horizon
  }

  /** A step of one transaction that leaves the committed row alone and takes no new hold of it. */
  lemma OwnStepStaysQuiet(s: State, i: nat, t: Tx, s': State, horizon: Instant)
    requires Quiet(s, horizon) && i < |s.txs|
    requires s'.txs == s.txs[i := t] && s'.row == s.row && s.clock <= s'.clock
    requires Sound(s, t, horizon) && !IsAccepted(t) && (t.mine.Some? ==> s.txs[i].mine.Some?)
    ensures Quiet(s', horizon)
  {
    forall j | 0 <= j < |s'.txs|
      ensures Sound(s', s'.txs[j], horizon)
    {
      assert Sound(s, s.txs[j], horizon);
    }
  }

  lemma SharedStepStaysQuiet(s: State, a: Action, horizon: Instant)
    requires Quiet(s, horizon) && Enabled(s, a) && Within(a, horizon) && (a.Reap? || a.Foreign?)
    ensures Quiet(Next(s, a), horizon)
  {
    forall j | 0 <= j < |s.txs|
      ensures Sound(Next(s, a), s.txs[j], horizon)
    {
      assert Sound(s, s.txs[j], horizon);
    }
  }

  lemma NextStaysQuiet(s: State, a: Action, horizon: Instant)
    requires Quiet(s, horizon) && Enabled(s, a) && Within(a, horizon)
    ensures Quiet(Next(s, a), horizon)
  {
    if a.Commit? {
      CommitStaysQuiet(s, a.i, horizon);
    } else if a.Insert? {
      InsertStaysQuiet(s, a.i, a.now, horizon);
    } else if a.Reap? || a.Foreign? {
      SharedStepStaysQuiet(s, a, horizon);
    } else {
      assert Sound(s, s.txs[a.i], horizon);
      assert s.row.Some? ==> s.row.value.message.Some? && s.row.value.expiresAt > horizon;
      hide Quiet, IndexFree, RowFree, ExternalFree;
      OwnStepStaysQuiet(s, a.i, Next(s, a).txs[a.i], Next(s, a), horizon);
    }
  }

  lemma NextKeepsRow(s: State, a: Action, horizon: Instant, first: Option<Row>)
    requires Quiet(s, horizon) && Enabled(s, a) && Within(a, horizon) && Kept(first, s)
    ensures Kept(first, Next(s, a))
  {
    if first.Some? && !a.Reap? && !a.Foreign? {
      assert Sound(s, s.txs[a.i], horizon);
    }
  }

  predicate AllWithin(actions: seq<Action>, horizon: Instant) {
    forall k :: 0 <= k < |actions| ==> Within(actions[k], horizon)
  }

  lemma {:induction false} RunStaysQuiet(s: State, actions: seq<Action>, horizon: Instant, first: Option<Row>)
    requires Quiet(s, horizon) && ValidRun(s, actions) && AllWithin(actions, horizon) && Kept(first, s)
    ensures Quiet(End(s, actions), horizon) && Kept(first, End(s, actions))
    decreases |actions|
  {
    hide Quiet, Enabled, Next, Kept, Within;
    if actions != [] {
      assert Within(actions[0], horizon);
      NextStaysQuiet(s, actions[0], horizon);
      NextKeepsRow(s, actions[0], horizon, first);
      assert forall k :: 0 <= k < |actions| - 1 ==> actions[1..][k] == actions[k + 1];
      RunStaysQuiet(Next(s, actions[0]), actions[1..], horizon, first);
    }
  }

  /** What the end of a request says, given the message that the key stands for. */
  predicate Consistent(t: Tx, row: Option<Row>) {
    t.phase.Ended? ==>
      match t.phase.outcome
      case Accepted(message) =>
        row.Some? && row.value.message == Some(message) && row.value.fingerprint == t.fingerprint
      case Replayed(original) =>
        row.Some? && original.Some? && row.value.message == original && row.value.fingerprint == t.fingerprint
      case Mismatched => row.Some? && row.value.fingerprint != t.fingerprint
      case RateLimited => true
      case Errored => true
  }

  /**
   Concurrent idempotency: as long as no row for the key expires, under any interleaving of any
   number of requests at most one is accepted, none if the key was already taken; every replay
   returns the accepted message to the same body, every 422 goes to a different body, and the
   other requests are refused or fail.
   */
  lemma ConcurrentIdempotency(s: State, actions: seq<Action>, horizon: Instant)
    requires Arrived(s) && ValidRun(s, actions) && AllWithin(actions, horizon) && !CanExpire(s, horizon)
    ensures var s' := End(s, actions);
            && AtMostOneAccepted(s')
            && (s.row.Some? ==> s'.row == s.row && forall i :: 0 <= i < |s'.txs| ==> !IsAccepted(s'.txs[i]))
            && (forall i :: 0 <= i < |s'.txs| ==> Consistent(s'.txs[i], s'.row))
  {
    RunStaysQuiet(s, actions, horizon, s.row);
    var s' := End(s, actions);
    assert forall i :: 0 <= i < |s'.txs| ==> Sound(s', s'.txs[i], horizon);
  }

  // ---------------------------------------------------------------- external ids, always

  /** The unique index on external message ids, which does not depend on keys at all. */
  predicate ExternalsUnique(s: State) {
    && (forall i :: 0 <= i < |s.txs| && s.txs[i].phase.Persisted? ==> s.txs[i].external !in s.saved)
    && (forall i :: 0 <= i < |s.txs| && IsAccepted(s.txs[i]) ==> s.txs[i].external in s.saved)
    && (forall i, j :: 0 <= i < j < |s.txs| && s.txs[i].phase.Persisted? && s.txs[j].phase.Persisted? ==>
          s.txs[i].external != s.txs[j].external)
    && (forall i, j :: 0 <= i < j < |s.txs| && IsAccepted(s.txs[i]) && IsAccepted(s.txs[j]) ==>
          s.txs[i].external != s.txs[j].external)
  }

  /** Any step but a persist, a commit and a foreign commit leaves at most fewer messages undecided. */
  lemma QuietStepKeepsExternals(s: State, i: nat, t: Tx, s': State)
    requires ExternalsUnique(s) && i < |s.txs| && s'.txs == s.txs[i := t] && s'.saved == s.saved
    requires !t.phase.Persisted? && !IsAccepted(t)
    ensures ExternalsUnique(s')
  {
  }

  lemma PersistKeepsExternals(s: State, i: nat)
    requires ExternalsUnique(s) && Enabled(s, Persist(i))
    ensures ExternalsUnique(Next(s, Persist(i)))
  {
  }

  lemma CommitKeepsExternals(s: State, i: nat)
    requires ExternalsUnique(s) && Enabled(s, Commit(i))
    ensures ExternalsUnique(Next(s, Commit(i)))
  {
  }

  lemma NextKeepsExternals(s: State, a: Action)
    requires ExternalsUnique(s) && Enabled(s, a)
    ensures ExternalsUnique(Next(s, a))
  {
    if a.Persist? {
      PersistKeepsExternals(s, a.i);
    } else if a.Commit? {
      CommitKeepsExternals(s, a.i);
    } else if !a.Reap? && !a.Foreign? {
      hide ExternalsUnique, ExternalFree, IndexFree, RowFree;
      QuietStepKeepsExternals(s, a.i, Next(s, a).txs[a.i], Next(s, a));
    }
  }

  lemma {:induction false} RunKeepsExternals(s: State, actions: seq<Action>)
    requires ExternalsUnique(s) && ValidRun(s, actions)
    ensures ExternalsUnique(End(s, actions))
    decreases |actions|
  {
    hide ExternalsUnique, Enabled, Next;
    if actions != [] {
      NextKeepsExternals(s, actions[0]);
      RunKeepsExternals(Next(s, actions[0]), actions[1..]);
    }
  }

  /**
   With or without expiry, two accepted requests never carry the same external id: what the key
   fails to stop for an expired row, the message index still stops for a repeated body.
   */
  lemma AcceptedExternalsDiffer(s: State, actions: seq<Action>, i: nat, j: nat)
    requires Arrived(s) && ValidRun(s, actions) && i < j < |End(s, actions).txs|
    requires IsAccepted(End(s, actions).txs[i]) && IsAccepted(End(s, actions).txs[j])
    ensures End(s, actions).txs[i].external != End(s, actions).txs[j].external
  {
    RunKeepsExternals(s, actions);
  }

  // ---------------------------------------------------------------- only new messages are accepted

  /** What is persisted or accepted was not known at the start, and requests keep their external ids. */
  predicate NewSince(first: State, s: State) {
    && first.saved <= s.saved && |s.txs| == |first.txs|
    && (forall i :: 0 <= i < |s.txs| ==> s.txs[i].external == first.txs[i].external)
    && (forall i :: 0 <= i < |s.txs| && (s.txs[i].phase.Persisted? || IsAccepted(s.txs[i])) ==>
          s.txs[i].external !in first.saved)
  }

  lemma NextIsNew(first: State, s: State, a: Action)
    requires NewSince(first, s) && Enabled(s, a)
    ensures NewSince(first, Next(s, a))
  {
    hide IndexFree, RowFree, ExternalFree;
  }

  lemma {:induction false} RunIsNew(first: State, s: State, actions: seq<Action>)
    requires NewSince(first, s) && ValidRun(s, actions)
    ensures NewSince(first, End(s, actions))
    decreases |actions|
  {
    hide NewSince, Enabled, Next;
    if actions != [] {
      NextIsNew(first, s, actions[0]);
      RunIsNew(first, Next(s, actions[0]), actions[1..]);
    }
  }

  /** Two requests for different messages, neither of them known. */
  predicate FreshPair(s: State, p: nat, q: nat) {
    && p < |s.txs| && q < |s.txs| && s.txs[p].external != s.txs[q].external
    && s.txs[p].external !in s.saved && s.txs[q].external !in s.saved
  }

  ghost predicate TwoFresh(s: State) {
    exists p, q :: FreshPair(s, p, q)
  }

  /** Requests that do not bring two new messages cannot both be accepted, whatever expires. */
  lemma FewMessagesFewAccepted(s: State, actions: seq<Action>)
    requires Arrived(s) && ValidRun(s, actions) && !TwoFresh(s)
    ensures AtMostOneAccepted(End(s, actions))
  {
    RunIsNew(s, s, actions);
    var s' := End(s, actions);
    forall i, j | 0 <= i < j < |s'.txs|
      ensures !(IsAccepted(s'.txs[i]) && IsAccepted(s'.txs[j]))
    {
      if IsAccepted(s'.txs[i]) && IsAccepted(s'.txs[j]) {
        AcceptedExternalsDiffer(s, actions, i, j);
        assert FreshPair(s, i, j);
      }
    }
  }

  // ---------------------------------------------------------------- before anybody can read the clock

  /** A request that has neither inserted nor examined a row. */
  predicate Waits(t: Tx) {
    && t.mine.None? && t.deleted.None?
    && (t.phase == Selecting(false) || t.phase == Inserting(false) || t.phase.Examining? || t.phase == Ended(Errored))
  }

  predicate AllWait(s: State, horizon: Instant) {
    horizon < s.clock && forall i :: 0 <= i < |s.txs| ==> Waits(s.txs[i])
  }

  lemma {:induction false} TooEarly(s: State, actions: seq<Action>, horizon: Instant)
    requires AllWait(s, horizon) && ValidRun(s, actions) && AllWithin(actions, horizon)
    ensures AtMostOneAccepted(End(s, actions))
    decreases |actions|
  {
    hide IndexFree, RowFree, ExternalFree;
    if actions != [] {
      assert Within(actions[0], horizon);
      assert forall k :: 0 <= k < |actions| - 1 ==> actions[1..][k] == actions[k + 1];
      TooEarly(Next(s, actions[0]), actions[1..], horizon);
    }
  }

  // ---------------------------------------------------------------- when the key does not protect

  lemma {:induction false} Extend(s: State, actions: seq<Action>, a: Action)
    requires ValidRun(s, actions) && Enabled(End(s, actions), a)
    ensures ValidRun(s, actions + [a]) && End(s, actions + [a]) == Next(End(s, actions), a)
    decreases |actions|
  {
    hide Enabled, Next;
    if actions == [] {
      assert [a][1..] == [];
    } else {
      Extend(Next(s, actions[0]), actions[1..], a);
      assert (actions + [a])[1..] == actions[1..] + [a];
    }
  }

  lemma {:induction false} Concatenate(s: State, first: seq<Action>, second: seq<Action>)
    requires ValidRun(s, first) && ValidRun(End(s, first), second)
    ensures ValidRun(s, first + second) && End(s, first + second) == End(End(s, first), second)
    decreases |first|
  {
    hide Enabled, Next;
    if first == [] {
      assert first + second == second;
    } else {
      Concatenate(Next(s, first[0]), first[1..], second);
      assert (first + second)[1..] == first[1..] + second;
    }
  }

  lemma NoSteps(s: State)
    ensures ValidRun(s, []) && End(s, []) == s
  {
  }

  /** A request that reads the expired row and has yet to delete it. */
  lemma SeesExpired(s: State, i: nat, now: Instant) returns (actions: seq<Action>)
    requires i < |s.txs| && s.txs[i].phase == Selecting(false) && s.txs[i].deleted.None?
    requires s.clock <= now && s.row.Some? && s.row.value.expiresAt <= now
    ensures actions == [Select(i), Examine(i, now)]
    ensures ValidRun(s, actions) && AllWithin(actions, now)
    ensures End(s, actions) == s.(txs := s.txs[i := s.txs[i].(phase := Deleting(s.row.value))], clock := now)
  {
    var t := s.txs[i];
    actions := [Select(i), Examine(i, now)];
    NoSteps(s);
    hide ValidRun, End;
    var s1 := Next(s, Select(i));
    assert s1.txs[i] == t.(phase := Examining(s.row.value));
    Extend(s, [], Select(i));
    assert [] + [Select(i)] == [Select(i)];
    Extend(s, [Select(i)], Examine(i, now));
    assert [Select(i)] + [Examine(i, now)] == actions;
  }

  /** A request that deletes the expired row and inserts a new one. */
  lemma ClaimsAnew(s: State, i: nat, now: Instant) returns (actions: seq<Action>)
    requires i < |s.txs| && s.row.Some? && s.txs[i].phase == Deleting(s.row.value) && s.clock <= now
    requires forall j :: 0 <= j < |s.txs| ==> s.txs[j].mine.None? && s.txs[j].deleted.None?
    ensures actions == [Delete(i), Select(i), Insert(i, now)]
    ensures ValidRun(s, actions) && AllWithin(actions, now)
    ensures var t, row := s.txs[i], Row(s.nextRow, s.txs[i].fingerprint, None, now + DAY);
            End(s, actions)
            == s.(txs := s.txs[i := t.(phase := Working, mine := Some(row), deleted := Some(s.row.value.id))],
                  nextRow := s.nextRow + 1, clock := now)
  {
    var t := s.txs[i];
    actions := [];
    NoSteps(s);
    hide ValidRun, End;
    Extend(s, actions, Delete(i));
    actions := actions + [Delete(i)];
    assert End(s, actions).txs == s.txs[i := t.(phase := Selecting(true), deleted := Some(s.row.value.id))];
    Extend(s, actions, Select(i));
    actions := actions + [Select(i)];
    assert End(s, actions).txs == s.txs[i := t.(phase := Inserting(true), deleted := Some(s.row.value.id))];
    Extend(s, actions, Insert(i, now));
    actions := actions + [Insert(i, now)];
  }

  /** A request that persists and commits. */
  lemma Completes(s: State, i: nat) returns (actions: seq<Action>)
    requires i < |s.txs| && s.txs[i].phase.Working? && s.txs[i].external !in s.saved
    requires ExternalFree(s, i, s.txs[i].external)
    ensures actions == [Persist(i), Commit(i)]
    ensures ValidRun(s, actions) && AllWithin(actions, s.clock)
    ensures var t, s' := s.txs[i], End(s, actions);
            && s'.txs == s.txs[i := t.(phase := Ended(Accepted(s.nextMessage)), mine := None, deleted := None)]
            && s'.row == (if t.mine.Some? then Some(t.mine.value.(message := Some(s.nextMessage)))
              else AfterDelete(s, t))
            && s'.saved == s.saved + {t.external} && s'.clock == s.clock
  {
    actions := [];
    NoSteps(s);
    hide ValidRun, End;
    Extend(s, actions, Persist(i));
    actions := actions + [Persist(i)];
    Extend(s, actions, Commit(i));
    actions := actions + [Commit(i)];
  }

  /** A request that deletes the expired row, claims the key anew and is accepted. */
  lemma ReplacesExpired(s: State, i: nat) returns (actions: seq<Action>)
    requires i < |s.txs| && s.row.Some? && s.txs[i].phase == Deleting(s.row.value)
    requires s.txs[i].external !in s.saved && ExternalFree(s, i, s.txs[i].external)
    requires forall j :: 0 <= j < |s.txs| ==> s.txs[j].mine.None? && s.txs[j].deleted.None?
    ensures ValidRun(s, actions) && AllWithin(actions, s.clock)
    ensures var t, s' := s.txs[i], End(s, actions);
            && s'.txs == s.txs[i := t.(phase := Ended(Accepted(s.nextMessage)))]
            && s'.row == Some(Row(s.nextRow, t.fingerprint, Some(s.nextMessage), s.clock + DAY))
            && s'.saved == s.saved + {t.external} && s'.clock == s.clock
  {
    var first := ClaimsAnew(s, i, s.clock);
    var second := Completes(End(s, first), i);
    Concatenate(s, first, second);
    actions := first + second;
  }

  /** A request whose delete finds the row gone and whose second claim finds another row: it goes on without a key. */
  lemma SlipsThrough(s: State, i: nat) returns (actions: seq<Action>)
    requires i < |s.txs| && s.row.Some? && s.txs[i].phase.Deleting? && s.txs[i].phase.expired.id != s.row.value.id
    requires s.txs[i].external !in s.saved && ExternalFree(s, i, s.txs[i].external)
    requires forall j :: 0 <= j < |s.txs| ==> s.txs[j].mine.None? && s.txs[j].deleted.None?
    ensures ValidRun(s, actions) && AllWithin(actions, s.clock)
    ensures End(s, actions).txs == s.txs[i := s.txs[i].(phase := Ended(Accepted(s.nextMessage)))]
  {
    var t := s.txs[i];
    var first := [Delete(i), Select(i)];
    NoSteps(s);
    assert [Delete(i)] == [] + [Delete(i)] && first == [Delete(i)] + [Select(i)];
    Extend(s, [], Delete(i));
    assert End(s, [Delete(i)]).txs == s.txs[i := t.(phase := Selecting(true))];
    Extend(s, [Delete(i)], Select(i));
    hide ValidRun, End;
    assert End(s, first).txs == s.txs[i := t.(phase := Working)];
    var second := Completes(End(s, first), i);
    Concatenate(s, first, second);
    actions := first + second;
  }

  /**
   A request whose second insert fails, because another has claimed the key in the meantime, rolls
   back, finds the other's row, does not look at it, and is accepted without a key.
   */
  lemma LosesSecondClaim(s: State, i: nat, now: Instant) returns (actions: seq<Action>)
    requires i < |s.txs| && s.txs[i].phase == Inserting(true) && Visible(s, s.txs[i]).Some?
    requires IndexFree(s, i) && s.clock <= now
    requires s.txs[i].external !in s.saved && ExternalFree(s, i, s.txs[i].external)
    ensures actions == [Insert(i, now), Reselect(i), Persist(i), Commit(i)]
    ensures ValidRun(s, actions) && AllWithin(actions, now)
    ensures var s' := End(s, actions);
            && s'.txs == s.txs[i := RolledBack(s.txs[i], Ended(Accepted(s.nextMessage)))]
            && s'.row == s.row
  {
    var first := [Insert(i, now), Reselect(i)];
    NoSteps(s);
    hide ValidRun, End;
    Extend(s, [], Insert(i, now));
    assert [] + [Insert(i, now)] == [Insert(i, now)];
    assert End(s, [Insert(i, now)]).txs == s.txs[i := RolledBack(s.txs[i], Reselecting(true))];
    Extend(s, [Insert(i, now)], Reselect(i));
    assert [Insert(i, now)] + [Reselect(i)] == first;
    assert End(s, first).txs == s.txs[i := RolledBack(s.txs[i], Working)];
    var second := Completes(End(s, first), i);
    Concatenate(s, first, second);
    actions := first + second;
  }

  /** The scenario: two requests read the expired row before either deletes it, and both are accepted. */
  lemma ExpiredKeyAdmitsTwo(s: State, p: nat, q: nat, horizon: Instant) returns (actions: seq<Action>)
    requires Arrived(s) && FreshPair(s, p, q) && s.clock <= horizon
    requires s.row.Some? && s.row.value.expiresAt <= horizon
    ensures ValidRun(s, actions) && AllWithin(actions, horizon)
    ensures !AtMostOneAccepted(End(s, actions))
  {
    hide ValidRun, End, Next, Enabled;
    var a := SeesExpired(s, p, horizon);
    var s1 := End(s, a);
    var b := SeesExpired(s1, q, horizon);
    var s2 := End(s1, b);
    var c := ReplacesExpired(s2, p);
    var s3 := End(s2, c);
    var d := SlipsThrough(s3, q);
    Concatenate(s2, c, d);
    Concatenate(s1, b, c + d);
    Concatenate(s, a, b + (c + d));
    actions := a + (b + (c + d));
    TwoAccepted(End(s, actions), p, q);
  }

  lemma TwoAccepted(s: State, p: nat, q: nat)
    requires p < |s.txs| && q < |s.txs| && p != q && IsAccepted(s.txs[p]) && IsAccepted(s.txs[q])
    ensures !AtMostOneAccepted(s)
  {
    assert IsAccepted(s.txs[if p < q then p else q]) && IsAccepted(s.txs[if p < q then q else p]);
  }

  /** A request that finds no row inserts one. */
  lemma ClaimsFirst(s: State, i: nat, now: Instant) returns (actions: seq<Action>)
    requires i < |s.txs| && s.txs[i].phase == Selecting(false) && s.row.None? && s.clock <= now
    requires forall j :: 0 <= j < |s.txs| ==> s.txs[j].mine.None? && s.txs[j].deleted.None?
    ensures actions == [Select(i), Insert(i, now)]
    ensures ValidRun(s, actions) && AllWithin(actions, now)
    ensures var t := s.txs[i];
            End(s, actions)
            == s.(txs := s.txs[i := t.(phase := Working, mine := Some(Row(s.nextRow, t.fingerprint, None, now + DAY)))],
                  nextRow := s.nextRow + 1, clock := now)
  {
    actions := [Select(i)];
    NoSteps(s);
    hide ValidRun, End;
    Extend(s, [], Select(i));
    assert [] + [Select(i)] == actions;
    assert End(s, actions).txs == s.txs[i := s.txs[i].(phase := Inserting(false))];
    Extend(s, actions, Insert(i, now));
    actions := actions + [Insert(i, now)];
  }

  /** Without a row, two requests a day apart are both accepted. */
  lemma NextDayAdmitsTwo(s: State, p: nat, q: nat, horizon: Instant) returns (actions: seq<Action>)
    requires Arrived(s) && FreshPair(s, p, q) && s.row.None? && s.clock + DAY <= horizon
    ensures ValidRun(s, actions) && AllWithin(actions, horizon)
    ensures !AtMostOneAccepted(End(s, actions))
  {
    hide ValidRun, End, Next, Enabled;
    var a := ClaimsFirst(s, p, s.clock);
    var s1 := End(s, a);
    var b := Completes(s1, p);
    var s2 := End(s1, b);
    var c := SeesExpired(s2, q, horizon);
    var s3 := End(s2, c);
    var d := ReplacesExpired(s3, q);
    Concatenate(s2, c, d);
    Concatenate(s1, b, c + d);
    Concatenate(s, a, b + (c + d));
    actions := a + (b + (c + d));
    TwoAccepted(End(s, actions), p, q);
  }

  /** Every run up to the horizon accepts at most one request. */
  ghost predicate IdempotentUntil(s: State, horizon: Instant) {
    forall actions: seq<Action> :: ValidRun(s, actions) && AllWithin(actions, horizon) ==>
        AtMostOneAccepted(End(s, actions))
  }

  /**
   The key protects precisely unless a row for it can expire by the horizon and two of the requests
   are for different new messages.
   */
  lemma IdempotentIffNoExpiry(s: State, horizon: Instant)
    requires Arrived(s)
    ensures IdempotentUntil(s, horizon) <==> !(s.clock <= horizon && CanExpire(s, horizon) && TwoFresh(s))
  {
    if s.clock <= horizon && CanExpire(s, horizon) && TwoFresh(s) {
      var p, q :| FreshPair(s, p, q);
      var actions;
      if s.row.Some? {
        actions := ExpiredKeyAdmitsTwo(s, p, q, horizon);
      } else {
        actions := NextDayAdmitsTwo(s, p, q, horizon);
      }
      assert !IdempotentUntil(s, horizon);
    } else {
      forall actions: seq<Action> | ValidRun(s, actions) && AllWithin(actions, horizon)
        ensures AtMostOneAccepted(End(s, actions))
      {
        if horizon < s.clock {
          TooEarly(s, actions, horizon);
        } else if !CanExpire(s, horizon) {
          ConcurrentIdempotency(s, actions, horizon);
        } else {
          FewMessagesFewAccepted(s, actions);
        }
      }
    }
  }
}
