/** Provider webhooks: deduplicate by (provider, provider message id), insert, announce. */
module Inbound {
  import opened Common
  import opened Conversation
  import opened Store
  import opened StoreEdits
  import opened Runtime

  datatype Parsed = Parsed(provider: Provider, providerMessageId: string, threadId: Option<string>, content: string)

  /** The clock reading and the audit answer that go with one list element, if it is inserted. */
  datatype Arrival = Arrival(parsed: Parsed, receivedAt: Instant, audited: bool)

  datatype Reply = Duplicate | Stored(count: nat) | ServerError

  // ---------------------------------------------------------------- the transaction

  predicate IsDuplicate(s: Store, p: Parsed) {
    FindMessage(s.messages, p.provider, p.providerMessageId).Some?
  }

  function InMessage(s: Store, a: Arrival, created: Instant): Message {
    Message(In, a.parsed.provider, a.parsed.providerMessageId, a.parsed.threadId,
            DeriveConversationId(a.parsed.provider, a.parsed.threadId, s.draws), a.parsed.content,
            None, None, created, Some(a.receivedAt), MessageStatus.Received, None, None)
  }

  function Insert(s: Store, a: Arrival, created: Instant): Store {
    if IsDuplicate(s, a.parsed) then s
    else AddMessage(s, InMessage(s, a, created), None, PendingEvent(|s.messages|, ReceivedEvent, created),
                    if a.parsed.threadId.None? then s.draws + 1 else s.draws)
  }

  /** The session after the first part of the list. */
  function InsertAll(s: Store, list: seq<Arrival>, created: Instant): Store {
    if list == [] then s
    else Insert(InsertAll(s, list[..|list| - 1], created), list[|list| - 1], created)
  }

  /** Every insertion the list causes is audited successfully. */
  predicate AllAudited(s: Store, list: seq<Arrival>, created: Instant) {
    list != [] ==>
      var before := InsertAll(s, list[..|list| - 1], created);
      && AllAudited(s, list[..|list| - 1], created)
      && (IsDuplicate(before, list[|list| - 1].parsed) || list[|list| - 1].audited)
  }

  /** One webhook as a transaction: a failing audit rolls the whole batch back. */
  function Receive(s: Store, list: seq<Arrival>, created: Instant): Store {
    if AllAudited(s, list, created) then InsertAll(s, list, created) else s
  }

  // ---------------------------------------------------------------- batches are set union

  function ExternalIds(ms: seq<Message>): set<(Provider, string)> {
    set i | 0 <= i < |ms| :: (ms[i].provider, ms[i].providerMessageId)
  }

  function ListIds(list: seq<Arrival>): set<(Provider, string)> {
    set i | 0 <= i < |list| :: (list[i].parsed.provider, list[i].parsed.providerMessageId)
  }

  lemma DuplicateMeansKnown(s: Store, p: Parsed)
    ensures IsDuplicate(s, p) <==> (p.provider, p.providerMessageId) in ExternalIds(s.messages)
  {
  }

  lemma IdsOfAppend(ms: seq<Message>, m: Message)
    ensures ExternalIds(ms + [m]) == ExternalIds(ms) + {(m.provider, m.providerMessageId)}
  {
    forall id
      ensures id in ExternalIds(ms + [m]) <==> id in ExternalIds(ms) + {(m.provider, m.providerMessageId)}
    {
      if id in ExternalIds(ms) {
        var i :| 0 <= i < |ms| && id == (ms[i].provider, ms[i].providerMessageId);
        assert (ms + [m])[i] == ms[i];
      }
      assert (ms + [m])[|ms|] == m;
    }
  }

  lemma ListIdsOfPrefix(list: seq<Arrival>)
    requires list != []
    ensures var last := list[|list| - 1].parsed;
            ListIds(list) == ListIds(list[..|list| - 1]) + {(last.provider, last.providerMessageId)}
  {
    var last := list[|list| - 1].parsed;
    forall id
      ensures id in ListIds(list) <==> id in ListIds(list[..|list| - 1]) + {(last.provider, last.providerMessageId)}
    {
    }
  }

  /** The rows a batch adds: one received message and its one announcement for each new id. */
  ghost predicate OnlyArrivalsAdded(s: Store, s': Store, created: Instant) {
    && |s.messages| <= |s'.messages| && s'.messages[..|s.messages|] == s.messages
    && |s'.events| == |s.events| + |s'.messages| - |s.messages| && s'.events[..|s.events|] == s.events
    && (forall i :: |s.messages| <= i < |s'.messages| ==>
          s'.messages[i].direction.In?
          && s'.events[|s.events| + i - |s.messages|] == EventRow(i, ReceivedEvent, created, Pending, None))
    && s'.keys == s.keys && s'.items == s.items
  }

  lemma InsertAdds(s: Store, now: Store, a: Arrival, created: Instant)
    requires OnlyArrivalsAdded(s, now, created)
    ensures OnlyArrivalsAdded(s, Insert(now, a, created), created)
  {
    var next := Insert(now, a, created);
    if next != now {
      assert next.messages[..|s.messages|] == now.messages[..|s.messages|];
      assert next.events[..|s.events|] == now.events[..|s.events|];
    }
  }

  /**
   Whatever the store and the list, repeats included: the ids afterwards are the union, one message
   and one event appear for each distinct new id, and nothing else changes.
   */
  lemma {:induction false} BatchIsUnion(s: Store, list: seq<Arrival>, created: Instant)
    ensures var s' := InsertAll(s, list, created);
            && ExternalIds(s'.messages) == ExternalIds(s.messages) + ListIds(list)
            && |s'.messages| - |s.messages| == |ListIds(list) - ExternalIds(s.messages)|
            && OnlyArrivalsAdded(s, s', created)
  {
    hide OnlyArrivalsAdded;
    if list == [] {
      NothingAdded(s, created);
      assert ListIds(list) - ExternalIds(s.messages) == {};
    } else {
      var rest, a := list[..|list| - 1], list[|list| - 1];
      BatchIsUnion(s, rest, created);
      ListIdsOfPrefix(list);
      InsertAdds(s, InsertAll(s, rest, created), a, created);
      InsertIsUnion(InsertAll(s, rest, created), a, created, ExternalIds(s.messages), ListIds(rest));
    }
  }

  function Id(a: Arrival): (Provider, string) {
    (a.parsed.provider, a.parsed.providerMessageId)
  }

  /** The row that an arrival becomes; a message without a thread gets a conversation of its own. */
  predicate CameFrom(m: Message, a: Arrival, created: Instant) {
    && Id(a) == (m.provider, m.providerMessageId) && m.threadId == a.parsed.threadId && m.content == a.parsed.content
    && m.direction.In? && m.status.Received? && m.deliveredAt.None? && m.requestedBy.None?
    && m.receivedAt == Some(a.receivedAt) && m.createdAt == created && m.purpose.None? && m.statusDetail.None?
    && (m.threadId.Some? ==> m.conversationId == DeriveConversationId(m.provider, m.threadId, 0))
    && (m.threadId.None? ==> m.conversationId.Random?)
  }

  lemma InsertStores(s: Store, a: Arrival, created: Instant)
    ensures var s' := Insert(s, a, created);
            && |s.messages| <= |s'.messages| && s'.messages[..|s.messages|] == s.messages
            && (Id(a) !in ExternalIds(s.messages) ==>
                  |s'.messages| == |s.messages| + 1 && CameFrom(s'.messages[|s.messages|], a, created))
  {
    hide ExternalIds;
    DuplicateMeansKnown(s, a.parsed);
  }

  /** Of several arrivals with one new id it is the first that is stored. */
  lemma {:induction false} FirstArrivalWins(s: Store, list: seq<Arrival>, created: Instant, k: nat) returns (i: nat)
    requires k < |list| && Id(list[k]) !in ExternalIds(s.messages)
    requires forall j :: 0 <= j < k ==> Id(list[j]) != Id(list[k])
    ensures |s.messages| <= i < |InsertAll(s, list, created).messages|
    ensures CameFrom(InsertAll(s, list, created).messages[i], list[k], created)
  {
    hide Insert, CameFrom, ExternalIds;
    var last := |list| - 1;
    var before := InsertAll(s, list[..last], created);
    InsertStores(before, list[last], created);
    if k < last {
      i := FirstArrivalWins(s, list[..last], created, k);
      assert InsertAll(s, list, created).messages[i] == before.messages[i];
    } else {
      BatchIsUnion(s, list[..last], created);
      assert OnlyArrivalsAdded(s, before, created);
      hide OnlyArrivalsAdded;
      i := |before.messages|;
    }
  }

  /** Element k brings an id that neither the store nor an earlier element has. */
  predicate IsFirst(s: Store, list: seq<Arrival>, k: nat)
    requires k < |list|
  {
    Id(list[k]) !in ExternalIds(s.messages) && forall j :: 0 <= j < k ==> Id(list[j]) != Id(list[k])
  }

  lemma LastIsFirst(s: Store, list: seq<Arrival>, created: Instant)
    requires list != []
    ensures var last := |list| - 1;
            IsFirst(s, list, last) <==> !IsDuplicate(InsertAll(s, list[..last], created), list[last].parsed)
  {
    hide OnlyArrivalsAdded, ExternalIds, InsertAll, IsDuplicate, ListIds;
    var last := |list| - 1;
    BatchIsUnion(s, list[..last], created);
    DuplicateMeansKnown(InsertAll(s, list[..last], created), list[last].parsed);
    ListedMeansEarlier(list, last, Id(list[last]));
  }

  lemma ListedMeansEarlier(list: seq<Arrival>, n: nat, id: (Provider, string))
    requires n <= |list|
    ensures id in ListIds(list[..n]) <==> exists j :: 0 <= j < n && Id(list[j]) == id
  {
    assert forall j :: 0 <= j < n ==> list[..n][j] == list[j];
  }

  lemma FirstInPrefix(s: Store, list: seq<Arrival>, n: nat, k: nat)
    requires k < n <= |list|
    ensures IsFirst(s, list[..n], k) <==> IsFirst(s, list, k)
  {
    assert forall j :: 0 <= j <= k ==> list[..n][j] == list[j];
  }

  /** A batch gets through exactly when every first arrival of a new id is audited. */
  lemma {:induction false} AuditedExactlyWhen(s: Store, list: seq<Arrival>, created: Instant)
    ensures AllAudited(s, list, created) <==> forall k :: 0 <= k < |list| && IsFirst(s, list, k) ==> list[k].audited
  {
    if list != [] {
      var last := |list| - 1;
      AuditedExactlyWhen(s, list[..last], created);
      LastIsFirst(s, list, created);
      assert AllAudited(s, list, created)
        <==> AllAudited(s, list[..last], created) && (IsFirst(s, list, last) ==> list[last].audited);
      hide AllAudited, IsFirst;
      assert forall k :: 0 <= k < last ==> list[..last][k] == list[k];
      forall k | 0 <= k < last
        ensures IsFirst(s, list[..last], k) <==> IsFirst(s, list, k)
      {
        FirstInPrefix(s, list, last, k);
      }
    }
  }

  /** Every first arrival of a new id has its row. */
  ghost predicate FirstsStored(s: Store, s': Store, list: seq<Arrival>, created: Instant) {
    forall k :: 0 <= k < |list| && IsFirst(s, list, k) ==>
      exists i :: |s.messages| <= i < |s'.messages| && CameFrom(s'.messages[i], list[k], created)
  }

  lemma BatchStoresFirsts(s: Store, list: seq<Arrival>, created: Instant)
    ensures FirstsStored(s, InsertAll(s, list, created), list, created)
  {
    hide CameFrom, InsertAll;
    forall k | 0 <= k < |list| && IsFirst(s, list, k)
      ensures exists i :: |s.messages| <= i < |InsertAll(s, list, created).messages|
                          && CameFrom(InsertAll(s, list, created).messages[i], list[k], created)
    {
      var i := FirstArrivalWins(s, list, created, k);
    }
  }

  lemma NothingAdded(s: Store, created: Instant)
    ensures OnlyArrivalsAdded(s, s, created)
  {
  }

  lemma OneMoreListed<T>(known: set<T>, listed: set<T>, id: T)
    ensures id in known + listed ==> listed + {id} - known == listed - known
    ensures id !in known + listed ==> |listed + {id} - known| == |listed - known| + 1
  {
    if id !in known + listed {
      assert listed + {id} - known == (listed - known) + {id};
    }
  }

  lemma InsertIsUnion(s: Store, a: Arrival, created: Instant, known: set<(Provider, string)>,
                      listed: set<(Provider, string)>)
    requires ExternalIds(s.messages) == known + listed
    ensures var id, s' := (a.parsed.provider, a.parsed.providerMessageId), Insert(s, a, created);
            && ExternalIds(s'.messages) == known + (listed + {id})
            && |s'.messages| - |s.messages| == |listed + {id} - known| - |listed - known|
  {
    hide ExternalIds, IsDuplicate;
    var id := (a.parsed.provider, a.parsed.providerMessageId);
    DuplicateMeansKnown(s, a.parsed);
    OneMoreListed(known, listed, id);
    if id !in known + listed {
      IdsOfAppend(s.messages, InMessage(s, a, created));
    }
  }

  lemma {:induction false} KnownListChangesNothing(s: Store, list: seq<Arrival>, created: Instant)
    requires ListIds(list) <= ExternalIds(s.messages)
    ensures InsertAll(s, list, created) == s && AllAudited(s, list, created)
  {
    if list != [] {
      ListIdsOfPrefix(list);
      KnownListChangesNothing(s, list[..|list| - 1], created);
      DuplicateMeansKnown(s, list[|list| - 1].parsed);
    }
  }

  /** Redelivering a committed batch, in any order and with any repeats or omissions, changes nothing. */
  lemma RedeliveryChangesNothing(s: Store, list: seq<Arrival>, created: Instant, again: seq<Arrival>, later: Instant)
    requires AllAudited(s, list, created) && ListIds(again) <= ListIds(list)
    ensures Receive(Receive(s, list, created), again, later) == Receive(s, list, created)
  {
    BatchIsUnion(s, list, created);
    KnownListChangesNothing(InsertAll(s, list, created), again, later);
  }

  /** Two orders of one list lead to the same ids and the same number of rows. */
  lemma OrderDoesNotMatter(s: Store, list: seq<Arrival>, other: seq<Arrival>, created: Instant)
    requires multiset(list) == multiset(other)
    ensures var a, b := InsertAll(s, list, created), InsertAll(s, other, created);
            ExternalIds(a.messages) == ExternalIds(b.messages) && |a.messages| == |b.messages|
              && |a.events| == |b.events|
  {
    BatchIsUnion(s, list, created);
    BatchIsUnion(s, other, created);
    forall id
      ensures id in ListIds(list) <==> id in ListIds(other)
    {
      if id in ListIds(list) {
        var i :| 0 <= i < |list| && id == (list[i].parsed.provider, list[i].parsed.providerMessageId);
        assert list[i] in multiset(other);
      }
      if id in ListIds(other) {
        var i :| 0 <= i < |other| && id == (other[i].parsed.provider, other[i].parsed.providerMessageId);
        assert other[i] in multiset(list);
      }
    }
    assert ListIds(list) == ListIds(other);
  }

  lemma InsertKeepsInv(s: Store, a: Arrival, created: Instant)
    requires Inv(s)
    ensures Inv(Insert(s, a, created))
  {
    hide Inv;
    if !IsDuplicate(s, a.parsed) {
      AddMessageKeepsInv(s, InMessage(s, a, created), None, PendingEvent(|s.messages|, ReceivedEvent, created),
                         if a.parsed.threadId.None? then s.draws + 1 else s.draws);
    }
  }

  lemma {:induction false} InsertAllKeepsInv(s: Store, list: seq<Arrival>, created: Instant)
    requires Inv(s)
    ensures Inv(InsertAll(s, list, created))
  {
    hide Inv;
    if list != [] {
      InsertAllKeepsInv(s, list[..|list| - 1], created);
      InsertKeepsInv(InsertAll(s, list[..|list| - 1], created), list[|list| - 1], created);
    }
  }

  // ---------------------------------------------------------------- the handlers

  datatype InsertResult = Inserted(messageId: nat) | Skipped | AuditFailed

  method InsertInbound(session: Session, a: Arrival, created: Instant) returns (result: InsertResult)
    modifies session`work
    ensures session.work == Insert(old(session.work), a, created)
    ensures result == if IsDuplicate(old(session.work), a.parsed) then Skipped
                      else if a.audited then Inserted(|old(session.work).messages|) else AuditFailed
    ensures |session.work.messages| == |old(session.work).messages| + (if result.Skipped? then 0 else 1)
  {
    if IsDuplicate(session.work, a.parsed) {
      return Skipped;
    }
    var id := |session.work.messages|;
    var inserted := InsertMessage(session.work, InMessage(session.work, a, created));
    session.work := inserted.value.(draws := if a.parsed.threadId.None? then session.work.draws + 1
        else session.work.draws);
    session.work := session.work.(events := session.work.events + [PendingEvent(id, ReceivedEvent, created)]);
    assert session.work == Insert(old(session.work), a, created);
    return if a.audited then Inserted(id) else AuditFailed;
  }

  /** The loop of the two Meta webhooks, behind the session dependency. */
  method MetaWebhook(database: Database, list: seq<Arrival>, created: Instant) returns (reply: Reply)
    modifies database
    ensures reply.ServerError? <==>
              exists k :: 0 <= k < |list| && IsFirst(old(database.store), list, k) && !list[k].audited
    ensures reply.ServerError? ==> database.store == old(database.store)
    ensures !reply.ServerError? ==>
              && ExternalIds(database.store.messages) == ExternalIds(old(database.store).messages) + ListIds(list)
              && OnlyArrivalsAdded(old(database.store), database.store, created)
              && FirstsStored(old(database.store), database.store, list, created)
    ensures database.store == Receive(old(database.store), list, created)
    ensures reply == if !AllAudited(old(database.store), list, created) then ServerError
                     else var newIds := |ListIds(list) - ExternalIds(old(database.store).messages)|;
                          if newIds == 0 && list != [] then Duplicate else Stored(newIds)
  {
    hide Insert, InsertAll, AllAudited, ListIds, ExternalIds, IsDuplicate, OnlyArrivalsAdded, IsFirst, FirstsStored;
    AuditedExactlyWhen(database.store, list, created);
    var session: Session := new Session(database);
    var count, duplicates := 0, 0;
    EmptyBatch(database.store, list, created);
    ghost var start := database.store;
    for i := 0 to |list|
      invariant session.database == database && database.store == start
      invariant session.work == InsertAll(start, list[..i], created)
      invariant AllAudited(start, list[..i], created)
      invariant count + duplicates == i
      invariant count == |session.work.messages| - |start.messages|
    {
      NextInBatch(start, list, created, i);
      var result := InsertInbound(session, list[i], created);
      if result.AuditFailed? {
        session.Close(true);
        AuditFailureSticks(start, list, created, i + 1);
        return ServerError;
      }
      if result.Inserted? {
        count := count + 1;
      } else {
        duplicates := duplicates + 1;
      }
    }
    assert list[..|list|] == list;
    BatchIsUnion(start, list, created);
    BatchStoresFirsts(start, list, created);
    session.Close(false);
    reply := if count == 0 && duplicates > 0 then Duplicate else Stored(count);
  }

  lemma EmptyBatch(s: Store, list: seq<Arrival>, created: Instant)
    ensures InsertAll(s, list[..0], created) == s && AllAudited(s, list[..0], created)
  {
  }

  lemma NextInBatch(s: Store, list: seq<Arrival>, created: Instant, i: nat)
    requires i < |list|
    ensures var before := InsertAll(s, list[..i], created);
            && InsertAll(s, list[..i + 1], created) == Insert(before, list[i], created)
            && (AllAudited(s, list[..i + 1], created)
                <==> AllAudited(s, list[..i], created) && (IsDuplicate(before, list[i].parsed) || list[i].audited))
  {
    hide Insert, IsDuplicate;
    assert list[..i + 1][..i] == list[..i];
  }

  lemma {:induction false} AuditFailureSticks(s: Store, list: seq<Arrival>, created: Instant, n: nat)
    requires n <= |list| && !AllAudited(s, list[..n], created)
    ensures !AllAudited(s, list, created)
  {
    if n == |list| {
      assert list[..n] == list;
    } else {
      assert list[..|list| - 1][..n] == list[..n];
      AuditFailureSticks(s, list[..|list| - 1], created, n);
    }
  }

  /** The Postmark and SignalWire webhooks carry one message each. */
  method SingleWebhook(database: Database, a: Arrival, created: Instant) returns (reply: InsertResult)
    modifies database
    ensures !reply.Inserted? ==> database.store == old(database.store)
    ensures reply.Inserted? ==>
              var s, s' := old(database.store), database.store;
              && |s'.messages| == |s.messages| + 1 && s'.messages[..|s.messages|] == s.messages
              && CameFrom(s'.messages[|s.messages|], a, created)
              && s'.events == s.events + [EventRow(|s.messages|, ReceivedEvent, created, Pending, None)]
              && s'.keys == s.keys && s'.items == s.items
    ensures database.store == Receive(old(database.store), [a], created)
    ensures reply == if IsDuplicate(old(database.store), a.parsed) then Skipped
                     else if a.audited then Inserted(|old(database.store).messages|) else AuditFailed
  {
    var session: Session := new Session(database);
    reply := InsertInbound(session, a, created);
    assert [a][..|[a]| - 1] == [];
    assert InsertAll(old(database.store), [a], created)
        == Insert(InsertAll(old(database.store), [], created), a, created);
    assert AllAudited(old(database.store), [], created);
    session.Close(reply.AuditFailed?);
  }
}
