/** The edits that transactions make of the tables, each with what it does to the invariant. */
module StoreEdits {
  import opened Common
  import opened Conversation
  import opened Store

  // ---------------------------------------------------------------- status log

  lemma ReplayAfterAppend(events: seq<EventRow>, e: EventRow, m: nat, initial: MessageStatus)
    ensures ReplayStatus(events + [e], m, initial)
            == if SetsStatus(e, m) then e.data.status else ReplayStatus(events, m, initial)
  {
    assert (events + [e])[..|events|] == events;
  }

  lemma {:induction false} ReplayWithoutEvents(events: seq<EventRow>, m: nat, initial: MessageStatus)
    requires forall k :: 0 <= k < |events| ==> !SetsStatus(events[k], m)
    ensures ReplayStatus(events, m, initial) == initial
  {
    if events != [] {
      ReplayWithoutEvents(events[..|events| - 1], m, initial);
    }
  }

  predicate SameNews(a: EventRow, b: EventRow) {
    a.messageId == b.messageId && a.data == b.data
  }

  lemma {:induction false} ReplayIgnoresDelivery(a: seq<EventRow>, b: seq<EventRow>, m: nat, initial: MessageStatus)
    requires |a| == |b| && forall k :: 0 <= k < |a| ==> SameNews(a[k], b[k])
    ensures ReplayStatus(a, m, initial) == ReplayStatus(b, m, initial)
  {
    if a != [] {
      assert SameNews(a[|a| - 1], b[|b| - 1]);
      ReplayIgnoresDelivery(a[..|a| - 1], b[..|b| - 1], m, initial);
    }
  }

  // ---------------------------------------------------------------- a new message

  /** A message, its announcement and, when it goes out, its outbox item. */
  function AddMessage(s: Store, m: Message, item: Option<OutboxItem>, event: EventRow, draws: nat): Store {
    s.(messages := s.messages + [m],
       items := s.items + (if item.Some? then [item.value] else []),
       events := s.events + [event],
       draws := draws)
  }

  predicate FreshRows(s: Store, m: Message, item: Option<OutboxItem>, event: EventRow) {
    && m.status == InitialStatus(m.direction)
    && (m.direction.Out? <==> item.Some?)
    && (item.Some? ==> item.value.messageId == |s.messages| && item.value.state.Pending? && item.value.attempts == 0)
    && event.messageId == |s.messages| && event.state.Pending?
    && event.data == if m.direction.Out? then QueuedEvent else ReceivedEvent
  }

  predicate FreshConversation(s: Store, m: Message, draws: nat) {
    m.conversationId == DeriveConversationId(m.provider, m.threadId, s.draws)
    && draws == if m.threadId.None? then s.draws + 1 else s.draws
  }

  lemma AppendItem(ms: seq<Message>, items: seq<OutboxItem>, m: Message, item: Option<OutboxItem>)
    requires ItemsCoverMessages(ms, items)
    requires m.direction.Out? <==> item.Some?
    requires item.Some? ==> item.value.messageId == |ms| && item.value.state.Pending? && item.value.attempts == 0
    ensures ItemsCoverMessages(ms + [m], items + (if item.Some? then [item.value] else []))
  {
    var items' := items + (if item.Some? then [item.value] else []);
    forall i | 0 <= i < |ms + [m]| && (ms + [m])[i].direction.Out?
      ensures HasItem(items', i)
    {
      if i < |ms| {
        assert HasItem(items, i);
        var k :| 0 <= k < |items| && items[k].messageId == i;
        assert items'[k].messageId == i;
      } else {
        assert items'[|items|].messageId == i;
      }
    }
  }

  lemma AppendAnnouncement(ms: seq<Message>, events: seq<EventRow>, m: Message, e: EventRow)
    requires EventsAnnounceMessages(ms, events)
    requires e.messageId == |ms| && e.state.Pending?
    requires e.data == if m.direction.Out? then QueuedEvent else ReceivedEvent
    ensures EventsAnnounceMessages(ms + [m], events + [e])
  {
    forall i | 0 <= i < |ms + [m]|
      ensures Announced(events + [e], i)
    {
      if i < |ms| {
        assert Announced(events, i);
        var k :| 0 <= k < |events| && Announces(events[k], i);
        assert Announces((events + [e])[k], i);
      } else {
        assert Announces((events + [e])[|events|], i);
      }
    }
  }

  lemma AppendStatus(ms: seq<Message>, events: seq<EventRow>, m: Message, e: EventRow)
    requires StatusesReplay(ms, events) && EventsAnnounceMessages(ms, events)
    requires m.status == InitialStatus(m.direction) && !e.data.StatusEvent?
    ensures StatusesReplay(ms + [m], events + [e])
  {
    hide Announced;
    forall i | 0 <= i < |ms + [m]|
      ensures (ms + [m])[i].status == ReplayStatus(events + [e], i, InitialStatus((ms + [m])[i].direction))
    {
      ReplayAfterAppend(events, e, i, InitialStatus((ms + [m])[i].direction));
      if i == |ms| {
        assert forall k :: 0 <= k < |events| ==> EventSound(ms, events[k]);
        ReplayWithoutEvents(events, i, InitialStatus(m.direction));
      }
    }
  }

  lemma AppendConversation(ms: seq<Message>, draws: nat, m: Message)
    requires ConversationsDerived(ms, draws)
    requires m.conversationId == DeriveConversationId(m.provider, m.threadId, draws)
    ensures ConversationsDerived(ms + [m], if m.threadId.None? then draws + 1 else draws)
  {
    hide ProviderName;
  }

  lemma AppendUnique(ms: seq<Message>, m: Message)
    requires UniqueMessages(ms) && FindMessage(ms, m.provider, m.providerMessageId).None?
    ensures UniqueMessages(ms + [m])
  {
    hide FindMessage;
  }

  lemma KeysSurviveAppend(ms: seq<Message>, keys: map<(string, string), KeyRow>, m: Message)
    requires KeysNameMessages(ms, keys)
    ensures KeysNameMessages(ms + [m], keys)
  {
    forall scope | scope in keys
      ensures KeyNamesMessage(ms + [m], scope, keys[scope])
    {
      assert KeyNamesMessage(ms, scope, keys[scope]);
    }
  }

  lemma AddMessageKeepsInv(s: Store, m: Message, item: Option<OutboxItem>, event: EventRow, draws: nat)
    requires Inv(s) && FindMessage(s.messages, m.provider, m.providerMessageId).None?
    requires FreshRows(s, m, item, event) && FreshConversation(s, m, draws)
    ensures Inv(AddMessage(s, m, item, event, draws))
  {
    hide UniqueMessages, ConversationsDerived, KeysNameMessages, ItemsCoverMessages, EventsAnnounceMessages,
        StatusesReplay;
    AppendUnique(s.messages, m);
    AppendConversation(s.messages, s.draws, m);
    KeysSurviveAppend(s.messages, s.keys, m);
    AppendItem(s.messages, s.items, m, item);
    AppendAnnouncement(s.messages, s.events, m, event);
    AppendStatus(s.messages, s.events, m, event);
  }

  // ---------------------------------------------------------------- keys

  lemma NameKeyKeepsInv(s: Store, scope: (string, string), row: KeyRow)
    requires Inv(s) && KeyNamesMessage(s.messages, scope, row)
    requires forall other :: other in s.keys && other != scope ==> s.keys[other].messageId != row.messageId
    ensures Inv(s.(keys := s.keys[scope := row]))
  {
  }

  lemma DropKeysKeepsInv(s: Store, gone: set<(string, string)>)
    requires Inv(s)
    ensures Inv(s.(keys := s.keys - gone))
  {
  }

  // ---------------------------------------------------------------- status changes

  /** What a status webhook may write: the status, its detail and the delivery time. */
  predicate SameButStatus(a: Message, b: Message) {
    b == a.(status := b.status, statusDetail := b.statusDetail, deliveredAt := b.deliveredAt)
  }

  predicate SameMessages(a: seq<Message>, b: seq<Message>) {
    |a| == |b| && forall i :: 0 <= i < |a| ==> SameButStatus(a[i], b[i])
  }

  function UpdateMessage(s: Store, i: nat, m: Message, event: EventRow): Store
    requires i < |s.messages|
  {
    s.(messages := s.messages[i := m], events := s.events + [event])
  }

  lemma SameMessagesKeep(s: Store, ms: seq<Message>)
    requires Inv(s) && SameMessages(s.messages, ms)
    ensures UniqueMessages(ms) && ConversationsDerived(ms, s.draws)
    ensures KeysNameMessages(ms, s.keys) && ItemsCoverMessages(ms, s.items) && EventsAnnounceMessages(ms, s.events)
  {
    assert forall i :: 0 <= i < |ms| ==> SameButStatus(s.messages[i], ms[i]);
    forall scope | scope in s.keys
      ensures KeyNamesMessage(ms, scope, s.keys[scope])
    {
      assert KeyNamesMessage(s.messages, scope, s.keys[scope]);
    }
    forall k | 0 <= k < |s.items|
      ensures ItemSound(ms, s.items[k])
    {
      assert ItemSound(s.messages, s.items[k]);
    }
    forall k | 0 <= k < |s.events|
      ensures EventSound(ms, s.events[k])
    {
      assert EventSound(s.messages, s.events[k]);
    }
  }

  lemma AppendStatusEvent(ms: seq<Message>, events: seq<EventRow>, e: EventRow)
    requires EventsAnnounceMessages(ms, events)
    requires e.messageId < |ms| && e.data.StatusEvent? && e.state.Pending?
    ensures EventsAnnounceMessages(ms, events + [e])
  {
    forall i | 0 <= i < |ms|
      ensures Announced(events + [e], i)
    {
      assert Announced(events, i);
      var k :| 0 <= k < |events| && Announces(events[k], i);
      assert Announces((events + [e])[k], i);
    }
  }

  lemma UpdateMessageKeepsInv(s: Store, i: nat, m: Message, event: EventRow)
    requires Inv(s) && i < |s.messages| && SameButStatus(s.messages[i], m)
    requires event.messageId == i && event.data.StatusEvent? && event.state.Pending?
    requires m.status == if SetsStatus(event, i) then event.data.status else s.messages[i].status
    ensures Inv(UpdateMessage(s, i, m, event))
  {
    var s' := UpdateMessage(s, i, m, event);
    SameMessagesKeep(s, s'.messages);
    AppendStatusEvent(s'.messages, s.events, event);
    forall j | 0 <= j < |s'.messages|
      ensures s'.messages[j].status == ReplayStatus(s'.events, j, InitialStatus(s'.messages[j].direction))
    {
      ReplayAfterAppend(s.events, event, j, InitialStatus(s'.messages[j].direction));
    }
  }

  /** What a transaction adds to the log is pending and created no earlier than `from`. */
  predicate AddsEvents(before: seq<EventRow>, after: seq<EventRow>, from: Instant) {
    && |before| <= |after| && after[..|before|] == before
    && forall k :: |before| <= k < |after| ==> after[k].state.Pending? && after[k].createdAt >= from
  }

  // ---------------------------------------------------------------- drains

  lemma ReplaceItemsKeepsInv(s: Store, items: seq<OutboxItem>)
    requires Inv(s) && |items| == |s.items|
    requires forall k :: 0 <= k < |items| ==>
               items[k].messageId == s.items[k].messageId && ItemSound(s.messages, items[k])
    ensures Inv(s.(items := items))
  {
    forall m | 0 <= m < |s.messages| && s.messages[m].direction.Out?
      ensures HasItem(items, m)
    {
      assert HasItem(s.items, m);
      var k :| 0 <= k < |s.items| && s.items[k].messageId == m;
      assert items[k].messageId == m;
    }
    hide HasItem, EventsAnnounceMessages, KeysNameMessages, StatusesReplay;
  }

  lemma ReplaceEventsKeepsInv(s: Store, events: seq<EventRow>)
    requires Inv(s) && |events| == |s.events|
    requires forall k :: 0 <= k < |events| ==>
               SameNews(s.events[k], events[k]) && (events[k].state.Pending? || events[k].state.Done?)
    ensures Inv(s.(events := events))
  {
    forall m | 0 <= m < |s.messages|
      ensures Announced(events, m)
    {
      assert Announced(s.events, m);
      var k :| 0 <= k < |s.events| && Announces(s.events[k], m);
      assert SameNews(s.events[k], events[k]) && Announces(events[k], m);
    }
    forall k | 0 <= k < |events|
      ensures EventSound(s.messages, events[k])
    {
      assert SameNews(s.events[k], events[k]) && EventSound(s.messages, s.events[k]);
    }
    forall m | 0 <= m < |s.messages|
      ensures s.messages[m].status == ReplayStatus(events, m, InitialStatus(s.messages[m].direction))
    {
      ReplayIgnoresDelivery(s.events, events, m, InitialStatus(s.messages[m].direction));
    }
    hide ItemsCoverMessages, KeysNameMessages, Announced;
  }
}
