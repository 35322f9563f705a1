/**
 The four tables, the rows that handlers insert and update, and the invariant every committed
 transaction keeps. Messages, outbox items and events are never deleted, so each table is a
 sequence and a row's id is its position.
 */
module Store {
  import opened Common
  import opened Conversation

  datatype Direction = In | Out

  datatype MessageStatus = Received | Queued | Dispatched | Delivered | Failed | Bounced

  datatype Message = Message(
    direction: Direction,
    provider: Provider,
    providerMessageId: string,
    threadId: Option<string>,
    conversationId: Uuid,
    content: string,
    purpose: Option<string>,
    requestedBy: Option<string>,
    createdAt: Instant,
    receivedAt: Option<Instant>,
    status: MessageStatus,
    statusDetail: Option<string>,
    deliveredAt: Option<Instant>)

  /** SHA-256 of a request body, taken to be collision-free. */
  datatype Fingerprint = Sha256(body: string)

  datatype KeyRow = KeyRow(fingerprint: Fingerprint, messageId: Option<nat>, createdAt: Instant, expiresAt: Instant)

  datatype ItemState = Pending | Claimed | Done | Dead

  datatype OutboxItem = OutboxItem(
    messageId: nat,
    attempts: nat,
    lastError: Option<string>,
    nextAttemptAt: Instant,
    createdAt: Instant,
    state: ItemState)

  datatype EventData =
    | QueuedEvent
    | ReceivedEvent
    | StatusEvent(status: MessageStatus, providerStatus: string, detail: string)

  datatype EventRow = EventRow(
    messageId: nat,
    data: EventData,
    createdAt: Instant,
    state: ItemState,
    publishedAt: Option<Instant>)

  /** The unique index on (actor, key) is the domain of `keys`; `draws` counts random UUIDs. */
  datatype Store = Store(
    messages: seq<Message>,
    keys: map<(string, string), KeyRow>,
    items: seq<OutboxItem>,
    events: seq<EventRow>,
    draws: nat)

  const DAY: Instant := 86400.0

  const MAX_ATTEMPTS: nat := 8

  // ---------------------------------------------------------------- queries

  predicate HasExternalId(m: Message, provider: Provider, providerMessageId: string) {
    m.provider == provider && m.providerMessageId == providerMessageId
  }

  /** The row a lookup by provider and provider message id sees. */
  function FindMessage(messages: seq<Message>, provider: Provider, providerMessageId: string): (found: Option<nat>)
    ensures found.Some? ==>
              found.value < |messages| && HasExternalId(messages[found.value], provider, providerMessageId)
    ensures found.None? ==> forall i :: 0 <= i < |messages| ==> !HasExternalId(messages[i], provider, providerMessageId)
  {
    if messages == [] then None
    else
      var last := |messages| - 1;
      if HasExternalId(messages[last], provider, providerMessageId) then Some(last)
      else FindMessage(messages[..last], provider, providerMessageId)
  }

  /** INSERT INTO messages: None stands for a violation of the unique constraint. */
  function InsertMessage(s: Store, m: Message): Option<Store> {
    if FindMessage(s.messages, m.provider, m.providerMessageId).Some? then None
    else Some(s.(messages := s.messages + [m]))
  }

  function PendingEvent(messageId: nat, data: EventData, now: Instant): EventRow {
    EventRow(messageId, data, now, Pending, None)
  }

  // ---------------------------------------------------------------- status log

  function InitialStatus(d: Direction): MessageStatus {
    if d.In? then Received else Queued
  }

  /** A status event that sets the status of message m; read receipts only record a watermark. */
  predicate SetsStatus(e: EventRow, m: nat) {
    e.messageId == m && e.data.StatusEvent? && e.data.providerStatus != "read"
  }

  /** The status that the event log gives message m. */
  function ReplayStatus(events: seq<EventRow>, m: nat, initial: MessageStatus): MessageStatus {
    if events == [] then initial
    else
      var last := events[|events| - 1];
      if SetsStatus(last, m) then last.data.status else ReplayStatus(events[..|events| - 1], m, initial)
  }

  // ---------------------------------------------------------------- invariant

  predicate UniqueMessages(ms: seq<Message>) {
    forall i, j :: 0 <= i < j < |ms| ==> !HasExternalId(ms[i], ms[j].provider, ms[j].providerMessageId)
  }

  predicate ConversationsDerived(ms: seq<Message>, draws: nat) {
    && (forall i :: 0 <= i < |ms| && ms[i].threadId.Some? ==>
          ms[i].conversationId == DeriveConversationId(ms[i].provider, ms[i].threadId, 0))
    && (forall i :: 0 <= i < |ms| && ms[i].threadId.None? ==>
          ms[i].conversationId.Random? && ms[i].conversationId.draw < draws)
    && (forall i, j :: 0 <= i < j < |ms| && ms[i].threadId.None? && ms[j].threadId.None? ==>
          ms[i].conversationId != ms[j].conversationId)
  }

  predicate KeyNamesMessage(ms: seq<Message>, scope: (string, string), row: KeyRow) {
    && row.messageId.Some? && row.messageId.value < |ms|
    && ms[row.messageId.value].direction.Out?
    && ms[row.messageId.value].requestedBy == Some(scope.0)
    && row.expiresAt == row.createdAt + DAY
  }

  predicate KeysNameMessages(ms: seq<Message>, keys: map<(string, string), KeyRow>) {
    && (forall scope :: scope in keys ==> KeyNamesMessage(ms, scope, keys[scope]))
    && (forall a, b :: a in keys && b in keys && keys[a].messageId == keys[b].messageId ==> a == b)
  }

  /** No committed row is left claimed; a row is dead exactly when its attempts are used up. */
  predicate AttemptsSound(item: OutboxItem) {
    && !item.state.Claimed?
    && (item.state.Dead? ==> item.attempts == MAX_ATTEMPTS)
    && (!item.state.Dead? ==> item.attempts < MAX_ATTEMPTS)
  }

  predicate ItemSound(ms: seq<Message>, item: OutboxItem) {
    item.messageId < |ms| && ms[item.messageId].direction.Out? && AttemptsSound(item)
  }

  ghost predicate HasItem(items: seq<OutboxItem>, m: nat) {
    exists k :: 0 <= k < |items| && items[k].messageId == m
  }

  /** Each OUT message has exactly one outbox item and no IN message has any. */
  ghost predicate ItemsCoverMessages(ms: seq<Message>, items: seq<OutboxItem>) {
    && (forall k :: 0 <= k < |items| ==> ItemSound(ms, items[k]))
    && (forall j, k :: 0 <= j < k < |items| ==> items[j].messageId != items[k].messageId)
    && (forall m :: 0 <= m < |ms| && ms[m].direction.Out? ==> HasItem(items, m))
  }

  predicate Announces(e: EventRow, m: nat) {
    e.messageId == m && !e.data.StatusEvent?
  }

  predicate EventSound(ms: seq<Message>, e: EventRow) {
    && e.messageId < |ms|
    && (e.state.Pending? || e.state.Done?)
    && (e.data.QueuedEvent? ==> ms[e.messageId].direction.Out?)
    && (e.data.ReceivedEvent? ==> ms[e.messageId].direction.In?)
  }

  ghost predicate Announced(events: seq<EventRow>, m: nat) {
    exists k :: 0 <= k < |events| && Announces(events[k], m)
  }

  /** Each message is announced by exactly one event: queued if it goes out, received if it came in. */
  ghost predicate EventsAnnounceMessages(ms: seq<Message>, events: seq<EventRow>) {
    && (forall k :: 0 <= k < |events| ==> EventSound(ms, events[k]))
    && (forall j, k :: 0 <= j < k < |events| && !events[j].data.StatusEvent? ==>
          !Announces(events[k], events[j].messageId))
    && (forall m :: 0 <= m < |ms| ==> Announced(events, m))
  }

  ghost predicate StatusesReplay(ms: seq<Message>, events: seq<EventRow>) {
    forall m :: 0 <= m < |ms| ==> ms[m].status == ReplayStatus(events, m, InitialStatus(ms[m].direction))
  }

  ghost predicate Inv(s: Store) {
    && UniqueMessages(s.messages)
    && ConversationsDerived(s.messages, s.draws)
    && KeysNameMessages(s.messages, s.keys)
    && ItemsCoverMessages(s.messages, s.items)
    && EventsAnnounceMessages(s.messages, s.events)
    && StatusesReplay(s.messages, s.events)
  }

  const EMPTY := Store([], map[], [], [], 0)

  // ---------------------------------------------------------------- consequences

  /** A lookup by provider and provider message id matches the row it finds and no other. */
  lemma AtMostOneMatch(ms: seq<Message>, provider: Provider, providerMessageId: string, i: nat)
    requires UniqueMessages(ms) && i < |ms|
    ensures HasExternalId(ms[i], provider, providerMessageId)
            <==> FindMessage(ms, provider, providerMessageId) == Some(i)
  {
    var found := FindMessage(ms, provider, providerMessageId);
    if found.Some? {
      var j := found.value;
      assert i < j ==> !HasExternalId(ms[i], ms[j].provider, ms[j].providerMessageId);
      assert j < i ==> !HasExternalId(ms[j], ms[i].provider, ms[i].providerMessageId);
    }
  }

  /** In every store that satisfies the invariant, threads and conversations are the same partition. */
  lemma Threading(s: Store, i: nat, j: nat)
    requires Inv(s) && i < |s.messages| && j < |s.messages|
    ensures var a, b := s.messages[i], s.messages[j];
            && (a.threadId.Some? && b.threadId.Some? ==>
                 (a.conversationId == b.conversationId <==> a.provider == b.provider && a.threadId == b.threadId))
            && (a.threadId.None? && a.conversationId == b.conversationId ==> i == j)
  {
    hide ItemsCoverMessages, EventsAnnounceMessages, KeysNameMessages, StatusesReplay;
    var a, b := s.messages[i], s.messages[j];
    if a.threadId.Some? && b.threadId.Some? {
      ConversationIdentifiesThread(a.provider, a.threadId.value, b.provider, b.threadId.value, 0, 0);
    } else if a.threadId.None? && b.threadId.Some? {
    }
  }
}
