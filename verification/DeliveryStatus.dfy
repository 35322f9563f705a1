/** Delivery-status webhooks: update the message's status and log the change as an event. */
module DeliveryStatus {
  import opened Common
  import opened Conversation
  import opened Store
  import opened StoreEdits
  import opened Runtime

  // ---------------------------------------------------------------- one status change

  /** What a provider reports about one message. */
  datatype Report = Report(
    status: MessageStatus, providerStatus: string, description: Option<string>, detail: string,
    deliveredAt: Option<Instant>)

  function Updated(m: Message, r: Report): Message {
    m.(status := r.status,
       statusDetail := r.description,
       deliveredAt := if r.deliveredAt.Some? then r.deliveredAt else m.deliveredAt)
  }

  function ReportEvent(i: nat, r: Report, created: Instant): EventRow {
    PendingEvent(i, StatusEvent(r.status, r.providerStatus, r.detail), created)
  }

  function Apply(s: Store, provider: Provider, providerMessageId: string, r: Report, created: Instant): Store {
    match FindMessage(s.messages, provider, providerMessageId)
    case None => s
    case Some(i) => UpdateMessage(s, i, Updated(s.messages[i], r), ReportEvent(i, r, created))
  }

  function PostmarkStatus(recordType: string): (status: Option<MessageStatus>)
    ensures status.Some? <==> recordType in {"Delivery", "Bounce", "SpamComplaint", "Open", "Click"}
    ensures status == Some(Bounced) <==> recordType == "Bounce"
    ensures status == Some(Failed) <==> recordType == "SpamComplaint"
    ensures status.Some? ==> status.value in {Delivered, Bounced, Failed} && recordType != "read"
  {
    if recordType in {"Delivery", "Open", "Click"} then Some(Delivered)
    else if recordType == "Bounce" then Some(Bounced)
    else if recordType == "SpamComplaint" then Some(Failed)
    else None
  }

  /** The status is lower-cased before the lookup. */
  function SignalwireStatus(status: string): (known: Option<MessageStatus>)
    ensures known.Some? <==> status in {"delivered", "sent", "failed", "undelivered"}
    ensures known == Some(Dispatched) <==> status == "sent"
    ensures known == Some(Failed) <==> status == "failed"
    ensures known == Some(Bounced) <==> status == "undelivered"
    ensures known.Some? ==> known.value in {Delivered, Dispatched, Failed, Bounced} && status != "read"
  {
    if status == "delivered" then Some(Delivered)
    else if status == "sent" then Some(Dispatched)
    else if status == "failed" then Some(Failed)
    else if status == "undelivered" then Some(Bounced)
    else None
  }

  /** The time a Postmark payload carries; an unreadable one raises. */
  datatype ParsedTime = Absent | Unreadable | At(instant: Instant)

  function PostmarkReport(recordType: string, status: MessageStatus, at: ParsedTime, description: Option<string>,
                          detail: string): Report {
    Report(status, recordType, description, detail, if status.Delivered? && at.At? then Some(at.instant) else None)
  }

  function SignalwireReport(providerStatus: string, status: MessageStatus, description: Option<string>, detail: string,
                            now: Instant): Report {
    Report(status, providerStatus, description, detail, if status.Delivered? then Some(now) else None)
  }

  function MetaReport(watermark: string, now: Instant): Report {
    Report(Delivered, "delivered", None, watermark, Some(now))
  }

  // ---------------------------------------------------------------- Meta batches

  datatype MetaUpdate = DeliveredTo(mid: string, watermark: string) | ReadUpTo(thread: string, watermark: string)

  predicate OutInThread(m: Message, provider: Provider, thread: string) {
    m.provider == provider && m.threadId == Some(thread) && m.direction.Out?
  }

  /** What "newest outbound message of the thread" may return; rows created at one instant tie. */
  predicate NewestInThread(ms: seq<Message>, provider: Provider, thread: string, pick: Option<nat>) {
    match pick
    case None => forall i :: 0 <= i < |ms| ==> !OutInThread(ms[i], provider, thread)
    case Some(p) =>
      && p < |ms| && OutInThread(ms[p], provider, thread)
      && (forall i :: 0 <= i < |ms| && OutInThread(ms[i], provider, thread) ==> ms[i].createdAt <= ms[p].createdAt)
  }

  /** One update with the clock reading, the row its query returned and the answer to its audit call. */
  datatype MetaItem = MetaItem(update: MetaUpdate, now: Instant, pick: Option<nat>, audited: bool)

  /** The query of a read receipt runs only for a non-empty thread. */
  predicate PickIsNewest(ms: seq<Message>, provider: Provider, it: MetaItem) {
    it.update.ReadUpTo? && it.update.thread != "" ==> NewestInThread(ms, provider, it.update.thread, it.pick)
  }

  function MarkRead(m: Message, watermark: string): Message {
    m.(statusDetail := Some("read_watermark=" + watermark))
  }

  function ReadEvent(i: nat, watermark: string, created: Instant): EventRow {
    PendingEvent(i, StatusEvent(Delivered, "read", watermark), created)
  }

  function MetaStep(s: Store, provider: Provider, it: MetaItem, created: Instant): Store {
    match it.update
    case DeliveredTo(mid, watermark) =>
      if mid == "" then s else Apply(s, provider, mid, MetaReport(watermark, it.now), created)
    case ReadUpTo(thread, watermark) =>
      if thread == "" || it.pick.None? || it.pick.value >= |s.messages| then s
      else UpdateMessage(s, it.pick.value, MarkRead(s.messages[it.pick.value], watermark),
                         ReadEvent(it.pick.value, watermark, created))
  }

  function MetaAll(s: Store, provider: Provider, items: seq<MetaItem>, created: Instant): Store {
    if items == [] then s
    else MetaStep(MetaAll(s, provider, items[..|items| - 1], created), provider, items[|items| - 1], created)
  }

  /** The providers whose status route this is; any other is answered 404. */
  predicate IsMeta(provider: Provider) {
    provider.Fbmessenger? || provider.Instagram?
  }

  /** A delivery counts when it names a message id; a read receipt when the thread has an outbound message. */
  predicate Counts(ms: seq<Message>, provider: Provider, u: MetaUpdate) {
    match u
    case DeliveredTo(mid, _) => mid != ""
    case ReadUpTo(thread, _) => thread != "" && exists i :: 0 <= i < |ms| && OutInThread(ms[i], provider, thread)
  }

  function CountingPositions(ms: seq<Message>, provider: Provider, items: seq<MetaItem>): set<nat> {
    set k: nat | k < |items| && Counts(ms, provider, items[k].update)
  }

  /** Only a delivery to a known message is audited. */
  predicate AuditsPass(ms: seq<Message>, provider: Provider, items: seq<MetaItem>) {
    forall k | 0 <= k < |items| && items[k].update.DeliveredTo? && items[k].update.mid != "" ::
      FindMessage(ms, provider, items[k].update.mid).Some? ==> items[k].audited
  }

  /** A delivery for a message that is there. */
  predicate NamesKnown(ms: seq<Message>, provider: Provider, u: MetaUpdate) {
    u.DeliveredTo? && u.mid != "" && FindMessage(ms, provider, u.mid).Some?
  }

  // ---------------------------------------------------------------- what status webhooks keep

  predicate KeepsDelivery(a: Message, b: Message) {
    a.deliveredAt.Some? ==> b.deliveredAt.Some?
  }

  /** Nothing but status, detail and delivery time of messages changes, and no delivery time is lost. */
  predicate StatusOnly(s: Store, s': Store) {
    && SameMessages(s.messages, s'.messages)
    && (forall i :: 0 <= i < |s.messages| ==> KeepsDelivery(s.messages[i], s'.messages[i]))
    && s'.keys == s.keys && s'.items == s.items && s'.draws == s.draws
    && |s.events| <= |s'.events| && s'.events[..|s.events|] == s.events
  }

  /** A report changes the one message it matches, sets what it says, and logs exactly one event; else nothing. */
  lemma ApplyMeaning(s: Store, provider: Provider, id: string, r: Report, created: Instant, i: nat)
    requires UniqueMessages(s.messages) && i < |s.messages|
    ensures var s' := Apply(s, provider, id, r, created);
            && StatusOnly(s, s')
            && (!HasExternalId(s.messages[i], provider, id) ==> s'.messages[i] == s.messages[i])
            && (HasExternalId(s.messages[i], provider, id) ==>
                 && s'.messages[i].status == r.status && s'.messages[i].statusDetail == r.description
                 && s'.messages[i].deliveredAt
                    == (if r.deliveredAt.Some? then r.deliveredAt else s.messages[i].deliveredAt)
                 && s'.events == s.events
                   + [EventRow(i, StatusEvent(r.status, r.providerStatus, r.detail), created, Pending, None)])
            && (s'.events == s.events ==> s' == s)
  {
    AtMostOneMatch(s.messages, provider, id, i);
    var s' := Apply(s, provider, id, r, created);
    assert s'.events[..|s.events|] == s.events;
  }

  lemma ApplyKeepsInv(s: Store, provider: Provider, id: string, r: Report, created: Instant)
    requires Inv(s) && r.providerStatus != "read"
    ensures Inv(Apply(s, provider, id, r, created))
  {
    hide Inv;
    var found := FindMessage(s.messages, provider, id);
    if found.Some? {
      var i := found.value;
      UpdateMessageKeepsInv(s, i, Updated(s.messages[i], r), ReportEvent(i, r, created));
    }
  }

  lemma MetaStepKeeps(s: Store, provider: Provider, it: MetaItem, created: Instant)
    ensures StatusOnly(s, MetaStep(s, provider, it, created))
    ensures Inv(s) ==> Inv(MetaStep(s, provider, it, created))
  {
    hide Inv;
    var s' := MetaStep(s, provider, it, created);
    assert s'.events[..|s.events|] == s.events;
    if Inv(s) {
      match it.update
      case DeliveredTo(mid, watermark) =>
        ApplyKeepsInv(s, provider, mid, MetaReport(watermark, it.now), created);
      case ReadUpTo(thread, watermark) =>
        if thread != "" && it.pick.Some? && it.pick.value < |s.messages| {
          var i := it.pick.value;
          UpdateMessageKeepsInv(s, i, MarkRead(s.messages[i], watermark), ReadEvent(i, watermark, created));
        }
    }
  }

  lemma StatusOnlyTrans(a: Store, b: Store, c: Store)
    requires StatusOnly(a, b) && StatusOnly(b, c)
    ensures StatusOnly(a, c)
  {
    forall i | 0 <= i < |a.messages|
      ensures SameButStatus(a.messages[i], c.messages[i]) && KeepsDelivery(a.messages[i], c.messages[i])
    {
      assert SameButStatus(a.messages[i], b.messages[i]) && SameButStatus(b.messages[i], c.messages[i]);
      assert KeepsDelivery(a.messages[i], b.messages[i]) && KeepsDelivery(b.messages[i], c.messages[i]);
    }
    assert c.events[..|a.events|] == c.events[..|b.events|][..|a.events|];
  }

  lemma {:induction false} MetaAllKeeps(s: Store, provider: Provider, items: seq<MetaItem>, created: Instant)
    ensures StatusOnly(s, MetaAll(s, provider, items, created))
    ensures Inv(s) ==> Inv(MetaAll(s, provider, items, created))
  {
    hide Inv, MetaStep;
    if items == [] {
      assert forall i :: 0 <= i < |s.messages| ==> SameButStatus(s.messages[i], s.messages[i]);
      assert s.events[..|s.events|] == s.events;
    } else {
      var before := MetaAll(s, provider, items[..|items| - 1], created);
      MetaAllKeeps(s, provider, items[..|items| - 1], created);
      MetaStepKeeps(before, provider, items[|items| - 1], created);
      hide StatusOnly;
      StatusOnlyTrans(s, before, MetaAll(s, provider, items, created));
    }
  }

  lemma MetaStepAdds(s: Store, provider: Provider, it: MetaItem, created: Instant)
    ensures AddsEvents(s.events, MetaStep(s, provider, it, created).events, created)
  {
    var events := MetaStep(s, provider, it, created).events;
    assert events[..|s.events|] == s.events;
  }

  lemma {:induction false} MetaAllAdds(s: Store, provider: Provider, items: seq<MetaItem>, created: Instant)
    ensures AddsEvents(s.events, MetaAll(s, provider, items, created).events, created)
  {
    hide MetaStep;
    if items == [] {
      assert s.events[..|s.events|] == s.events;
    } else {
      var before := MetaAll(s, provider, items[..|items| - 1], created);
      MetaAllAdds(s, provider, items[..|items| - 1], created);
      MetaStepAdds(before, provider, items[|items| - 1], created);
      var after := MetaAll(s, provider, items, created);
      assert after.events[..|s.events|] == after.events[..|before.events|][..|s.events|];
      assert forall k :: 0 <= k < |before.events| ==> after.events[k] == after.events[..|before.events|][k];
    }
  }

  lemma {:induction false} FindIgnoresStatus(a: seq<Message>, b: seq<Message>, provider: Provider, id: string)
    requires SameMessages(a, b)
    ensures FindMessage(a, provider, id) == FindMessage(b, provider, id)
  {
    if a != [] {
      assert SameButStatus(a[|a| - 1], b[|b| - 1]);
      FindIgnoresStatus(a[..|a| - 1], b[..|b| - 1], provider, id);
    }
  }

  /** A batch can ask about threads at any point of its own loop: the answers are those of the opening store. */
  lemma NewestIgnoresStatus(a: seq<Message>, b: seq<Message>, provider: Provider, thread: string, pick: Option<nat>)
    requires SameMessages(a, b)
    ensures NewestInThread(a, provider, thread, pick) <==> NewestInThread(b, provider, thread, pick)
  {
    assert forall i :: 0 <= i < |a| ==> SameButStatus(a[i], b[i]);
    assert forall i :: 0 <= i < |a| ==> OutInThread(a[i], provider, thread) == OutInThread(b[i], provider, thread);
  }

  // ---------------------------------------------------------------- what a Meta batch does to each message

  predicate DeliversTo(m: Message, provider: Provider, it: MetaItem) {
    it.update.DeliveredTo? && it.update.mid != "" && HasExternalId(m, provider, it.update.mid)
  }

  predicate ReadsAt(i: nat, it: MetaItem) {
    it.update.ReadUpTo? && it.update.thread != "" && it.pick == Some(i)
  }

  predicate SomeDelivers(m: Message, provider: Provider, items: seq<MetaItem>) {
    exists k :: 0 <= k < |items| && DeliversTo(m, provider, items[k])
  }

  predicate SomeReads(i: nat, items: seq<MetaItem>) {
    exists k :: 0 <= k < |items| && ReadsAt(i, items[k])
  }

  lemma MetaStepMeaning(s: Store, provider: Provider, it: MetaItem, created: Instant, i: nat)
    requires UniqueMessages(s.messages) && i < |s.messages|
    ensures var m, m' := s.messages[i], MetaStep(s, provider, it, created).messages[i];
            if DeliversTo(m, provider, it)
              then m' == m.(status := Delivered, statusDetail := None, deliveredAt := Some(it.now))
            else if ReadsAt(i, it) then m' == m.(statusDetail := Some("read_watermark=" + it.update.watermark))
            else m' == m
  {
    if it.update.DeliveredTo? {
      AtMostOneMatch(s.messages, provider, it.update.mid, i);
    }
  }

  /** What one update of a batch logs: one event with the provider's own words, or nothing. */
  lemma MetaStepEvents(s: Store, provider: Provider, it: MetaItem, created: Instant)
    requires PickIsNewest(s.messages, provider, it)
    ensures var u := it.update;
            var found := if u.DeliveredTo? then FindMessage(s.messages, provider, u.mid) else None;
            MetaStep(s, provider, it, created).events
            == s.events
               + (if u.DeliveredTo? && u.mid != "" && found.Some? then
                    [EventRow(found.value, StatusEvent(Delivered, "delivered", u.watermark), created, Pending, None)]
                  else if u.ReadUpTo? && u.thread != "" && it.pick.Some? then
                    [EventRow(it.pick.value, StatusEvent(Delivered, "read", u.watermark), created, Pending, None)]
                  else [])
  {
  }

  /** A read receipt reaches a newest outgoing message of its thread, and none only if the thread has none. */
  lemma ReadReachesNewest(s: Store, provider: Provider, it: MetaItem, i: nat)
    requires PickIsNewest(s.messages, provider, it) && it.update.ReadUpTo? && it.update.thread != "" && i < |s.messages|
    ensures var m := s.messages[i];
            m.provider == provider && m.threadId == Some(it.update.thread) && m.direction == Out ==>
              it.pick.Some? && it.pick.value < |s.messages| && m.createdAt <= s.messages[it.pick.value].createdAt
    ensures it.pick.Some? ==>
              && it.pick.value < |s.messages|
              && s.messages[it.pick.value].provider == provider && s.messages[it.pick.value].direction == Out
              && s.messages[it.pick.value].threadId == Some(it.update.thread)
  {
    var m := s.messages[i];
    assert OutInThread(m, provider, it.update.thread)
      <==> m.provider == provider && m.threadId == Some(it.update.thread) && m.direction.Out?;
  }

  /** The last update of a batch acts on what the ones before it left. */
  lemma LastMetaStep(s: Store, provider: Provider, items: seq<MetaItem>, created: Instant, i: nat)
    requires UniqueMessages(s.messages) && i < |s.messages| && items != []
    ensures |MetaAll(s, provider, items[..|items| - 1], created).messages| == |s.messages|
    ensures |MetaAll(s, provider, items, created).messages| == |s.messages|
    ensures var m, last := s.messages[i], items[|items| - 1];
            var before := MetaAll(s, provider, items[..|items| - 1], created).messages[i];
            MetaAll(s, provider, items, created).messages[i]
            == if DeliversTo(m, provider, last)
               then before.(status := Delivered, statusDetail := None, deliveredAt := Some(last.now))
               else if ReadsAt(i, last) then before.(statusDetail := Some("read_watermark=" + last.update.watermark))
               else before
  {
    hide MetaStep;
    var before := MetaAll(s, provider, items[..|items| - 1], created);
    MetaAllKeeps(s, provider, items[..|items| - 1], created);
    MetaAllKeeps(s, provider, items, created);
    SameMessagesStayUnique(s.messages, before.messages);
    MetaStepMeaning(before, provider, items[|items| - 1], created, i);
    assert SameButStatus(s.messages[i], before.messages[i]);
  }

  /**
   A batch marks delivered exactly the messages that some delivery names, touches no other message's
   status or delivery time, and leaves a message that no update is about as it was.
   */
  lemma {:induction false} MetaBatchMeaning(s: Store, provider: Provider, items: seq<MetaItem>, created: Instant,
                                            i: nat)
    requires UniqueMessages(s.messages) && i < |s.messages|
    ensures |MetaAll(s, provider, items, created).messages| == |s.messages|
    ensures var m, m' := s.messages[i], MetaAll(s, provider, items, created).messages[i];
            && (SomeDelivers(m, provider, items) ==> m'.status.Delivered? && m'.deliveredAt.Some?)
            && (!SomeDelivers(m, provider, items) ==> m'.status == m.status && m'.deliveredAt == m.deliveredAt)
            && (!SomeDelivers(m, provider, items) && !SomeReads(i, items) ==> m' == m)
  {
    if items != [] {
      var m, rest, last := s.messages[i], items[..|items| - 1], items[|items| - 1];
      assert items == rest + [last];
      assert SomeDelivers(m, provider, items) <==> SomeDelivers(m, provider, rest) || DeliversTo(m, provider, last);
      assert SomeReads(i, items) <==> SomeReads(i, rest) || ReadsAt(i, last);
      hide MetaStep, MetaAll, DeliversTo, ReadsAt, SomeDelivers, SomeReads, UniqueMessages;
      MetaBatchMeaning(s, provider, rest, created, i);
      LastMetaStep(s, provider, items, created, i);
    }
  }

  predicate Touches(m: Message, provider: Provider, i: nat, it: MetaItem) {
    DeliversTo(m, provider, it) || ReadsAt(i, it)
  }

  /** Update k is the last delivery to the message. */
  predicate DeliversLast(m: Message, provider: Provider, items: seq<MetaItem>, k: nat) {
    k < |items| && DeliversTo(m, provider, items[k]) && forall j :: k < j < |items| ==>
      !DeliversTo(m, provider, items[j])
  }

  /** Update k is the last one about the message. */
  predicate TouchesLast(m: Message, provider: Provider, i: nat, items: seq<MetaItem>, k: nat) {
    k < |items| && Touches(m, provider, i, items[k]) && forall j :: k < j < |items| ==>
      !Touches(m, provider, i, items[j])
  }

  /**
   The last update wins: the delivery time is that of the last delivery, and the detail is that of the
   last update of either kind, which a delivery clears and a read receipt sets to its watermark.
   */
  lemma {:induction false} LastUpdateWins(s: Store, provider: Provider, items: seq<MetaItem>, created: Instant, i: nat,
                                          k: nat)
    requires UniqueMessages(s.messages) && i < |s.messages| && k < |items|
    ensures |MetaAll(s, provider, items, created).messages| == |s.messages|
    ensures var m, m' := s.messages[i], MetaAll(s, provider, items, created).messages[i];
            && (DeliversLast(m, provider, items, k) ==> m'.deliveredAt == Some(items[k].now))
            && (TouchesLast(m, provider, i, items, k) ==>
                  m'.statusDetail == if DeliversTo(m, provider, items[k]) then None
                                     else Some("read_watermark=" + items[k].update.watermark))
  {
    var m, rest := s.messages[i], items[..|items| - 1];
    if k < |rest| {
      assert DeliversLast(m, provider, items, k) ==>
          DeliversLast(m, provider, rest, k) && !DeliversTo(m, provider, items[|rest|]);
      assert TouchesLast(m, provider, i, items, k) ==>
          TouchesLast(m, provider, i, rest, k) && !Touches(m, provider, i, items[|rest|]);
      hide MetaStep, MetaAll, DeliversTo, ReadsAt, DeliversLast, TouchesLast, UniqueMessages;
      LastUpdateWins(s, provider, rest, created, i, k);
      LastMetaStep(s, provider, items, created, i);
    } else {
      hide MetaStep, MetaAll, UniqueMessages;
      LastMetaStep(s, provider, items, created, i);
    }
  }

  lemma SameMessagesStayUnique(a: seq<Message>, b: seq<Message>)
    requires UniqueMessages(a) && SameMessages(a, b)
    ensures UniqueMessages(b)
  {
    forall i, j | 0 <= i < j < |b|
      ensures !HasExternalId(b[i], b[j].provider, b[j].providerMessageId)
    {
      assert SameButStatus(a[i], b[i]) && SameButStatus(a[j], b[j]);
    }
  }

  predicate IsUnknown(ms: seq<Message>, provider: Provider, it: MetaItem) {
    it.update.DeliveredTo? && it.update.mid != "" && FindMessage(ms, provider, it.update.mid).None?
  }

  /** Deliveries that name an id no message has: they count as applied and change nothing. */
  function UnknownPositions(ms: seq<Message>, provider: Provider, items: seq<MetaItem>): set<nat> {
    set k: nat | k < |items| && IsUnknown(ms, provider, items[k])
  }

  /** The reported count is the number of status events the batch logged plus its unknown deliveries. */
  lemma {:induction false} AppliedIsLoggedPlusUnknown(s: Store, provider: Provider, items: seq<MetaItem>,
                                                      created: Instant)
    requires forall k :: 0 <= k < |items| ==> PickIsNewest(s.messages, provider, items[k])
    ensures |CountingPositions(s.messages, provider, items)|
            == |MetaAll(s, provider, items, created).events| - |s.events|
              + |UnknownPositions(s.messages, provider, items)|
  {
    hide MetaStep, CountingPositions, UnknownPositions, PickIsNewest, NewestInThread, Counts, StatusOnly;
    if items == [] {
      EmptyCount(s.messages, provider, items);
      assert items[..0] == items;
    } else {
      var last := |items| - 1;
      AppliedIsLoggedPlusUnknown(s, provider, items[..last], created);
      assert items[..last + 1] == items;
      NextInBatch(s, provider, items, created, last);
      NextUnknown(s.messages, provider, items, last);
      MetaStepLogs(MetaAll(s, provider, items[..last], created), provider, items[last], created);
    }
  }

  lemma NextUnknown(ms: seq<Message>, provider: Provider, items: seq<MetaItem>, k: nat)
    requires k < |items|
    ensures |UnknownPositions(ms, provider, items[..k + 1])|
            == |UnknownPositions(ms, provider, items[..k])| + (if IsUnknown(ms, provider, items[k]) then 1 else 0)
  {
    if IsUnknown(ms, provider, items[k]) {
      assert UnknownPositions(ms, provider, items[..k + 1]) == UnknownPositions(ms, provider, items[..k]) + {k};
    } else {
      assert UnknownPositions(ms, provider, items[..k + 1]) == UnknownPositions(ms, provider, items[..k]);
    }
  }

  lemma MetaStepLogs(s: Store, provider: Provider, it: MetaItem, created: Instant)
    requires PickIsNewest(s.messages, provider, it)
    ensures |MetaStep(s, provider, it, created).events| - |s.events|
            == (if Counts(s.messages, provider, it.update) then 1 else 0)
               - (if IsUnknown(s.messages, provider, it) then 1 else 0)
  {
    if it.update.DeliveredTo? {
      DeliveryStep(s, provider, it, created);
    } else {
      ReadStep(s, provider, it, created);
    }
  }

  // ---------------------------------------------------------------- extraction

  datatype Delivery = Delivery(mids: seq<string>, watermark: string)

  /** One element of a Meta `messaging` list; the sender is empty when absent. */
  datatype Messaging = Messaging(delivery: Option<Delivery>, read: Option<string>, sender: string)

  function DeliveryUpdates(d: Delivery, n: nat): seq<MetaUpdate>
    requires n <= |d.mids|
  {
    if n == 0 then [] else DeliveryUpdates(d, n - 1) + [DeliveredTo(d.mids[n - 1], d.watermark)]
  }

  function MessagingUpdates(m: Messaging): seq<MetaUpdate> {
    (if m.delivery.Some? then DeliveryUpdates(m.delivery.value, |m.delivery.value.mids|) else [])
    + (if m.read.Some? then [ReadUpTo(m.sender, m.read.value)] else [])
  }

  function EntryUpdates(entry: seq<Messaging>): seq<MetaUpdate> {
    if entry == [] then [] else EntryUpdates(entry[..|entry| - 1]) + MessagingUpdates(entry[|entry| - 1])
  }

  function PayloadUpdates(payload: seq<seq<Messaging>>): seq<MetaUpdate> {
    if payload == [] then [] else PayloadUpdates(payload[..|payload| - 1]) + EntryUpdates(payload[|payload| - 1])
  }

  predicate Reports(m: Messaging, u: MetaUpdate) {
    match u
    case DeliveredTo(mid, watermark) =>
      m.delivery.Some? && mid in m.delivery.value.mids && watermark == m.delivery.value.watermark
    case ReadUpTo(thread, watermark) => m.read == Some(watermark) && m.sender == thread
  }

  lemma {:induction false} DeliveryUpdatesMeaning(d: Delivery, n: nat, u: MetaUpdate)
    requires n <= |d.mids|
    ensures u in DeliveryUpdates(d, n) <==> u.DeliveredTo? && u.mid in d.mids[..n] && u.watermark == d.watermark
  {
    if n > 0 {
      DeliveryUpdatesMeaning(d, n - 1, u);
      assert d.mids[..n] == d.mids[..n - 1] + [d.mids[n - 1]];
    }
  }

  lemma {:induction false} EntryUpdatesMeaning(entry: seq<Messaging>, u: MetaUpdate)
    ensures u in EntryUpdates(entry) <==> exists m :: m in entry && Reports(m, u)
  {
    if entry != [] {
      var rest, last := entry[..|entry| - 1], entry[|entry| - 1];
      EntryUpdatesMeaning(rest, u);
      assert entry == rest + [last];
      assert u in MessagingUpdates(last) <==> Reports(last, u) by {
        if last.delivery.Some? {
          var d := last.delivery.value;
          DeliveryUpdatesMeaning(d, |d.mids|, u);
          assert d.mids[..|d.mids|] == d.mids;
        }
      }
    }
  }

  /** The extracted list holds exactly what some element of some entry reports. */
  lemma {:induction false} PayloadUpdatesMeaning(payload: seq<seq<Messaging>>, u: MetaUpdate)
    ensures u in PayloadUpdates(payload) <==> exists entry, m :: entry in payload && m in entry && Reports(m, u)
  {
    if payload != [] {
      var rest, last := payload[..|payload| - 1], payload[|payload| - 1];
      PayloadUpdatesMeaning(rest, u);
      EntryUpdatesMeaning(last, u);
      assert payload == rest + [last];
    }
  }

  lemma {:induction false} DeliveriesInOrder(d: Delivery, n: nat)
    requires n <= |d.mids|
    ensures DeliveryUpdates(d, n) == seq(n, k requires 0 <= k < n => DeliveredTo(d.mids[k], d.watermark))
  {
    if n > 0 {
      DeliveriesInOrder(d, n - 1);
    }
  }

  lemma OneMoreElement(entry: seq<Messaging>, m: Messaging)
    ensures EntryUpdates(entry + [m]) == EntryUpdates(entry) + MessagingUpdates(m)
  {
    assert (entry + [m])[..|entry|] == entry;
  }

  lemma OneMoreEntry(payload: seq<seq<Messaging>>, entry: seq<Messaging>)
    ensures PayloadUpdates(payload + [entry]) == PayloadUpdates(payload) + EntryUpdates(entry)
  {
    assert (payload + [entry])[..|payload|] == payload;
  }

  lemma {:induction false} EntriesJoin(a: seq<Messaging>, b: seq<Messaging>)
    ensures EntryUpdates(a + b) == EntryUpdates(a) + EntryUpdates(b)
  {
    if b == [] {
      assert a + b == a;
    } else {
      hide EntryUpdates, MessagingUpdates;
      var rest, last := b[..|b| - 1], b[|b| - 1];
      EntriesJoin(a, rest);
      OneMoreElement(a + rest, last);
      OneMoreElement(rest, last);
      LastSplits(b);
      JoinAssociates(a, rest, [last]);
      JoinAssociates(EntryUpdates(a), EntryUpdates(rest), MessagingUpdates(last));
    }
  }

  /** Extraction takes a payload apart: what two payloads report one after the other is what both report. */
  lemma {:induction false} PayloadsJoin(a: seq<seq<Messaging>>, b: seq<seq<Messaging>>)
    ensures PayloadUpdates(a + b) == PayloadUpdates(a) + PayloadUpdates(b)
  {
    if b == [] {
      assert a + b == a;
    } else {
      hide PayloadUpdates, EntryUpdates;
      var rest, last := b[..|b| - 1], b[|b| - 1];
      PayloadsJoin(a, rest);
      OneMoreEntry(a + rest, last);
      OneMoreEntry(rest, last);
      LastSplits(b);
      JoinAssociates(a, rest, [last]);
      JoinAssociates(PayloadUpdates(a), PayloadUpdates(rest), EntryUpdates(last));
    }
  }

  /** And entries come apart like payloads, down to one element: its deliveries in order, then its read receipt. */
  lemma EntryIsItsElements(entry: seq<Messaging>, m: Messaging)
    ensures PayloadUpdates([entry + [m]]) == PayloadUpdates([entry]) + PayloadUpdates([[m]])
    ensures PayloadUpdates([]) == [] && PayloadUpdates([[]]) == []
    ensures PayloadUpdates([[m]])
            == (if m.delivery.None? then []
                else var d := m.delivery.value;
                     seq(|d.mids|, k requires 0 <= k < |d.mids| => DeliveredTo(d.mids[k], d.watermark)))
               + (if m.read.None? then [] else [ReadUpTo(m.sender, m.read.value)])
  {
    NothingExtracted();
    if m.delivery.Some? {
      DeliveriesInOrder(m.delivery.value, |m.delivery.value.mids|);
    }
    hide PayloadUpdates, EntryUpdates;
    OneMoreEntry([], entry + [m]);
    OneMoreEntry([], entry);
    OneMoreEntry([], [m]);
    OneMoreEntry([], []);
    OneMoreElement(entry, m);
    OneMoreElement([], m);
    assert [] + [entry + [m]] == [entry + [m]] && [] + [entry] == [entry] && [] + [[m]] == [[m]] && [] + [m] == [m];
    var none: seq<Messaging> := [];
    assert [] + [none] == [none];
  }

  lemma NothingExtracted()
    ensures PayloadUpdates([]) == [] && EntryUpdates([]) == []
  {
  }

  lemma FirstUpdates(payload: seq<seq<Messaging>>)
    ensures PayloadUpdates(payload[..0]) == []
  {
  }

  lemma NextEntry(payload: seq<seq<Messaging>>, i: nat)
    requires i < |payload|
    ensures PayloadUpdates(payload[..i + 1]) == PayloadUpdates(payload[..i]) + EntryUpdates(payload[i])
    ensures EntryUpdates(payload[i][..0]) == []
  {
    assert payload[..i + 1][..i] == payload[..i];
  }

  lemma NextMessaging(entry: seq<Messaging>, j: nat)
    requires j < |entry|
    ensures EntryUpdates(entry[..j + 1]) == EntryUpdates(entry[..j]) + MessagingUpdates(entry[j])
  {
    assert entry[..j + 1][..j] == entry[..j];
  }

  method ExtractStatusEvents(payload: seq<seq<Messaging>>) returns (out: seq<MetaUpdate>)
    ensures out == PayloadUpdates(payload)
  {
    hide PayloadUpdates, EntryUpdates;
    out := [];
    FirstUpdates(payload);
    for i := 0 to |payload|
      invariant out == PayloadUpdates(payload[..i])
    {
      var entry := payload[i];
      NextEntry(payload, i);
      for j := 0 to |entry|
        invariant out == PayloadUpdates(payload[..i]) + EntryUpdates(entry[..j])
      {
        var m := entry[j];
        NextMessaging(entry, j);
        ghost var before := out;
        if m.delivery.Some? {
          var d := m.delivery.value;
          for k := 0 to |d.mids|
            invariant out == before + DeliveryUpdates(d, k)
          {
            out := out + [DeliveredTo(d.mids[k], d.watermark)];
          }
        }
        if m.read.Some? {
          out := out + [ReadUpTo(m.sender, m.read.value)];
        }
        assert out == before + MessagingUpdates(m);
      }
      assert entry[..|entry|] == entry;
    }
    assert payload[..|payload|] == payload;
  }

  // ---------------------------------------------------------------- the handlers

  datatype Reply = Ignored | UnknownMessage | StatusSet(messageId: nat, status: MessageStatus)
    | AppliedCount(count: nat) | UnknownProvider | ServerError

  function ReportReply(s: Store, provider: Provider, id: string, r: Report, audited: bool): Reply {
    match FindMessage(s.messages, provider, id)
    case None => UnknownMessage
    case Some(i) => if audited then StatusSet(i, r.status) else ServerError
  }

  /** A committed report, or nothing when the audit fails. */
  function CommitReport(s: Store, provider: Provider, id: string, r: Report, created: Instant, audited: bool): Store {
    if audited then Apply(s, provider, id, r, created) else s
  }

  /** The whole effect of one report: three fields of one message, and one event; everything else stays. */
  predicate OneStatusChanged(s: Store, s': Store, i: nat, status: MessageStatus, description: Option<string>,
                             deliveredAt: Option<Instant>, event: EventRow) {
    && i < |s.messages|
    && s'.messages == s.messages[i := s.messages[i].(status := status, statusDetail := description,
      deliveredAt := deliveredAt)]
    && s'.events == s.events + [event]
    && s'.keys == s.keys && s'.items == s.items && s'.draws == s.draws
  }

  method ApplyStatus(session: Session, provider: Provider, id: string, r: Report, created: Instant, audited: bool)
    returns (reply: Reply)
    modifies session`work
    ensures session.work == Apply(old(session.work), provider, id, r, created)
    ensures reply == ReportReply(old(session.work), provider, id, r, audited)
  {
    var found := FindMessage(session.work.messages, provider, id);
    if found.None? {
      return UnknownMessage;
    }
    var i := found.value;
    var message := session.work.messages[i];
    message := message.(status := r.status);
    if r.deliveredAt.Some? {
      message := message.(deliveredAt := r.deliveredAt);
    }
    message := message.(statusDetail := r.description);
    session.work := session.work.(messages := session.work.messages[i := message]);
    session.work := session.work.(events := session.work.events + [ReportEvent(i, r, created)]);
    return if audited then StatusSet(i, r.status) else ServerError;
  }

  method PostmarkWebhook(database: Database, recordType: string, id: string, at: ParsedTime,
                         description: Option<string>,
                         detail: string, created: Instant, audited: bool)
    returns (reply: Reply)
    modifies database
    ensures reply.Ignored? <==> recordType !in {"Delivery", "Open", "Click", "Bounce", "SpamComplaint"}
    ensures reply.UnknownMessage? <==>
              && recordType in {"Delivery", "Open", "Click", "Bounce", "SpamComplaint"}
              && !(recordType in {"Delivery", "Open", "Click"} && at.Unreadable?)
              && FindMessage(old(database.store).messages, Postmark, id).None?
    ensures reply.StatusSet? <==>
              && recordType in {"Delivery", "Open", "Click", "Bounce", "SpamComplaint"}
              && !(recordType in {"Delivery", "Open", "Click"} && at.Unreadable?)
              && FindMessage(old(database.store).messages, Postmark, id).Some? && audited
    ensures !reply.StatusSet? ==> database.store == old(database.store)
    ensures reply.StatusSet? ==>
              var s, i := old(database.store), reply.messageId;
              var status := if recordType == "Bounce" then Bounced else if recordType == "SpamComplaint"
                  then Failed else Delivered;
              && reply.status == status && FindMessage(s.messages, Postmark, id) == Some(i)
              && OneStatusChanged(s, database.store, i, status, description,
                                  if status.Delivered? && at.At? then Some(at.instant) else s.messages[i].deliveredAt,
                                  EventRow(i, StatusEvent(status, recordType, detail), created, Pending, None))
    ensures match PostmarkStatus(recordType)
            case None => reply == Ignored && database.store == old(database.store)
            case Some(status) =>
              if status.Delivered? && at.Unreadable? then reply == ServerError && database.store == old(database.store)
              else var r := PostmarkReport(recordType, status, at, description, detail);
                   && database.store == CommitReport(old(database.store), Postmark, id, r, created, audited)
                   && reply == ReportReply(old(database.store), Postmark, id, r, audited)
  {
    var session := new Session(database);
    var status := PostmarkStatus(recordType);
    if status.None? {
      session.Close(false);
      return Ignored;
    }
    var deliveredAt := None;
    if status.value.Delivered? && !at.Absent? {
      if at.Unreadable? {
        session.Close(true);
        return ServerError;
      }
      deliveredAt := Some(at.instant);
    }
    reply := ApplyStatus(session, Postmark, id, Report(status.value, recordType, description, detail, deliveredAt),
        created, audited);
    session.Close(reply.ServerError?);
  }

  method SignalwireWebhook(database: Database, providerStatus: string, id: string, description: Option<string>,
                           detail: string, now: Instant, created: Instant, audited: bool)
    returns (reply: Reply)
    modifies database
    ensures reply.Ignored? <==> providerStatus !in {"delivered", "sent", "failed", "undelivered"}
    ensures reply.UnknownMessage? <==>
              && providerStatus in {"delivered", "sent", "failed", "undelivered"}
              && FindMessage(old(database.store).messages, Signalwire, id).None?
    ensures reply.StatusSet? <==>
              && providerStatus in {"delivered", "sent", "failed", "undelivered"}
              && FindMessage(old(database.store).messages, Signalwire, id).Some? && audited
    ensures !reply.StatusSet? ==> database.store == old(database.store)
    ensures reply.StatusSet? ==>
              var s, i := old(database.store), reply.messageId;
              var status := if providerStatus == "sent" then Dispatched
                            else if providerStatus == "failed" then Failed
                            else if providerStatus == "undelivered" then Bounced else Delivered;
              && reply.status == status && FindMessage(s.messages, Signalwire, id) == Some(i)
              && OneStatusChanged(s, database.store, i, status, description,
                                  if providerStatus == "delivered" then Some(now) else s.messages[i].deliveredAt,
                                  EventRow(i, StatusEvent(status, providerStatus, detail), created, Pending, None))
    ensures match SignalwireStatus(providerStatus)
            case None => reply == Ignored && database.store == old(database.store)
            case Some(status) =>
              var r := SignalwireReport(providerStatus, status, description, detail, now);
              && database.store == CommitReport(old(database.store), Signalwire, id, r, created, audited)
              && reply == ReportReply(old(database.store), Signalwire, id, r, audited)
  {
    var session := new Session(database);
    var status := SignalwireStatus(providerStatus);
    if status.None? {
      session.Close(false);
      return Ignored;
    }
    var deliveredAt := None;
    if status.value.Delivered? {
      deliveredAt := Some(now);
    }
    reply := ApplyStatus(session, Signalwire, id,
        Report(status.value, providerStatus, description, detail, deliveredAt), created, audited);
    session.Close(reply.ServerError?);
  }

  /**
   The loop over a Meta batch. The count is a property of the batch and of the store it started
   from: deliveries with an id, known or not, plus read receipts that found an outbound message.
   */
  method MetaStatus(database: Database, provider: Provider, items: seq<MetaItem>, created: Instant)
    returns (reply: Reply)
    requires forall k :: 0 <= k < |items| ==> PickIsNewest(database.store.messages, provider, items[k])
    modifies database
    ensures reply.UnknownProvider? <==> provider in {Postmark, Signalwire}
    ensures reply.ServerError? <==>
              && provider in {Fbmessenger, Instagram}
              && (exists k :: 0 <= k < |items|
                              && !items[k].audited
                              && NamesKnown(old(database.store).messages, provider, items[k].update))
    ensures !reply.AppliedCount? ==> database.store == old(database.store)
    ensures reply.AppliedCount? ==>
              database.store == MetaAll(old(database.store), provider, items, created)
    ensures var s := old(database.store);
            if !IsMeta(provider) then database.store == s && reply == UnknownProvider
            else if AuditsPass(s.messages, provider, items)
            then && database.store == MetaAll(s, provider, items, created)
                 && reply == AppliedCount(|CountingPositions(s.messages, provider, items)|)
            else database.store == s && reply == ServerError
  {
    hide MetaStep, StatusOnly, SameMessages, Inv, CountingPositions, NewestInThread, Counts, FindMessage;
    var session: Session := new Session(database);
    if !IsMeta(provider) {
      session.Close(true);
      return UnknownProvider;
    }
    var applied := 0;
    ghost var start := database.store;
    EmptyCount(start.messages, provider, items);
    for k := 0 to |items|
      invariant session.database == database && database.store == start
      invariant session.work == MetaAll(start, provider, items[..k], created)
      invariant AuditsPass(start.messages, provider, items[..k])
      invariant applied == |CountingPositions(start.messages, provider, items[..k])|
    {
      NextInBatch(start, provider, items, created, k);
      var it := items[k];
      ghost var before := session.work;
      match it.update {
        case DeliveredTo(mid, watermark) =>
          if mid != "" {
            var r := ApplyStatus(session, provider, mid, MetaReport(watermark, it.now), created, it.audited);
            DeliveryStep(before, provider, it, created);
            if r.ServerError? {
              assert !AuditsPass(start.messages, provider, items);
              session.Close(true);
              return ServerError;
            }
            applied := applied + 1;
          } else {
            DeliveryStep(before, provider, it, created);
          }
        case ReadUpTo(thread, watermark) =>
          ReadStep(before, provider, it, created);
          if thread != "" && it.pick.Some? {
            var i := it.pick.value;
            var message := session.work.messages[i];
            message := message.(statusDetail := Some("read_watermark=" + watermark));
            session.work := session.work.(messages := session.work.messages[i := message]);
            session.work := session.work.(events := session.work.events + [ReadEvent(i, watermark, created)]);
            applied := applied + 1;
          }
      }
    }
    assert items[..|items|] == items;
    session.Close(false);
    reply := AppliedCount(applied);
  }

  lemma EmptyCount(ms: seq<Message>, provider: Provider, items: seq<MetaItem>)
    ensures |CountingPositions(ms, provider, items[..0])| == 0 && |UnknownPositions(ms, provider, items[..0])| == 0
  {
    assert CountingPositions(ms, provider, items[..0]) == {} == UnknownPositions(ms, provider, items[..0]);
  }

  lemma NextInBatch(s: Store, provider: Provider, items: seq<MetaItem>, created: Instant, k: nat)
    requires k < |items| && PickIsNewest(s.messages, provider, items[k])
    ensures var before, ms := MetaAll(s, provider, items[..k], created), s.messages;
            && MetaAll(s, provider, items[..k + 1], created) == MetaStep(before, provider, items[k], created)
            && |CountingPositions(ms, provider, items[..k + 1])|
               == |CountingPositions(ms, provider, items[..k])|
                 + (if Counts(before.messages, provider, items[k].update) then 1 else 0)
            && PickIsNewest(before.messages, provider, items[k])
            && (forall id :: FindMessage(before.messages, provider, id) == FindMessage(ms, provider, id))
  {
    hide MetaStep, Inv, SameMessages, FindMessage, NewestInThread, Counts, CountingPositions;
    assert items[..k + 1][..k] == items[..k];
    MetaAllKeeps(s, provider, items[..k], created);
    LookupsIgnoreStatus(s.messages, MetaAll(s, provider, items[..k], created).messages, provider, items[k]);
    NextCount(s.messages, provider, items, k);
  }

  /** A batch changes none of the answers that its own loop asks of the messages. */
  lemma LookupsIgnoreStatus(a: seq<Message>, b: seq<Message>, provider: Provider, it: MetaItem)
    requires SameMessages(a, b)
    ensures PickIsNewest(a, provider, it) <==> PickIsNewest(b, provider, it)
    ensures Counts(a, provider, it.update) <==> Counts(b, provider, it.update)
    ensures forall id :: FindMessage(b, provider, id) == FindMessage(a, provider, id)
  {
    forall id
      ensures FindMessage(b, provider, id) == FindMessage(a, provider, id)
    {
      FindIgnoresStatus(a, b, provider, id);
    }
    CountsIgnoresStatus(a, b, provider, it.update);
    if it.update.ReadUpTo? {
      NewestIgnoresStatus(a, b, provider, it.update.thread, it.pick);
    }
    hide SameMessages, FindMessage, NewestInThread, Counts;
  }

  lemma NextCount(ms: seq<Message>, provider: Provider, items: seq<MetaItem>, k: nat)
    requires k < |items|
    ensures |CountingPositions(ms, provider, items[..k + 1])|
            == |CountingPositions(ms, provider, items[..k])| + (if Counts(ms, provider, items[k].update) then 1 else 0)
  {
    hide Counts;
    if Counts(ms, provider, items[k].update) {
      assert CountingPositions(ms, provider, items[..k + 1]) == CountingPositions(ms, provider, items[..k]) + {k};
    } else {
      assert CountingPositions(ms, provider, items[..k + 1]) == CountingPositions(ms, provider, items[..k]);
    }
  }

  lemma CountsIgnoresStatus(a: seq<Message>, b: seq<Message>, provider: Provider, u: MetaUpdate)
    requires SameMessages(a, b)
    ensures Counts(a, provider, u) <==> Counts(b, provider, u)
  {
    assert forall i :: 0 <= i < |a| ==> SameButStatus(a[i], b[i]);
    if u.ReadUpTo? {
      assert forall i :: 0 <= i < |a| ==>
          OutInThread(a[i], provider, u.thread) == OutInThread(b[i], provider, u.thread);
    }
  }

  lemma DeliveryStep(s: Store, provider: Provider, it: MetaItem, created: Instant)
    requires it.update.DeliveredTo?
    ensures MetaStep(s, provider, it, created)
            == if it.update.mid == "" then s
              else Apply(s, provider, it.update.mid, MetaReport(it.update.watermark, it.now), created)
    ensures Counts(s.messages, provider, it.update) <==> it.update.mid != ""
  {
  }

  lemma ReadStep(s: Store, provider: Provider, it: MetaItem, created: Instant)
    requires it.update.ReadUpTo? && PickIsNewest(s.messages, provider, it)
    ensures Counts(s.messages, provider, it.update) <==> it.update.thread != "" && it.pick.Some?
    ensures Counts(s.messages, provider, it.update) ==>
              && it.pick.value < |s.messages|
              && MetaStep(s, provider, it, created)
                 == UpdateMessage(s, it.pick.value, MarkRead(s.messages[it.pick.value], it.update.watermark),
                                  ReadEvent(it.pick.value, it.update.watermark, created))
    ensures !Counts(s.messages, provider, it.update) ==> MetaStep(s, provider, it, created) == s
  {
  }
}
