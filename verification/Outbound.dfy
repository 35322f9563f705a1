/** POST /outbound as one transaction: claim, replay, conflict, consent, two rate gates, persist. */
module Outbound {
  import opened Common
  import opened Conversation
  import opened TokenBucket
  import opened RateLimiter
  import opened Store
  import opened StoreEdits

  datatype Recipient = Person | Missing | Malformed

  /** The headers and the parsed body of one request; an absent header is the empty string. */
  datatype Request = Request(
    eventType: string,
    eventId: string,
    direction: Direction,
    provider: Provider,
    providerMessageId: string,
    threadId: Option<string>,
    content: string,
    recipient: Recipient,
    body: string,
    actorId: string,
    actorType: string,
    purpose: string,
    skipConsent: bool,
    key: string)

  datatype PositiveSettings = Settings(
    gatesOn: bool,
    actorPerMinute: nat,
    postmarkPerMinute: nat,
    signalwirePerMinute: nat,
    fbmessengerPerMinute: nat,
    instagramPerMinute: nat)

  /** Per-minute limits of at least one. */
  type Settings = s: PositiveSettings |
    s.actorPerMinute >= 1 && s.postmarkPerMinute >= 1 && s.signalwirePerMinute >= 1
    && s.fbmessengerPerMinute >= 1 && s.instagramPerMinute >= 1
    witness Settings(true, 60, 300, 60, 60, 60)

  /** What the request's calls to the clock return; `created` is the database's transaction time. */
  datatype Clock = Clock(
    arrive: Instant, claim: Instant, examine: Instant, reclaim: Instant,
    actorGate: Instant, providerGate: Instant, created: Instant, persist: Instant)
  {
    predicate Ordered() {
      && arrive <= claim <= examine <= reclaim <= actorGate <= providerGate <= persist
      && arrive <= created <= persist
    }
  }

  datatype Consent = Granted | Revoked | Unreachable

  /** The answers of the services the handler calls; false for an audit call that raises. */
  datatype Env = Env(
    clock: Clock, consent: Consent, consentAudit: bool, finalAudit: bool,
    actorWeather: Weather, providerWeather: Weather)

  datatype Response =
    | Accepted(messageId: nat)
    | Replayed(original: Option<nat>)
    | Mismatched
    | BadRequest(code: string)
    | ConsentRevoked
    | RateLimited(scope: string, retryAfter: real, header: int)
    | ServerError

  const SEND_TYPE := "cobd.multichannel.message.send"

  // ---------------------------------------------------------------- the parts of a request

  function EnvelopeError(req: Request): Option<Response> {
    if req.eventType != SEND_TYPE then Some(BadRequest("bad_type"))
    else if !req.direction.Out? then Some(BadRequest("bad_direction"))
    else if req.purpose == "" then Some(BadRequest("purpose_required"))
    else None
  }

  function Scope(req: Request): (string, string) {
    (req.actorId, req.key)
  }

  function ClaimRow(body: string, now: Instant): KeyRow {
    KeyRow(Sha256(body), None, now, now + DAY)
  }

  /** Where the idempotency stage leads: on, with the key row this request inserted, or to an answer. */
  datatype ClaimResult = Proceed(keys: map<(string, string), KeyRow>, claimed: bool) | Settled(response: Response)

  function Claim(keys: map<(string, string), KeyRow>, req: Request, clock: Clock): ClaimResult {
    var scope := Scope(req);
    if req.key == "" then Proceed(keys, false)
    else if scope !in keys then Proceed(keys[scope := ClaimRow(req.body, clock.claim)], true)
    else if keys[scope].expiresAt <= clock.examine then Proceed(keys[scope := ClaimRow(req.body, clock.reclaim)], true)
    else if keys[scope].fingerprint != Sha256(req.body) then Settled(Mismatched)
    else Settled(Replayed(keys[scope].messageId))
  }

  /** The consent stage: the answer it ends the request with, if any. */
  function ConsentError(req: Request, env: Env): Option<Response> {
    match req.recipient
    case Missing => Some(BadRequest("recipient_person_id_required"))
    case Malformed => Some(ServerError)
    case Person =>
      if req.skipConsent && req.actorType == "service" && req.purpose == "transactional-system" then
        if env.consentAudit then None else Some(ServerError)
      else
        match env.consent
        case Granted => None
        case Revoked => Some(if env.consentAudit then ConsentRevoked else ServerError)
        case Unreachable => Some(ServerError)
  }

  function ActorScope(actorId: string): string {
    "actor:" + actorId
  }

  function ProviderScope(p: Provider): string {
    "provider:" + ProviderName(p)
  }

  function ProviderPerMinute(settings: Settings, p: Provider): (n: nat)
    ensures n >= 1
  {
    match p
    case Postmark => settings.postmarkPerMinute
    case Signalwire => settings.signalwirePerMinute
    case Fbmessenger => settings.fbmessengerPerMinute
    case Instagram => settings.instagramPerMinute
  }

  datatype GateResult = Through | Blocked(scope: string, retryAfter: real) | Broken

  /** One check seen from the handler: through, blocked with a delay, or an exception. */
  function Verdict(scope: string, answer: Option<Answer>): GateResult {
    match answer
    case None => Broken
    case Some(a) => if a.allowed then Through else Blocked(scope, a.retryAfter)
  }

  function ActorGate(lim: LimiterState, settings: Settings, req: Request, env: Env): (LimiterState, GateResult) {
    var (lim', answer) := LimiterCheck(lim, ActorScope(req.actorId), PerMinute(settings.actorPerMinute),
                                       env.clock.actorGate, env.actorWeather);
    (lim', Verdict("actor", answer))
  }

  function ProviderGate(lim: LimiterState, settings: Settings, req: Request, env: Env): (LimiterState, GateResult) {
    var (lim', answer) := LimiterCheck(lim, ProviderScope(req.provider),
                                       PerMinute(ProviderPerMinute(settings, req.provider)),
                                       env.clock.providerGate, env.providerWeather);
    (lim', Verdict("provider", answer))
  }

  function Gates(lim: LimiterState, settings: Settings, req: Request, env: Env): (LimiterState, GateResult) {
    if !settings.gatesOn then (lim, Through)
    else
      var (lim', verdict) := ActorGate(lim, settings, req, env);
      if verdict.Through? then ProviderGate(lim', settings, req, env) else (lim', verdict)
  }

  /** The row an accepted request inserts. */
  function OutMessage(s: Store, req: Request, clock: Clock): Message {
    Message(Out, req.provider, if req.providerMessageId != "" then req.providerMessageId else req.eventId,
            req.threadId, DeriveConversationId(req.provider, req.threadId, s.draws), req.content,
            Some(req.purpose), Some(req.actorId), clock.created, None, Queued, None, None)
  }

  function NewItem(messageId: nat, clock: Clock): OutboxItem {
    OutboxItem(messageId, 0, None, clock.persist, clock.created, Pending)
  }

  function NextDraw(s: Store, thread: Option<string>): nat {
    if thread.None? then s.draws + 1 else s.draws
  }

  /** Message, outbox item and queued event in one go, with the claimed key naming the message. */
  function Persist(s: Store, claimed: bool, req: Request, clock: Clock): Option<Store> {
    var m, id := OutMessage(s, req, clock), |s.messages|;
    if FindMessage(s.messages, m.provider, m.providerMessageId).Some? then None
    else
      var added := AddMessage(s, m, Some(NewItem(id, clock)), PendingEvent(id, QueuedEvent, clock.created),
                              NextDraw(s, req.threadId));
      Some(if claimed && Scope(req) in s.keys
           then added.(keys := s.keys[Scope(req) := s.keys[Scope(req)].(messageId := Some(id))]) else added)
  }

  /** What the handler leaves in its session and in Redis, its answer, and whether it raised. */
  datatype Ending = Ending(work: Store, limiter: LimiterState, response: Response, raised: bool)

  /** The two gates and everything behind them. */
  function Admit(s: Store, claimed: bool, lim: LimiterState, settings: Settings, req: Request, env: Env): Ending {
    var (lim', verdict) := Gates(lim, settings, req, env);
    match verdict
    case Broken => Ending(s, lim', ServerError, true)
    case Blocked(scope, retryAfter) =>
      if !env.finalAudit then Ending(s, lim', ServerError, true)
      else Ending(if claimed then s.(keys := s.keys - {Scope(req)}) else s, lim',
                  RateLimited(scope, retryAfter, Ceil(retryAfter)), false)
    case Through =>
      match Persist(s, claimed, req, env.clock)
      case None => Ending(s, lim', ServerError, true)
      case Some(done) =>
        if env.finalAudit then Ending(done, lim', Accepted(|s.messages|), false)
        else Ending(done, lim', ServerError, true)
  }

  function Handle(s: Store, lim: LimiterState, settings: Settings, req: Request, env: Env): Ending {
    var malformed := EnvelopeError(req);
    if malformed.Some? then Ending(s, lim, malformed.value, true)
    else
      match Claim(s.keys, req, env.clock)
      case Settled(response) => Ending(s, lim, response, false)
      case Proceed(keys, claimed) =>
        var refused := ConsentError(req, env);
        if refused.Some? then Ending(s.(keys := keys), lim, refused.value, true)
        else Admit(s.(keys := keys), claimed, lim, settings, req, env)
  }

  /** The request as a transaction on the committed store. */
  function Commit(s: Store, e: Ending): Store {
    if e.raised then s else e.work
  }

  /** The key table after the deletion of every expired row. */
  function Reaped(keys: map<(string, string), KeyRow>, now: Instant): (kept: map<(string, string), KeyRow>)
    ensures forall scope :: scope in kept <==> scope in keys && now < keys[scope].expiresAt
    ensures forall scope :: scope in kept ==> kept[scope] == keys[scope]
  {
    map scope | scope in keys && keys[scope].expiresAt > now :: keys[scope]
  }

  // ---------------------------------------------------------------- what a request may change

  /** The key table afterwards is the table before, except that the caller's own expired row may be gone. */
  predicate OnlyOwnExpiredRowGone(before: Store, after: Store, req: Request, now: Instant) {
    || after == before
    || (&& Scope(req) in before.keys && before.keys[Scope(req)].expiresAt <= now
        && after == before.(keys := before.keys - {Scope(req)}))
  }

  /**
   A request that is not accepted leaves messages, items and events alone; only a 429 can touch the
   key table, and only to remove the caller's expired row; replays and conflicts consume no token.
   */
  lemma RefusalLeavesNoTrace(s: Store, lim: LimiterState, settings: Settings, req: Request, env: Env)
    requires !Handle(s, lim, settings, req, env).response.Accepted?
    ensures var e := Handle(s, lim, settings, req, env);
            && (e.response.RateLimited? ==> OnlyOwnExpiredRowGone(s, Commit(s, e), req, env.clock.examine))
            && (e.response.RateLimited? ==>
              Commit(s, e) == if req.key == "" then s else s.(keys := s.keys - {Scope(req)}))
            && (!e.response.RateLimited? ==> Commit(s, e) == s)
            && (e.response.Replayed? || e.response.Mismatched? || e.response.BadRequest? || e.response.ConsentRevoked?
                ==> e.limiter == lim)
  {
    hide Gates, Persist;
    var e := Handle(s, lim, settings, req, env);
    if e.response.RateLimited? {
      BlockedDropsRow(s, lim, settings, req, env);
    }
  }

  /** The key row of an accepted request with a key: no live row stood before, and a new one names the message. */
  predicate KeyAccepted(before: Store, after: Store, req: Request, clock: Clock) {
    var scope := Scope(req);
    && (scope in before.keys ==> before.keys[scope].expiresAt <= clock.examine)
    && scope in after.keys
    && after.keys[scope].fingerprint == Sha256(req.body) && after.keys[scope].messageId == Some(|before.messages|)
    && after.keys[scope].createdAt == (if scope in before.keys then clock.reclaim else clock.claim)
    && after.keys[scope].expiresAt == after.keys[scope].createdAt + 86400.0
    && after.keys - {scope} == before.keys - {scope}
  }

  /** A 429 takes the caller's key row along, so it leaves no trace exactly when there was none. */
  lemma BlockedDropsRow(s: Store, lim: LimiterState, settings: Settings, req: Request, env: Env)
    requires Handle(s, lim, settings, req, env).response.RateLimited?
    ensures var s' := Commit(s, Handle(s, lim, settings, req, env));
            && s' == (if req.key == "" then s else s.(keys := s.keys - {Scope(req)}))
            && (s' == s <==> req.key == "" || Scope(req) !in s.keys)
            && (req.key != "" && Scope(req) in s.keys ==> s.keys[Scope(req)].expiresAt <= env.clock.examine)
  {
    hide Gates, Persist;
    if req.key != "" {
      var claim := Claim(s.keys, req, env.clock);
      assert claim.keys - {Scope(req)} == s.keys - {Scope(req)};
      assert Scope(req) !in s.keys - {Scope(req)};
      if Scope(req) !in s.keys {
        assert s.keys - {Scope(req)} == s.keys;
      }
    }
  }

  // ---------------------------------------------------------------- which answer, and exactly when

  predicate WellFormed(req: Request) {
    req.eventType == "cobd.multichannel.message.send" && req.direction.Out? && req.purpose != ""
  }

  /** A row that still counts stands for the request's key. */
  predicate KeyIsLive(s: Store, req: Request, clock: Clock) {
    req.key != "" && (req.actorId, req.key) in s.keys && s.keys[(req.actorId, req.key)].expiresAt > clock.examine
  }

  /** A service may send its own system messages without asking for consent. */
  predicate OverridesConsent(req: Request) {
    req.skipConsent && req.actorType == "service" && req.purpose == "transactional-system"
  }

  /** A malformed envelope is answered 400 with the first thing that is wrong with it, and so is a missing recipient. */
  lemma BadRequestExactlyWhen(s: Store, lim: LimiterState, settings: Settings, req: Request, env: Env)
    ensures var r := Handle(s, lim, settings, req, env).response;
            && (r == BadRequest("bad_type") <==> req.eventType != "cobd.multichannel.message.send")
            && (r == BadRequest("bad_direction")
                <==> req.eventType == "cobd.multichannel.message.send" && req.direction.In?)
            && (r == BadRequest("purpose_required")
                <==> req.eventType == "cobd.multichannel.message.send" && req.direction.Out? && req.purpose == "")
            && (r == BadRequest("recipient_person_id_required")
                <==> WellFormed(req) && !KeyIsLive(s, req, env.clock) && req.recipient.Missing?)
            && (r.BadRequest? ==>
                  r.code in {"bad_type", "bad_direction", "purpose_required", "recipient_person_id_required"})
  {
    hide Gates, Persist;
    CodesDiffer();
  }

  lemma CodesDiffer()
    ensures "bad_type" != "bad_direction" && "bad_type" != "purpose_required"
    ensures "bad_type" != "recipient_person_id_required" && "bad_direction" != "purpose_required"
    ensures "bad_direction" != "recipient_person_id_required" && "purpose_required" != "recipient_person_id_required"
  {
    assert "bad_type"[4] == 't' && "bad_direction"[4] == 'd';
    assert "purpose_required"[0] == 'p' && "recipient_person_id_required"[0] == 'r';
  }

  /** A well-formed request is answered from its key's row exactly when the row is live. */
  lemma ReplayedExactlyWhen(s: Store, lim: LimiterState, settings: Settings, req: Request, env: Env)
    ensures var r, live := Handle(s, lim, settings, req, env).response, KeyIsLive(s, req, env.clock);
            && (r.Replayed? <==>
                  WellFormed(req) && live && s.keys[(req.actorId, req.key)].fingerprint == Sha256(req.body))
            && (r.Mismatched? <==>
                  WellFormed(req) && live && s.keys[(req.actorId, req.key)].fingerprint != Sha256(req.body))
            && (r.Replayed? ==> r.original == s.keys[(req.actorId, req.key)].messageId)
  {
    hide Gates, Persist;
  }

  /** Consent is refused exactly when it was asked for, was revoked, and the refusal was recorded. */
  lemma ConsentRevokedExactlyWhen(s: Store, lim: LimiterState, settings: Settings, req: Request, env: Env)
    ensures Handle(s, lim, settings, req, env).response.ConsentRevoked?
            <==> && WellFormed(req) && !KeyIsLive(s, req, env.clock) && req.recipient.Person?
                 && !OverridesConsent(req) && env.consent.Revoked? && env.consentAudit
  {
    hide Gates, Persist;
  }

  /** Consent was given, or overridden by a service and the override recorded. */
  predicate MaySend(req: Request, env: Env) {
    req.recipient.Person? && if OverridesConsent(req) then env.consentAudit else env.consent.Granted?
  }

  /** The two gates with their keys, limits and order written out. */
  lemma GatesWrittenOut(lim: LimiterState, settings: Settings, req: Request, env: Env)
    ensures var n := settings.actorPerMinute;
            var (m, name) := match req.provider
                             case Postmark => (settings.postmarkPerMinute, "provider:postmark")
                             case Signalwire => (settings.signalwirePerMinute, "provider:signalwire")
                             case Fbmessenger => (settings.fbmessengerPerMinute, "provider:fbmessenger")
                             case Instagram => (settings.instagramPerMinute, "provider:instagram");
            var (lim1, first) := LimiterCheck(lim, "actor:" + req.actorId, LimitParams(n as real, n as real / 60.0),
                                              env.clock.actorGate, env.actorWeather);
            var (lim2, second) := LimiterCheck(lim1, name, LimitParams(m as real, m as real / 60.0),
                                               env.clock.providerGate, env.providerWeather);
            Gates(lim, settings, req, env)
            == if !settings.gatesOn then (lim, Through)
               else if first.None? then (lim1, Broken)
               else if !first.value.allowed then (lim1, Blocked("actor", first.value.retryAfter))
               else if second.None? then (lim2, Broken)
               else if !second.value.allowed then (lim2, Blocked("provider", second.value.retryAfter))
               else (lim2, Through)
  {
    hide LimiterCheck;
    ScopeNames(req.provider);
  }

  lemma ScopeNames(p: Provider)
    ensures ProviderScope(p)
            == match p
               case Postmark => "provider:postmark"
               case Signalwire => "provider:signalwire"
               case Fbmessenger => "provider:fbmessenger"
               case Instagram => "provider:instagram"
  {
    assert "provider:" + "postmark" == "provider:postmark" && "provider:" + "signalwire" == "provider:signalwire";
    assert "provider:" + "fbmessenger" == "provider:fbmessenger" && "provider:" + "instagram" == "provider:instagram";
  }

  /** A 429 is the answer exactly when a gate blocks a request that may be sent; its header rounds the delay up. */
  lemma RateLimitedExactlyWhen(s: Store, lim: LimiterState, settings: Settings, req: Request, env: Env)
    ensures var r, verdict := Handle(s, lim, settings, req, env).response, Gates(lim, settings, req, env).1;
            && (r.RateLimited?
                <==> && WellFormed(req) && !KeyIsLive(s, req, env.clock) && MaySend(req, env)
                     && verdict.Blocked? && env.finalAudit)
            && (r.RateLimited? ==>
                  && r.scope == verdict.scope && r.retryAfter == verdict.retryAfter
                  && (r.header - 1) as real < r.retryAfter <= r.header as real)
  {
    hide Gates, Persist;
  }

  /** The gates are asked exactly by requests that may be sent, and only they change the limiter. */
  lemma LimiterAskedExactlyWhen(s: Store, lim: LimiterState, settings: Settings, req: Request, env: Env)
    ensures Handle(s, lim, settings, req, env).limiter
            == if WellFormed(req) && !KeyIsLive(s, req, env.clock) && MaySend(req, env)
               then Gates(lim, settings, req, env).0 else lim
  {
    hide Gates, Persist;
  }

  /** A request is accepted exactly when every stage lets it pass, its message is new, and the final audit succeeds. */
  lemma AcceptedExactlyWhen(s: Store, lim: LimiterState, settings: Settings, req: Request, env: Env)
    ensures Handle(s, lim, settings, req, env).response.Accepted?
            <==> && req.eventType == "cobd.multichannel.message.send" && req.direction.Out? && req.purpose != ""
                 && !KeyIsLive(s, req, env.clock) && req.recipient.Person?
                 && (if req.skipConsent && req.actorType == "service" && req.purpose == "transactional-system"
                     then env.consentAudit else env.consent.Granted?)
                 && Gates(lim, settings, req, env).1.Through?
                 && FindMessage(s.messages, req.provider,
                                if req.providerMessageId != "" then req.providerMessageId else req.eventId).None?
                 && env.finalAudit
  {
    hide Gates;
  }

  /** An accepted request adds exactly one queued message with its item and event, and its key row if it had a key. */
  lemma AcceptedAddsOneMessage(s: Store, lim: LimiterState, settings: Settings, req: Request, env: Env)
    requires Handle(s, lim, settings, req, env).response.Accepted?
    ensures var e := Handle(s, lim, settings, req, env);
            var id, s', m := |s.messages|, Commit(s, e), OutMessage(s, req, env.clock);
            && EnvelopeError(req).None? && ConsentError(req, env).None?
            && FindMessage(s.messages, m.provider, m.providerMessageId).None?
            && e.response == Accepted(id)
            && s'.messages == s.messages + [m]
            && m == Message(Out, req.provider, if req.providerMessageId != "" then req.providerMessageId
              else req.eventId,
                            req.threadId, DeriveConversationId(req.provider, req.threadId, s.draws), req.content,
                            Some(req.purpose), Some(req.actorId), env.clock.created, None, Queued, None, None)
            && s'.draws == (if req.threadId.None? then s.draws + 1 else s.draws)
            && s'.items == s.items + [OutboxItem(id, 0, None, env.clock.persist, env.clock.created, Pending)]
            && s'.events == s.events + [EventRow(id, QueuedEvent, env.clock.created, Pending, None)]
            && (if req.key == "" then s'.keys == s.keys else KeyAccepted(s, s', req, env.clock))
            && (settings.gatesOn ==> Gates(lim, settings, req, env) == (e.limiter, Through))
  {
    hide Gates;
  }

  /** A live key is answered from its row: 200 with the original message for the same body, 422 for another. */
  lemma LiveKeyAnswers(s: Store, lim: LimiterState, settings: Settings, req: Request, env: Env)
    requires EnvelopeError(req).None? && req.key != ""
    requires Scope(req) in s.keys && s.keys[Scope(req)].expiresAt > env.clock.examine
    ensures var row := s.keys[Scope(req)];
            Handle(s, lim, settings, req, env)
            == Ending(s, lim, if row.fingerprint == Sha256(req.body) then Replayed(row.messageId)
              else Mismatched, false)
  {
    hide Gates, Persist;
  }

  /** Every committed request keeps the store invariant. */
  lemma HandleKeepsInv(s: Store, lim: LimiterState, settings: Settings, req: Request, env: Env)
    requires Inv(s)
    ensures Inv(Commit(s, Handle(s, lim, settings, req, env)))
  {
    hide Gates, Persist, Inv;
    var e := Handle(s, lim, settings, req, env);
    if e.response.Accepted? {
      PersistKeepsInv(s, lim, settings, req, env);
    } else {
      RefusalLeavesNoTrace(s, lim, settings, req, env);
      DropKeysKeepsInv(s, {Scope(req)});
    }
  }

  lemma PersistKeepsInv(s: Store, lim: LimiterState, settings: Settings, req: Request, env: Env)
    requires Inv(s) && Handle(s, lim, settings, req, env).response.Accepted?
    ensures Inv(Commit(s, Handle(s, lim, settings, req, env)))
  {
    hide Gates, Inv;
    AcceptedAddsOneMessage(s, lim, settings, req, env);
    var s' := Commit(s, Handle(s, lim, settings, req, env));
    var m, id := OutMessage(s, req, env.clock), |s.messages|;
    var item, event := NewItem(id, env.clock), PendingEvent(id, QueuedEvent, env.clock.created);
    AddMessageKeepsInv(s, m, Some(item), event, NextDraw(s, req.threadId));
    var added := AddMessage(s, m, Some(item), event, NextDraw(s, req.threadId));
    if req.key != "" {
      var scope := Scope(req);
      NamedKeyKeepsInv(s, added, scope, s'.keys[scope]);
      assert s'.keys == s.keys[scope := s'.keys[scope]] by {
        assert s'.keys - {scope} == s.keys - {scope};
      }
      assert s' == added.(keys := s.keys[scope := s'.keys[scope]]);
    } else {
      assert s' == added;
    }
  }

  lemma NamedKeyKeepsInv(s: Store, added: Store, scope: (string, string), row: KeyRow)
    requires Inv(s) && Inv(added) && added.keys == s.keys
    requires row.messageId == Some(|s.messages|) && KeyNamesMessage(added.messages, scope, row)
    ensures Inv(added.(keys := s.keys[scope := row]))
  {
    forall other | other in added.keys && other != scope
      ensures added.keys[other].messageId != row.messageId
    {
      assert KeyNamesMessage(s.messages, other, s.keys[other]);
    }
    NameKeyKeepsInv(added, scope, row);
  }
}
