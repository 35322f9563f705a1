/** The handler itself, statement by statement, proved to compute the transaction that Outbound specifies. */
module OutboundHandler {
  import opened Common
  import opened TokenBucket
  import opened RateLimiter
  import opened Store
  import opened Runtime
  import opened Outbound

  /** One gate of the loop: the Redis key, the per-minute limit, the scope name, and its outside world. */
  datatype Gate = Gate(key: string, perMinute: nat, scope: string, now: Instant, weather: Weather)

  /**
   Select the key row, or insert a new one. When another transaction has taken the unique index in the
   meantime, the insert fails, the session rolls back, and what the second select finds is returned.
   */
  method ClaimKey(session: Session, scope: (string, string), fingerprint: Fingerprint, now: Instant, taken: bool)
    returns (existing: Option<KeyRow>, wasNew: bool)
    modifies session`work
    ensures wasNew <==> scope !in old(session.work).keys && !taken
    ensures wasNew ==>
              && existing == Some(KeyRow(fingerprint, None, now, now + DAY))
              && session.work == old(session.work).(keys := old(session.work).keys[scope := existing.value])
    ensures !wasNew ==>
              && session.work == (if scope in old(session.work).keys then old(session.work) else session.database.store)
              && existing == (if scope in session.work.keys then Some(session.work.keys[scope]) else None)
  {
    if scope in session.work.keys {
      return Some(session.work.keys[scope]), false;
    }
    if taken {
      session.Rollback();
      return if scope in session.work.keys then Some(session.work.keys[scope]) else None, false;
    }
    var row := KeyRow(fingerprint, None, now, now + DAY);
    session.work := session.work.(keys := session.work.keys[scope := row]);
    return Some(row), true;
  }

  method DeleteKey(session: Session, scope: (string, string))
    modifies session`work
    ensures session.work == old(session.work).(keys := old(session.work).keys - {scope})
  {
    session.work := session.work.(keys := session.work.keys - {scope});
  }

  /**
   The idempotency stage; `settled` holds the answer when the request ends here. No other transaction
   comes in between, so the index is never taken; ConcurrentClaims has the stage with interruptions.
   */
  method ClaimStage(session: Session, req: Request, clock: Clock)
    returns (settled: Option<Response>, claimed: bool)
    modifies session`work
    ensures var s := old(session.work);
            match Claim(s.keys, req, clock)
            case Settled(response) => settled == Some(response) && session.work == s
            case Proceed(keys, mine) => settled.None? && session.work == s.(keys := keys) && claimed == mine
  {
    settled, claimed := None, false;
    if req.key != "" {
      var fingerprint := Sha256(req.body);
      var existing, wasNew := ClaimKey(session, Scope(req), fingerprint, clock.claim, false);
      if existing.Some? && !wasNew {
        if existing.value.expiresAt <= clock.examine {
          DeleteKey(session, Scope(req));
          existing, wasNew := ClaimKey(session, Scope(req), fingerprint, clock.reclaim, false);
          assert (old(session.work).keys - {Scope(req)})[Scope(req) := existing.value]
              == old(session.work).keys[Scope(req) := existing.value];
        } else if existing.value.fingerprint != fingerprint {
          return Some(Mismatched), false;
        } else {
          return Some(Replayed(existing.value.messageId)), false;
        }
      }
      if existing.Some? && wasNew {
        claimed := true;
      }
    }
  }

  method GateLoop(limiter: Limiter, settings: Settings, req: Request, env: Env) returns (verdict: GateResult)
    modifies limiter, limiter.redis
    ensures (limiter.State(), verdict) == Gates(old(limiter.State()), settings, req, env)
  {
    hide LimiterCheck;
    if settings.gatesOn {
      var gates := [
        Gate(ActorScope(req.actorId), settings.actorPerMinute, "actor", env.clock.actorGate, env.actorWeather),
        Gate(ProviderScope(req.provider), ProviderPerMinute(settings, req.provider), "provider",
             env.clock.providerGate, env.providerWeather)];
      ghost var start := limiter.State();
      for i := 0 to |gates|
        invariant i == 0 ==> limiter.State() == start
        invariant i == 1 ==> (limiter.State(), Through) == ActorGate(start, settings, req, env)
        invariant i == 2 ==> (limiter.State(), Through) == Gates(start, settings, req, env)
      {
        var gate := gates[i];
        var answer := limiter.TryTake(gate.key, PerMinute(gate.perMinute), gate.now, gate.weather);
        if answer.None? {
          return Broken;
        }
        if !answer.value.allowed {
          return Blocked(gate.scope, answer.value.retryAfter);
        }
      }
    }
    return Through;
  }

  method PersistStage(session: Session, claimed: bool, req: Request, clock: Clock) returns (messageId: Option<nat>)
    requires claimed ==> Scope(req) in session.work.keys
    modifies session`work
    ensures match Persist(old(session.work), claimed, req, clock)
            case None => messageId == None
            case Some(done) => messageId == Some(|old(session.work).messages|) && session.work == done
  {
    var s := session.work;
    var inserted := InsertMessage(s.(draws := NextDraw(s, req.threadId)), OutMessage(s, req, clock));
    if inserted.None? {
      return None;
    }
    var id := |s.messages|;
    session.work := inserted.value;
    if claimed {
      var named := session.work.keys[Scope(req)].(messageId := Some(id));
      session.work := session.work.(keys := session.work.keys[Scope(req) := named]);
    }
    session.work := session.work.(items := session.work.items
        + [OutboxItem(id, 0, None, clock.persist, clock.created, Pending)]);
    session.work := session.work.(events := session.work.events + [PendingEvent(id, QueuedEvent, clock.created)]);
    return Some(id);
  }

  method EnqueueOutbound(session: Session, limiter: Limiter, settings: Settings, req: Request, env: Env)
    returns (response: Response, raised: bool)
    modifies session`work, limiter, limiter.redis
    ensures Ending(session.work, limiter.State(), response, raised)
         == Handle(old(session.work), old(limiter.State()), settings, req, env).(work := session.work)
    ensures !raised ==>
              session.work == Handle(old(session.work), old(limiter.State()), settings, req, env).work
  {
    hide Gates, Persist;
    if req.eventType != SEND_TYPE {
      return BadRequest("bad_type"), true;
    }
    if !req.direction.Out? {
      return BadRequest("bad_direction"), true;
    }
    if req.purpose == "" {
      return BadRequest("purpose_required"), true;
    }
    var settled, claimed := ClaimStage(session, req, env.clock);
    if settled.Some? {
      return settled.value, false;
    }
    if req.recipient.Missing? {
      return BadRequest("recipient_person_id_required"), true;
    }
    if req.recipient.Malformed? {
      return ServerError, true;
    }
    var skip := req.skipConsent && req.actorType == "service" && req.purpose == "transactional-system";
    if skip {
      if !env.consentAudit {
        return ServerError, true;
      }
    } else {
      if env.consent.Unreachable? {
        return ServerError, true;
      }
      if env.consent.Revoked? {
        return if env.consentAudit then ConsentRevoked else ServerError, true;
      }
    }
    var verdict := GateLoop(limiter, settings, req, env);
    if verdict.Broken? {
      return ServerError, true;
    }
    if verdict.Blocked? {
      if !env.finalAudit {
        return ServerError, true;
      }
      if claimed {
        DeleteKey(session, Scope(req));
      }
      return RateLimited(verdict.scope, verdict.retryAfter, Ceil(verdict.retryAfter)), false;
    }
    var id := PersistStage(session, claimed, req, env.clock);
    if id.None? || !env.finalAudit {
      return ServerError, true;
    }
    return Accepted(id.value), false;
  }

  /** The request behind the session dependency: the committed store moves by exactly one transaction. */
  method PostOutbound(database: Database, limiter: Limiter, settings: Settings, req: Request, env: Env)
    returns (response: Response)
    modifies database, limiter, limiter.redis
    ensures var e := Handle(old(database.store), old(limiter.State()), settings, req, env);
            && response == e.response
            && limiter.State() == e.limiter
            && database.store == Commit(old(database.store), e)
  {
    hide Handle;
    var session := new Session(database);
    var raised;
    response, raised := EnqueueOutbound(session, limiter, settings, req, env);
    session.Close(raised);
  }

  /** DELETE of every key row that has expired. */
  method ReapExpired(database: Database, now: Instant)
    modifies database
    ensures database.store == old(database.store).(keys := Reaped(old(database.store).keys, now))
    ensures forall scope :: scope in database.store.keys
                            <==> scope in old(database.store).keys && now < old(database.store).keys[scope].expiresAt
  {
    var keys := database.store.keys;
    var expired := set scope | scope in keys && keys[scope].expiresAt <= now;
    database.store := database.store.(keys := keys - expired);
    assert keys - expired == Reaped(keys, now);
  }
}
