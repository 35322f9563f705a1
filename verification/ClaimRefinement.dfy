/** The claim stage of a serial request is what the interleaved statements do when nobody else runs. */
module ClaimRefinement {
  import opened Common
  import opened RateLimiter
  import opened Store
  import opened Outbound
  import CC = ConcurrentClaims

  /** The key's row in the serial key table and in the interleaved model. */
  predicate SameRow(keys: map<(string, string), KeyRow>, scope: (string, string), row: Option<CC.Row>) {
    match row
    case None => scope !in keys
    case Some(r) => scope in keys && SameContent(keys[scope], r)
  }

  predicate SameContent(k: KeyRow, r: CC.Row) {
    k.fingerprint == r.fingerprint && k.messageId == r.message && k.expiresAt == r.expiresAt
  }

  /** Nobody else has an undecided change to the key row. */
  predicate Alone(s: CC.State, i: nat) {
    i < |s.txs| && forall j :: 0 <= j < |s.txs| ==> s.txs[j].mine.None? && s.txs[j].deleted.None?
  }

  /** The statements one request runs up to the end of its claim stage. */
  function Statements(s: CC.State, i: nat, clock: Clock): seq<CC.Action> {
    if s.row.None? then [CC.Select(i), CC.Insert(i, clock.claim)]
    else if s.row.value.expiresAt <= clock.examine
    then [CC.Select(i), CC.Examine(i, clock.examine), CC.Delete(i), CC.Select(i), CC.Insert(i, clock.reclaim)]
    else [CC.Select(i), CC.Examine(i, clock.examine)]
  }

  /** What a live row answers to a request with this fingerprint. */
  function Answered(row: CC.Row, fingerprint: Fingerprint): CC.Outcome {
    if row.fingerprint != fingerprint then CC.Mismatched else CC.Replayed(row.message)
  }

  /** One transaction moved, and nothing that others can see. */
  predicate OnlyOneMoved(s: CC.State, s': CC.State, i: nat) {
    && i < |s.txs| && |s'.txs| == |s.txs| && s'.txs == s.txs[i := s'.txs[i]]
    && s'.row == s.row && s'.saved == s.saved && s'.nextMessage == s.nextMessage
  }

  lemma SoloRunIsValid(s: CC.State, i: nat, clock: Clock)
    requires Alone(s, i) && s.txs[i].phase == CC.Selecting(false) && s.clock <= clock.arrive && clock.Ordered()
    ensures CC.ValidRun(s, Statements(s, i, clock))
    ensures OnlyOneMoved(s, CC.End(s, Statements(s, i, clock)), i)
    ensures var t, t' := s.txs[i], CC.End(s, Statements(s, i, clock)).txs[i];
            var now := if s.row.Some? then clock.reclaim else clock.claim;
            if s.row.Some? && s.row.value.expiresAt > clock.examine
            then t' == t.(phase := CC.Ended(Answered(s.row.value, t.fingerprint)))
            else t' == t.(phase := CC.Working, mine := Some(CC.Row(s.nextRow, t.fingerprint, None, now + DAY)),
                          deleted := if s.row.Some? then Some(s.row.value.id) else None)
  {
    hide CC.ValidRun, CC.End, CC.Next, CC.Enabled;
    if s.row.None? {
      assert s.txs[i].deleted.None?;
      SoloInsert(s, i, clock.claim);
    } else {
      SoloExamine(s, i, clock);
    }
  }

  lemma SoloInsert(s: CC.State, i: nat, now: Instant)
    requires Alone(s, i) && s.txs[i].phase == CC.Selecting(false) && s.row.None? && s.clock <= now
    ensures var actions := [CC.Select(i), CC.Insert(i, now)];
            && CC.ValidRun(s, actions) && OnlyOneMoved(s, CC.End(s, actions), i)
            && CC.End(s, actions).txs
               == s.txs[i := s.txs[i].(phase := CC.Working,
                                       mine := Some(CC.Row(s.nextRow, s.txs[i].fingerprint, None, now + DAY)))]
  {
    hide CC.ValidRun, CC.End, CC.Next, CC.Enabled;
    var actions := CC.ClaimsFirst(s, i, now);
  }

  lemma SoloExamine(s: CC.State, i: nat, clock: Clock)
    requires Alone(s, i) && s.txs[i].phase == CC.Selecting(false) && s.row.Some?
    requires s.clock <= clock.examine <= clock.reclaim
    ensures CC.ValidRun(s, Statements(s, i, clock)) && OnlyOneMoved(s, CC.End(s, Statements(s, i, clock)), i)
    ensures var t, s' := s.txs[i], CC.End(s, Statements(s, i, clock));
            if s.row.value.expiresAt > clock.examine
            then s'.txs == s.txs[i := t.(phase := CC.Ended(Answered(s.row.value, t.fingerprint)))]
            else s'.txs == s.txs[i := t.(phase := CC.Working, deleted := Some(s.row.value.id),
                                         mine := Some(CC.Row(s.nextRow, t.fingerprint, None, clock.reclaim + DAY)))]
  {
    hide CC.ValidRun, CC.End, CC.Next, CC.Enabled;
    if s.row.value.expiresAt <= clock.examine {
      SoloExpired(s, i, clock);
    } else {
      SoloLook(s, i, clock.examine);
    }
  }

  lemma SoloExpired(s: CC.State, i: nat, clock: Clock)
    requires Alone(s, i) && s.txs[i].phase == CC.Selecting(false) && s.row.Some?
    requires s.clock <= clock.examine <= clock.reclaim && s.row.value.expiresAt <= clock.examine
    ensures CC.ValidRun(s, Statements(s, i, clock))
    ensures var t := s.txs[i];
            CC.End(s, Statements(s, i, clock))
            == s.(txs := s.txs[i := t.(phase := CC.Working, deleted := Some(s.row.value.id),
                                       mine := Some(CC.Row(s.nextRow, t.fingerprint, None, clock.reclaim + DAY)))],
                  nextRow := s.nextRow + 1, clock := clock.reclaim)
  {
    hide CC.ValidRun, CC.End, CC.Next, CC.Enabled, CC.AllWithin;
    var seen := CC.SeesExpired(s, i, clock.examine);
    var claimed := CC.ClaimsAnew(CC.End(s, seen), i, clock.reclaim);
    CC.Concatenate(s, seen, claimed);
    assert seen + claimed == Statements(s, i, clock);
  }

  lemma SoloLook(s: CC.State, i: nat, now: Instant)
    requires Alone(s, i) && s.txs[i].phase == CC.Selecting(false) && s.row.Some?
    requires s.clock <= now < s.row.value.expiresAt
    ensures var actions := [CC.Select(i), CC.Examine(i, now)];
            && CC.ValidRun(s, actions) && OnlyOneMoved(s, CC.End(s, actions), i)
            && CC.End(s, actions).txs
               == s.txs[i := s.txs[i].(phase := CC.Ended(Answered(s.row.value, s.txs[i].fingerprint)))]
  {
    CC.NoSteps(s);
    hide CC.ValidRun, CC.End;
    CC.Extend(s, [], CC.Select(i));
    assert [] + [CC.Select(i)] == [CC.Select(i)];
    assert CC.End(s, [CC.Select(i)]).txs == s.txs[i := s.txs[i].(phase := CC.Examining(s.row.value))];
    CC.Extend(s, [CC.Select(i)], CC.Examine(i, now));
    assert [CC.Select(i)] + [CC.Examine(i, now)] == [CC.Select(i), CC.Examine(i, now)];
  }

  /**
   Run alone, the statements end where the serial claim stage ends: with the same replay or 422, or
   holding the same new row; and that row is what the transaction's commit makes of the key.
   */
  lemma SoloRequestIsClaim(keys: map<(string, string), KeyRow>, req: Request, clock: Clock, s: CC.State, i: nat)
    requires req.key != "" && clock.Ordered() && SameRow(keys, Scope(req), s.row)
    requires Alone(s, i) && s.txs[i].phase == CC.Selecting(false) && s.clock <= clock.arrive
    requires s.txs[i].fingerprint == Sha256(req.body)
    ensures CC.ValidRun(s, Statements(s, i, clock)) && i < |CC.End(s, Statements(s, i, clock)).txs|
    ensures var t := CC.End(s, Statements(s, i, clock)).txs[i];
            match Claim(keys, req, clock)
            case Settled(response) =>
              t.phase == CC.Ended(if response.Replayed? then CC.Replayed(response.original) else CC.Mismatched)
            case Proceed(keys', claimed) =>
              claimed && t.phase.Working? && t.mine.Some? && SameRow(keys', Scope(req), t.mine)
  {
    SoloRunIsValid(s, i, clock);
  }

  // ---------------------------------------------------------------- the whole request

  /** The statements that follow the claim stage, by how the request is answered. */
  function Rest(i: nat, response: Response): seq<CC.Action> {
    match response
    case Accepted(_) => [CC.Persist(i), CC.Commit(i)]
    case RateLimited(_, _, _) => [CC.RateLimit(i)]
    case Replayed(_) => []
    case Mismatched => []
    case BadRequest(_) => [CC.Fail(i)]
    case ConsentRevoked => [CC.Fail(i)]
    case ServerError => [CC.Fail(i)]
  }

  function OutcomeOf(response: Response): CC.Outcome {
    match response
    case Accepted(messageId) => CC.Accepted(messageId)
    case RateLimited(_, _, _) => CC.RateLimited
    case Replayed(original) => CC.Replayed(original)
    case Mismatched => CC.Mismatched
    case BadRequest(_) => CC.Errored
    case ConsentRevoked => CC.Errored
    case ServerError => CC.Errored
  }

  /** The interleaved state stands for the store, as far as this request's key and message go. */
  predicate StandsFor(s: Store, req: Request, cs: CC.State, i: nat) {
    && Alone(cs, i) && (forall j :: 0 <= j < |cs.txs| ==> !cs.txs[j].phase.Persisted?)
    && SameRow(s.keys, Scope(req), cs.row) && cs.nextMessage == |s.messages|
    && cs.txs[i].fingerprint == Sha256(req.body)
    && (cs.txs[i].external in cs.saved
        <==> FindMessage(s.messages, req.provider,
                         if req.providerMessageId != "" then req.providerMessageId else req.eventId).Some?)
  }

  lemma SoloRest(s: CC.State, i: nat, response: Response)
    requires i < |s.txs| && s.txs[i].phase.Working? && (forall j :: 0 <= j < |s.txs| ==> !s.txs[j].phase.Persisted?)
    requires !response.Replayed? && !response.Mismatched?
    requires response.Accepted? ==> s.txs[i].external !in s.saved && response.messageId == s.nextMessage
    ensures CC.ValidRun(s, Rest(i, response))
    ensures var t, s' := s.txs[i], CC.End(s, Rest(i, response));
            && |s'.txs| == |s.txs| && s'.txs[i].phase == CC.Ended(OutcomeOf(response))
            && s'.row == (if response.RateLimited? then CC.AfterDelete(s, t)
                          else if !response.Accepted? then s.row
                          else if t.mine.Some? then Some(t.mine.value.(message := Some(s.nextMessage)))
                          else CC.AfterDelete(s, t))
  {
    if response.Accepted? {
      var actions := CC.Completes(s, i);
    } else {
      var last := if response.RateLimited? then CC.RateLimit(i) else CC.Fail(i);
      CC.NoSteps(s);
      hide CC.ValidRun, CC.End;
      CC.Extend(s, [], last);
      assert [] + [last] == Rest(i, response);
    }
  }

  /**
   Run alone, a request with a key ends as the transaction of the serial model does: with the same
   answer, and leaving the row for its key that the transaction's commit leaves.
   */
  lemma SoloRequestIsTransaction(s: Store, lim: LimiterState, settings: Settings, req: Request, env: Env,
                                 cs: CC.State, i: nat)
    requires EnvelopeError(req).None? && req.key != "" && env.clock.Ordered()
    requires StandsFor(s, req, cs, i) && cs.txs[i].phase == CC.Selecting(false) && cs.clock <= env.clock.arrive
    ensures var e := Handle(s, lim, settings, req, env);
            var run := Statements(cs, i, env.clock) + Rest(i, e.response);
            && CC.ValidRun(cs, run) && |CC.End(cs, run).txs| == |cs.txs|
            && CC.End(cs, run).txs[i].phase == CC.Ended(OutcomeOf(e.response))
            && SameRow(Commit(s, e).keys, Scope(req), CC.End(cs, run).row)
  {
    hide CC.ValidRun, CC.End, CC.Next, CC.Enabled, Handle, Gates;
    var e, first := Handle(s, lim, settings, req, env), Statements(cs, i, env.clock);
    SoloRunIsValid(cs, i, env.clock);
    var cs1 := CC.End(cs, first);
    AnswerAfterClaim(s, lim, settings, req, env);
    if e.response.Replayed? || e.response.Mismatched? {
      assert first + Rest(i, e.response) == first;
    } else {
      SoloRest(cs1, i, e.response);
      CC.Concatenate(cs, first, Rest(i, e.response));
      if e.response.Accepted? {
        assert Scope(req) in Commit(s, e).keys;
      } else if e.response.RateLimited? {
        assert Scope(req) !in Commit(s, e).keys;
      }
    }
  }

  /** What the serial model says of the answer and the key row, in the terms used here. */
  lemma AnswerAfterClaim(s: Store, lim: LimiterState, settings: Settings, req: Request, env: Env)
    requires EnvelopeError(req).None? && req.key != ""
    ensures var e, scope := Handle(s, lim, settings, req, env), Scope(req);
            var live := scope in s.keys && s.keys[scope].expiresAt > env.clock.examine;
            && (live ==> Commit(s, e) == s)
            && (live ==>
                  e.response == if s.keys[scope].fingerprint == Sha256(req.body) then Replayed(s.keys[scope].messageId)
                                else Mismatched)
            && (!live ==> !e.response.Replayed? && !e.response.Mismatched?)
            && (e.response.Accepted? ==>
                  && e.response.messageId == |s.messages| && KeyAccepted(s, Commit(s, e), req, env.clock)
                  && FindMessage(s.messages, req.provider,
                                 if req.providerMessageId != "" then req.providerMessageId else req.eventId).None?)
            && (e.response.RateLimited? ==> Commit(s, e).keys == s.keys - {scope})
            && (!e.response.Accepted? && !e.response.RateLimited? ==> Commit(s, e) == s)
  {
    hide Handle, Gates;
    var e := Handle(s, lim, settings, req, env);
    ReplayedExactlyWhen(s, lim, settings, req, env);
    if e.response.Accepted? {
      AcceptedAddsOneMessage(s, lim, settings, req, env);
    } else {
      RefusalLeavesNoTrace(s, lim, settings, req, env);
    }
  }
}
