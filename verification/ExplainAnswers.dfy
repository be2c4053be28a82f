/** What the explain endpoint answers, told from the requests and answers before. */
module ExplainAnswers {
  import opened Options
  import opened RedisStore
  import opened RateLimit
  import opened ExplainPayload
  import opened ExplainEndpoint
  import opened ExplainQuota

  /** A text that was stored, and when. */
  datatype Kept = Kept(text: string, done: real)

  /** The last text that was answered to an equal payload as the model's own, and could be stored. */
  function LatestKept(cfg: Config, at: real, requests: seq<Request>, payload: Fields): Option<Kept>
  {
    if requests == [] then None else
    var front, r := requests[..|requests| - 1], requests[|requests| - 1];
    var answer := Serve(cfg, After(cfg, at, front), r).1;
    if r.payload == Ok(payload) && answer.Explained? && !answer.cached && cfg.ttl > 0 && !r.storeFails
    then Some(Kept(answer.text, After(cfg, at, requests).now))
    else LatestKept(cfg, at, front, payload)
  }

  /** The limit is used up, by earlier requests of the same user and full hour whose INCR was executed. */
  predicate UsedUp(cfg: Config, at: real, requests: seq<Request>, r: Request)
  {
    cfg.limit > 0 && !r.rateFault.IncrFault? &&
    CountedInHour(cfg, at, requests, r.user, HourOf(After(cfg, at, requests).now + r.gap)) >= cfg.limit
  }

  /** The text for the payload that is still fresh when the request is received, if the lookup works. */
  function FreshText(cfg: Config, at: real, requests: seq<Request>, r: Request, payload: Fields): Option<string>
  {
    var kept := LatestKept(cfg, at, requests, payload);
    if !r.lookupFails && kept.Some? && After(cfg, at, requests).now + r.gap < kept.value.done + cfg.ttl as real
    then Some(kept.value.text) else None
  }

  function ModelAnswer(reply: ModelReply): Response
  {
    match reply
    case TimedOut => UpstreamFailed
    case TransportError => UpstreamFailed
    case HttpStatus(code) => if code == 429 then UpstreamThrottled else UpstreamFailed
    case Body(json) =>
      match ResponseText(json)
      case Ok(text) => Explained(text, false)
      case Err(_) => UpstreamFailed
  }

  /** What the request is to be answered. */
  function DueAnswer(cfg: Config, at: real, requests: seq<Request>, r: Request): Response
  {
    if !cfg.enabled then Disabled else
    match r.payload
    case Err(e) => Malformed(e)
    case Ok(payload) =>
      if UsedUp(cfg, at, requests, r) then RateLimited else
      match FreshText(cfg, at, requests, r, payload)
      case Some(text) => Explained(text, true)
      case None => ModelAnswer(r.reply)
  }

  /** The model was asked. */
  predicate AsksModel(cfg: Config, at: real, requests: seq<Request>, r: Request)
  {
    cfg.enabled && r.payload.Ok? && !UsedUp(cfg, at, requests, r) &&
    FreshText(cfg, at, requests, r, r.payload.value).None?
  }

  // ---- the counter ----

  lemma NextCount(limit: int, at: real, steps: seq<Step>, s: Server, user: int)
    requires limit > 0 && Simulates(limit, at, steps, s)
    ensures Incremented(s.rates, RateKey(user, Bucket(s.now)), s.now) ==
            Count(Run(limit, at, steps).calls, CountedFor(RateKey(user, Bucket(s.now)))) + 1
  {
    var called := OneCall(limit, at, steps, user, NoFault);
    hide Run, Timely, Count, Incremented;
  }

  /** The next INCR counts the requests of the hour so far. */
  lemma CounterIs(cfg: Config, at: real, requests: seq<Request>, r: Request)
    requires cfg.limit > 0 && AllWellTimed(requests) && WellTimed(r)
    ensures var s := After(cfg, at, requests);
            var hour := HourOf(s.now + r.gap);
            Incremented(s.rates, RateKey(r.user, Bucket(s.now + r.gap)), s.now + r.gap) ==
            CountedInHour(cfg, at, requests, r.user, hour) + 1
  {
    var s := After(cfg, at, requests);
    var steps := RunsSimulate(cfg, at, requests);
    var hour := HourOf(s.now + r.gap);
    assert Count(Run(cfg.limit, at, steps).calls, CountedFor(RateKey(r.user, hour))) ==
           CountedInHour(cfg, at, requests, r.user, hour);
    assert Bucket(s.now + r.gap) == hour;
    hide After, Simulates, SameCalls, Count, Incremented, Bucket, HourOf, Timely;
    TickSimulates(cfg.limit, at, steps, s, r.gap);
    RunStep(cfg.limit, at, steps, Tick(r.gap));
    NextCount(cfg.limit, at, steps + [Tick(r.gap)], s.(now := s.now + r.gap), r.user);
    hide Run;
  }

  lemma LimitedIffUsedUp(cfg: Config, at: real, requests: seq<Request>, r: Request)
    requires AllWellTimed(requests) && WellTimed(r)
    ensures var s := After(cfg, at, requests);
            RateReply(cfg.limit, s.rates, r.user, s.now + r.gap, r.rateFault).allowed <==> !UsedUp(cfg, at, requests, r)
  {
    if cfg.limit > 0 {
      CounterIs(cfg, at, requests, r);
    }
    hide After, Incremented, CountedInHour;
  }

  // ---- the cache ----

  /** The cache entry of a payload is the last text stored for it. */
  ghost predicate Holds(cache: Keyspace<Fields, string>, payload: Fields, kept: Option<Kept>, ttl: int)
  {
    match kept
    case Some(k) => payload in cache && cache[payload] == Entry(k.text, Some(k.done + ttl as real)) && k.text != ""
    case None => payload !in cache
  }

  /** What one request does to the cache entry of a payload. */
  lemma ServeHolds(cfg: Config, s: Server, r: Request, payload: Fields, kept: Option<Kept>)
    requires Holds(s.cache, payload, kept, cfg.ttl)
    ensures var (s', answer) := Serve(cfg, s, r);
            Holds(s'.cache, payload,
                  if r.payload == Ok(payload) && answer.Explained? && !answer.cached && cfg.ttl > 0 && !r.storeFails
                  then Some(Kept(answer.text, s'.now)) else kept, cfg.ttl)
  {
    ModelTextNotEmpty(r.reply);
    hide ModelText, RateAfter, RateReply;
  }

  lemma {:induction false} CacheIsLatestKept(cfg: Config, at: real, requests: seq<Request>, payload: Fields)
    ensures Holds(After(cfg, at, requests).cache, payload, LatestKept(cfg, at, requests, payload), cfg.ttl)
  {
    if requests != [] {
      var front, r := requests[..|requests| - 1], requests[|requests| - 1];
      CacheIsLatestKept(cfg, at, front, payload);
      ServeHolds(cfg, After(cfg, at, front), r, payload, LatestKept(cfg, at, front, payload));
      hide Serve, Holds;
    }
  }

  lemma LookupIsFresh(cfg: Config, at: real, requests: seq<Request>, r: Request, payload: Fields)
    ensures var s := After(cfg, at, requests);
            Lookup(s.cache, payload, s.now + r.gap, r.lookupFails) == FreshText(cfg, at, requests, r, payload)
    ensures FreshText(cfg, at, requests, r, payload) != Some("")
  {
    CacheIsLatestKept(cfg, at, requests, payload);
    hide After, LatestKept;
  }

  // ---- the answer ----

  lemma ServeAnswers(cfg: Config, s: Server, r: Request, limited: bool, found: Option<string>)
    requires RateReply(cfg.limit, s.rates, r.user, s.now + r.gap, r.rateFault).allowed <==> !limited
    requires found != Some("")
    requires r.payload.Ok? ==> Lookup(s.cache, r.payload.value, s.now + r.gap, r.lookupFails) == found
    ensures cfg.enabled && r.payload.Ok? ==>
              Serve(cfg, s, r).1 == if limited then RateLimited
                                    else if found.Some? then Explained(found.value, true) else ModelAnswer(r.reply)
    ensures cfg.enabled && r.payload.Err? ==> Serve(cfg, s, r).1 == Malformed(r.payload.error)
    ensures !cfg.enabled ==> Serve(cfg, s, r).1 == Disabled
    ensures Serve(cfg, s, r).0.now == s.now + r.gap + (if cfg.enabled && r.payload.Ok? && !limited && found.None?
                                                       then r.modelTime else 0.0)
  {
    hide Lookup, RateReply, RateAfter, CacheAfter, ResponseText;
  }

  /** In every sequential run a request is answered as it is due: a well-formed one of an enabled service is limited
      exactly if the limit is used up, and else explained, by the fresh stored text or by the model. Only a model call
      takes time. */
  lemma AnswerIsDue(cfg: Config, at: real, requests: seq<Request>, r: Request)
    requires AllWellTimed(requests) && WellTimed(r)
    ensures Serve(cfg, After(cfg, at, requests), r).1 == DueAnswer(cfg, at, requests, r)
    ensures After(cfg, at, requests + [r]).now ==
            After(cfg, at, requests).now + r.gap + (if AsksModel(cfg, at, requests, r) then r.modelTime else 0.0)
  {
    var s := After(cfg, at, requests);
    assert After(cfg, at, requests + [r]) == Serve(cfg, s, r).0 by {
      assert (requests + [r])[..|requests|] == requests;
    }
    LimitedIffUsedUp(cfg, at, requests, r);
    hide After, Serve, UsedUp, FreshText, Lookup, RateReply, ModelAnswer;
    if r.payload.Ok? {
      LookupIsFresh(cfg, at, requests, r, r.payload.value);
      ServeAnswers(cfg, s, r, UsedUp(cfg, at, requests, r), FreshText(cfg, at, requests, r, r.payload.value));
    } else {
      ServeAnswers(cfg, s, r, UsedUp(cfg, at, requests, r), None);
    }
  }

  /** The logged event is the explanation sent out to the request. */
  ghost predicate Records(e: Event, cfg: Config, r: Request, payload: Fields, answer: Response, received: real,
                          done: real)
  {
    answer.Explained? && e.user == r.user && e.payload == payload && e.text == answer.text && e.looked == received &&
    (answer.cached <==> e.FromCache?) &&
    (e.ModelCalled? ==>
       e.lookupFailed == r.lookupFails && e.done == done && (e.kept <==> cfg.ttl > 0 && !r.storeFails))
  }

  /** Exactly the explanations sent out are logged, each as it was. */
  lemma LogRecordsAnswers(cfg: Config, s: Server, r: Request)
    ensures var (s', answer) := Serve(cfg, s, r);
            if answer.Explained? then
              r.payload.Ok? && |s'.log| == |s.log| + 1 && s'.log[..|s.log|] == s.log &&
              Records(s'.log[|s.log|], cfg, r, r.payload.value, answer, s.now + r.gap, s'.now)
            else s'.log == s.log
  {
    ModelTextNotEmpty(r.reply);
    hide ModelText, RateAfter, RateReply, Lookup, CacheAfter;
  }
}
