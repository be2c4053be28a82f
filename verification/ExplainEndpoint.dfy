/** POST /api/explain: rate limit, cache lookup, model call, cache store, in that order, for requests
    served one after another. */
module ExplainEndpoint {
  import opened Options
  import opened RedisStore
  import opened RateLimit
  import opened ExplainPayload

  datatype Config = Config(enabled: bool, limit: int, ttl: int)

  datatype ModelReply = TimedOut | HttpStatus(code: int) | TransportError | Body(json: Json)

  /** One request, with its body already normalised, and what its surroundings do while it is served: the
      time since the previous request, the time and outcome of the model call, and which Redis commands
      raise; `storeFails` if the text was not stored. */
  datatype Request = Request(
    gap: real,
    user: int,
    payload: Result<Fields, PayloadError>,
    rateFault: Fault,
    lookupFails: bool,
    modelTime: real,
    reply: ModelReply,
    storeFails: bool)

  datatype Response =
    | Disabled                                   // 503
    | Malformed(error: PayloadError)             // 400
    | RateLimited                                // 429
    | UpstreamThrottled                          // 429
    | UpstreamFailed                             // 502
    | Explained(text: string, cached: bool)      // 200

  /** An explanation sent out: `looked` is when the cache lookup was made, and for a model call `done` is
      when its text came back and `kept` whether it was put into the cache then. */
  datatype Event =
    | FromCache(user: int, payload: Fields, text: string, looked: real)
    | ModelCalled(user: int, payload: Fields, text: string, looked: real, lookupFailed: bool, done: real, kept: bool)

  datatype Server = Server(
    now: real,
    rates: Keyspace<RateKey, nat>,
    cache: Keyspace<Fields, string>,
    log: seq<Event>)

  predicate WellTimed(r: Request)
  {
    r.gap >= 0.0 && r.modelTime >= 0.0
  }

  // ---- check_rate_limit, get_cached, store_cached on the stored values ----

  function RateAfter(limit: int, rates: Keyspace<RateKey, nat>, user: int, now: real, fault: Fault)
    : Keyspace<RateKey, nat>
  {
    if limit <= 0 then rates else KeysAfterCall(rates, user, now, fault)
  }

  function RateReply(limit: int, rates: Keyspace<RateKey, nat>, user: int, now: real, fault: Fault): Reply
  {
    if limit <= 0 then FAIL_OPEN else CallReply(limit, Incremented(rates, RateKey(user, Bucket(now)), now), fault)
  }

  function Lookup(cache: Keyspace<Fields, string>, payload: Fields, now: real, fails: bool): Option<string>
  {
    if fails then None else Get(cache, payload, now)
  }

  function CacheAfter(cache: Keyspace<Fields, string>, payload: Fields, text: string, ttl: int, now: real, fails: bool)
    : Keyspace<Fields, string>
  {
    if ttl <= 0 || fails then cache else SetEx(cache, payload, text, ttl as real, now)
  }

  // ---- the handler ----

  /** The text of a model call, or the answer to its failure. */
  function ModelText(reply: ModelReply): Result<string, Response>
  {
    match reply
    case TimedOut => Err(UpstreamFailed)
    case TransportError => Err(UpstreamFailed)
    case HttpStatus(code) => Err(if code == 429 then UpstreamThrottled else UpstreamFailed)
    case Body(json) =>
      match ResponseText(json)
      case Ok(text) => Ok(text)
      case Err(_) => Err(UpstreamFailed)
  }

  function Explain(cfg: Config, s: Server, r: Request, payload: Fields): (Server, Response)
  {
    var cached := Lookup(s.cache, payload, s.now, r.lookupFails);
    if cached.Some? && cached.value != "" then
      (s.(log := s.log + [FromCache(r.user, payload, cached.value, s.now)]), Explained(cached.value, true))
    else
      var done := s.now + r.modelTime;
      match ModelText(r.reply)
      case Err(answer) => (s.(now := done), answer)
      case Ok(text) =>
        var call := ModelCalled(r.user, payload, text, s.now, r.lookupFails, done, cfg.ttl > 0 && !r.storeFails);
        var stored := CacheAfter(s.cache, payload, text, cfg.ttl, done, r.storeFails);
        (s.(now := done, cache := stored, log := s.log + [call]), Explained(text, false))
  }

  function RateThenExplain(cfg: Config, s: Server, r: Request, payload: Fields): (Server, Response)
  {
    var counted := s.(rates := RateAfter(cfg.limit, s.rates, r.user, s.now, r.rateFault));
    if !RateReply(cfg.limit, s.rates, r.user, s.now, r.rateFault).allowed then (counted, RateLimited)
    else Explain(cfg, counted, r, payload)
  }

  function Handle(cfg: Config, s: Server, r: Request): (Server, Response)
  {
    if !cfg.enabled then (s, Disabled) else
    match r.payload
    case Err(e) => (s, Malformed(e))
    case Ok(payload) => RateThenExplain(cfg, s, r, payload)
  }

  function Serve(cfg: Config, s: Server, r: Request): (Server, Response)
  {
    Handle(cfg, s.(now := s.now + r.gap), r)
  }

  /** The Redis server and the handler in front of it. */
  class ExplainService {
    var now: real
    var rates: Keyspace<RateKey, nat>
    var cache: Keyspace<Fields, string>
    var log: seq<Event>

    function Snapshot(): Server
      reads this
    {
      Server(now, rates, cache, log)
    }

    constructor (at: real)
      ensures Snapshot() == Server(at, map[], map[], [])
    {
      now, rates, cache, log := at, map[], map[], [];
    }

    method CheckRateLimit(user: int, limit: int, fault: Fault) returns (reply: Reply)
      modifies this`rates
      ensures rates == RateAfter(limit, old(rates), user, now, fault)
      ensures reply == RateReply(limit, old(rates), user, now, fault)
    {
      if limit <= 0 { return FAIL_OPEN; }
      var key := RateKey(user, Bucket(now));
      var current := Incremented(rates, key, now);
      if fault != IncrFault(false) { rates := Incr(rates, key, now); }
      if fault.IncrFault? { return FAIL_OPEN; }
      if current == 1 {
        if fault != ExpireFault(false) { rates := Expire(rates, key, KEY_TTL, now); }
        if fault.ExpireFault? { return FAIL_OPEN; }
      }
      return Reply(current <= limit, current);
    }

    method StoreCached(payload: Fields, text: string, ttl: int, fails: bool)
      modifies this`cache
      ensures cache == CacheAfter(old(cache), payload, text, ttl, now, fails)
    {
      if ttl <= 0 { return; }
      if !fails {
        cache := SetEx(cache, payload, text, ttl as real, now);
      }
    }

    /** Serves a request whose body is `raw`; `env` gives everything else about it. */
    method Post(cfg: Config, parse: string -> Option<real>, raw: Json, env: Request) returns (response: Response)
      modifies this
      ensures (Snapshot(), response) == Serve(cfg, old(Snapshot()), env.(payload := Normalise(parse, BodyOf(raw))))
    {
      var normalised := NormalisePayload(parse, BodyOf(raw));
      response := PostNormalised(cfg, env.(payload := normalised));
    }

    method PostNormalised(cfg: Config, r: Request) returns (response: Response)
      modifies this
      ensures (Snapshot(), response) == Serve(cfg, old(Snapshot()), r)
    {
      now := now + r.gap;
      if !cfg.enabled { return Disabled; }
      if r.payload.Err? { return Malformed(r.payload.error); }
      var payload := r.payload.value;

      var reply := CheckRateLimit(r.user, cfg.limit, r.rateFault);
      if !reply.allowed { return RateLimited; }

      var cached := Lookup(cache, payload, now, r.lookupFails);
      if cached.Some? && cached.value != "" {
        log := log + [FromCache(r.user, payload, cached.value, now)];
        return Explained(cached.value, true);
      }

      var looked := now;
      now := now + r.modelTime;
      match r.reply {
        case TimedOut => return UpstreamFailed;
        case TransportError => return UpstreamFailed;
        case HttpStatus(code) => return if code == 429 then UpstreamThrottled else UpstreamFailed;
        case Body(json) =>
          var text := ExtractText(json);
          if text.Err? { return UpstreamFailed; }
          StoreCached(payload, text.value, cfg.ttl, r.storeFails);
          var kept := cfg.ttl > 0 && !r.storeFails;
          log := log + [ModelCalled(r.user, payload, text.value, looked, r.lookupFails, now, kept)];
          return Explained(text.value, false);
      }
    }
  }

  // ---- runs ----

  /** The server after a sequence of requests, starting with empty Redis. */
  function After(cfg: Config, at: real, requests: seq<Request>): Server
  {
    if requests == [] then Server(at, map[], map[], [])
    else Serve(cfg, After(cfg, at, requests[..|requests| - 1]), requests[|requests| - 1]).0
  }

  ghost predicate AllWellTimed(requests: seq<Request>)
  {
    forall i :: 0 <= i < |requests| ==> WellTimed(requests[i])
  }

  // ---- coherence of the cache ----

  predicate Keeps(e: Event, payload: Fields)
  {
    e.ModelCalled? && e.payload == payload && e.kept
  }

  /** The last model call that put a text for the payload into the cache. */
  function LastKept(log: seq<Event>, payload: Fields): Option<Event>
  {
    if log == [] then None else
    if Keeps(log[|log| - 1], payload) then Some(log[|log| - 1]) else LastKept(log[..|log| - 1], payload)
  }

  /** What the log says the cache holds for a payload. */
  function Held(log: seq<Event>, payload: Fields, ttl: int): Option<Entry<string>>
  {
    match LastKept(log, payload)
    case Some(e) => if e.ModelCalled? then Some(Entry(e.text, Some(e.done + ttl as real))) else None
    case None => None
  }

  /** The event agrees with the cache that the earlier events left. */
  ghost predicate EventOk(ttl: int, log: seq<Event>, e: Event)
  {
    match e
    case FromCache(_, payload, text, looked) =>
      Held(log, payload, ttl).Some? && Held(log, payload, ttl).value.value == text &&
      looked < Held(log, payload, ttl).value.deadline.value
    case ModelCalled(_, payload, text, looked, lookupFailed, done, kept) =>
      text != "" && looked <= done && (kept ==> ttl > 0) &&
      (!lookupFailed && Held(log, payload, ttl).Some? ==> Held(log, payload, ttl).value.deadline.value <= looked)
  }

  function Ended(e: Event): real
  {
    if e.ModelCalled? then e.done else e.looked
  }

  ghost predicate Coherent(ttl: int, s: Server)
  {
    && (forall payload :: Held(s.log, payload, ttl) == if payload in s.cache then Some(s.cache[payload]) else None)
    && (forall payload :: payload in s.cache ==> s.cache[payload].value != "")
    && (forall j :: 0 <= j < |s.log| ==> EventOk(ttl, s.log[..j], s.log[j]))
    && (forall j :: 0 <= j < |s.log| ==> Ended(s.log[j]) <= s.now)
    && (forall i, j :: 0 <= i < j < |s.log| ==> Ended(s.log[i]) <= s.log[j].looked)
  }

  lemma {:induction false} LastKeptKeeps(log: seq<Event>, payload: Fields)
    ensures LastKept(log, payload).Some? ==>
              exists i :: 0 <= i < |log| && log[i] == LastKept(log, payload).value && Keeps(log[i], payload) &&
                          forall k :: i < k < |log| ==> !Keeps(log[k], payload)
    ensures LastKept(log, payload).None? ==> forall i :: 0 <= i < |log| ==> !Keeps(log[i], payload)
  {
    if log != [] && !Keeps(log[|log| - 1], payload) {
      var front := log[..|log| - 1];
      LastKeptKeeps(front, payload);
      if LastKept(front, payload).Some? {
        var i :| 0 <= i < |front| && front[i] == LastKept(front, payload).value && Keeps(front[i], payload) &&
                 forall k :: i < k < |front| ==> !Keeps(front[k], payload);
        assert log[i] == front[i];
        assert forall k :: i < k < |log| ==> k == |front| || log[k] == front[k];
      } else {
        assert forall i :: 0 <= i < |log| ==> i == |front| || log[i] == front[i];
      }
    }
  }

  /** What an event leaves in the cache. */
  function CacheWith(ttl: int, cache: Keyspace<Fields, string>, e: Event): Keyspace<Fields, string>
  {
    if e.ModelCalled? && e.kept then SetEx(cache, e.payload, e.text, ttl as real, e.done) else cache
  }

  lemma HeldNext(ttl: int, cache: Keyspace<Fields, string>, log: seq<Event>, e: Event, payload: Fields)
    requires Held(log, payload, ttl) == if payload in cache then Some(cache[payload]) else None
    ensures var after := CacheWith(ttl, cache, e);
            Held(log + [e], payload, ttl) == if payload in after then Some(after[payload]) else None
  {
    assert (log + [e])[..|log|] == log;
  }

  lemma EventsNext(ttl: int, log: seq<Event>, e: Event)
    requires (forall j :: 0 <= j < |log| ==> EventOk(ttl, log[..j], log[j])) && EventOk(ttl, log, e)
    ensures forall j :: 0 <= j <= |log| ==> EventOk(ttl, (log + [e])[..j], (log + [e])[j])
  {
    hide EventOk;
    forall j | 0 <= j <= |log|
      ensures EventOk(ttl, (log + [e])[..j], (log + [e])[j])
    {
      assert (log + [e])[..j] == log[..j];
    }
  }

  /** One more event that agrees with the cache keeps the log coherent. */
  lemma AppendEvent(ttl: int, s: Server, s': Server, e: Event)
    requires Coherent(ttl, s) && EventOk(ttl, s.log, e) && s'.log == s.log + [e]
    requires s.now <= e.looked && Ended(e) <= s'.now && s.now <= s'.now
    requires s'.cache == CacheWith(ttl, s.cache, e)
    ensures Coherent(ttl, s')
  {
    EventsNext(ttl, s.log, e);
    assert e.ModelCalled? ==> e.text != "";
    hide EventOk, Held;
    forall payload
      ensures Held(s'.log, payload, ttl) == if payload in s'.cache then Some(s'.cache[payload]) else None
    {
      HeldNext(ttl, s.cache, s.log, e, payload);
    }
  }

  lemma LaterIsCoherent(ttl: int, s: Server, s': Server)
    requires Coherent(ttl, s) && s'.log == s.log && s'.cache == s.cache && s.now <= s'.now
    ensures Coherent(ttl, s')
  {
  }

  lemma ExplainKeepsCoherence(cfg: Config, s: Server, r: Request, payload: Fields)
    requires Coherent(cfg.ttl, s) && WellTimed(r)
    ensures Coherent(cfg.ttl, Explain(cfg, s, r, payload).0)
  {
    var s' := Explain(cfg, s, r, payload).0;
    var held := Held(s.log, payload, cfg.ttl);
    assert held == if payload in s.cache then Some(s.cache[payload]) else None;
    if s'.log == s.log {
      LaterIsCoherent(cfg.ttl, s, s');
    } else {
      var e := s'.log[|s.log|];
      if e.ModelCalled? {
        ModelTextNotEmpty(r.reply);
      }
      assert EventOk(cfg.ttl, s.log, e);
      hide EventOk, Held, Coherent, ModelText;
      AppendEvent(cfg.ttl, s, s', e);
    }
  }

  /** The handler tests a cached answer for truth; no text that can get into the cache is false. And no failure is
      answered with an explanation. */
  lemma ModelTextNotEmpty(reply: ModelReply)
    ensures ModelText(reply).Ok? ==> ModelText(reply).value != ""
    ensures ModelText(reply).Err? ==> !ModelText(reply).error.Explained?
  {
    if reply.Body? && ResponseText(reply.json).Ok? {
      TextWhenNotBlank(reply.json);
    }
  }

  lemma RateThenExplainKeepsCoherence(cfg: Config, s: Server, r: Request, payload: Fields)
    requires Coherent(cfg.ttl, s) && WellTimed(r)
    ensures Coherent(cfg.ttl, RateThenExplain(cfg, s, r, payload).0)
  {
    var counted := s.(rates := RateAfter(cfg.limit, s.rates, r.user, s.now, r.rateFault));
    LaterIsCoherent(cfg.ttl, s, counted);
    hide Coherent, Explain, RateAfter;
    ExplainKeepsCoherence(cfg, counted, r, payload);
  }

  lemma ServedBy(cfg: Config, s: Server, r: Request)
    ensures Serve(cfg, s, r).0 ==
            var begun := s.(now := s.now + r.gap);
            if cfg.enabled && r.payload.Ok? then RateThenExplain(cfg, begun, r, r.payload.value).0 else begun
  {
    hide RateThenExplain;
  }

  lemma ServeKeepsCoherence(cfg: Config, s: Server, r: Request)
    requires Coherent(cfg.ttl, s) && WellTimed(r)
    ensures Coherent(cfg.ttl, Serve(cfg, s, r).0)
  {
    var begun := s.(now := s.now + r.gap);
    ServedBy(cfg, s, r);
    LaterIsCoherent(cfg.ttl, s, begun);
    hide Serve, RateThenExplain;
    if cfg.enabled && r.payload.Ok? {
      RateThenExplainKeepsCoherence(cfg, begun, r, r.payload.value);
    }
  }

  lemma {:induction false} RunsAreCoherent(cfg: Config, at: real, requests: seq<Request>)
    requires AllWellTimed(requests)
    ensures Coherent(cfg.ttl, After(cfg, at, requests))
  {
    if requests != [] {
      var front := requests[..|requests| - 1];
      RunsAreCoherent(cfg, at, front);
      ServeKeepsCoherence(cfg, After(cfg, at, front), requests[|requests| - 1]);
    }
  }

  lemma CachedIsFresh(ttl: int, s: Server, j: nat)
    requires Coherent(ttl, s) && j < |s.log| && s.log[j].FromCache?
    ensures exists i :: 0 <= i < j && Keeps(s.log[i], s.log[j].payload) && s.log[i].text == s.log[j].text &&
                        s.log[i].done <= s.log[j].looked < s.log[i].done + ttl as real &&
                        forall k :: i < k < j ==> !Keeps(s.log[k], s.log[j].payload)
  {
    var earlier, payload := s.log[..j], s.log[j].payload;
    assert EventOk(ttl, earlier, s.log[j]);
    LastKeptKeeps(earlier, payload);
    var i :| 0 <= i < j && earlier[i] == LastKept(earlier, payload).value && Keeps(earlier[i], payload) &&
             forall k :: i < k < |earlier| ==> !Keeps(earlier[k], payload);
    assert Ended(s.log[i]) <= s.log[j].looked;
    assert forall k :: i < k < j ==> s.log[k] == earlier[k];
  }

  /** The last kept call before j is not before an earlier kept call i. */
  lemma LastKeptSince(log: seq<Event>, payload: Fields, i: nat) returns (last: nat)
    requires i < |log| && Keeps(log[i], payload)
    ensures i <= last < |log| && Keeps(log[last], payload) && LastKept(log, payload) == Some(log[last])
  {
    LastKeptKeeps(log, payload);
    last :| 0 <= last < |log| && log[last] == LastKept(log, payload).value &&
            Keeps(log[last], payload) && forall k :: last < k < |log| ==> !Keeps(log[k], payload);
  }

  lemma CallsAreApart(ttl: int, s: Server, i: nat, j: nat)
    requires Coherent(ttl, s) && i < j < |s.log| && s.log[i].ModelCalled? && s.log[j].ModelCalled?
    requires s.log[i].payload == s.log[j].payload && s.log[i].kept && !s.log[j].lookupFailed
    ensures ttl > 0 && s.log[i].done + ttl as real <= s.log[j].looked
  {
    var earlier, payload := s.log[..j], s.log[j].payload;
    assert earlier[i] == s.log[i];
    var last := LastKeptSince(earlier, payload, i);
    assert earlier[last] == s.log[last];
    assert EventOk(ttl, earlier, s.log[j]) && EventOk(ttl, s.log[..i], s.log[i]);
    assert s.log[last].done + ttl as real <= s.log[j].looked by {
      hide LastKept;
    }
    assert s.log[i].done <= s.log[last].done by {
      assert EventOk(ttl, s.log[..last], s.log[last]);
      hide Held, LastKept;
      assert i < last ==> Ended(s.log[i]) <= s.log[last].looked;
    }
  }

  /** In every run, an answer from the cache is the text of the latest model call kept for an equal
      normalised payload, put there less than the time-to-live ago. */
  lemma CachedAnswersAreFresh(cfg: Config, at: real, requests: seq<Request>, j: nat)
    requires AllWellTimed(requests)
    requires var log := After(cfg, at, requests).log; j < |log| && log[j].FromCache?
    ensures var log := After(cfg, at, requests).log;
            exists i :: 0 <= i < j && Keeps(log[i], log[j].payload) && log[i].text == log[j].text &&
                        log[i].done <= log[j].looked < log[i].done + cfg.ttl as real &&
                        forall k :: i < k < j ==> !Keeps(log[k], log[j].payload)
  {
    RunsAreCoherent(cfg, at, requests);
    CachedIsFresh(cfg.ttl, After(cfg, at, requests), j);
  }

  /** In every run, two model calls for equal payloads are a time-to-live apart, unless Redis refused to
      store the first text or to look it up for the second. */
  lemma OneModelCallPerTtl(cfg: Config, at: real, requests: seq<Request>, i: nat, j: nat)
    requires AllWellTimed(requests)
    requires var log := After(cfg, at, requests).log;
             i < j < |log| && log[i].ModelCalled? && log[j].ModelCalled? && log[i].payload == log[j].payload &&
             log[i].kept && !log[j].lookupFailed
    ensures var log := After(cfg, at, requests).log;
            cfg.ttl > 0 && log[i].done + cfg.ttl as real <= log[j].looked
  {
    RunsAreCoherent(cfg, at, requests);
    CallsAreApart(cfg.ttl, After(cfg, at, requests), i, j);
  }
}
