/** The endpoint inherits the limiter's guarantee: its sequential runs are runs of the protocol. */
module ExplainQuota {
  import opened Options
  import opened RateLimit
  import opened ExplainPayload
  import opened ExplainEndpoint

  /** Explanations sent to a user on requests received in [from, from + 3600). */
  function SentInWindow(log: seq<Event>, user: int, from: real): nat
  {
    if log == [] then 0 else
    var e := log[|log| - 1];
    SentInWindow(log[..|log| - 1], user, from) +
    (if e.user == user && from <= e.looked < from + 3600.0 then 1 else 0)
  }

  /** Calls of a user who read the clock in [from, from + 3600) and were let through. */
  function ThroughInWindow(user: int, from: real): Call -> bool
  {
    (c: Call) => c.user == user && from <= c.clock < from + 3600.0 &&
                 c.phase.Answered? && c.phase.reply.allowed
  }

  /** Those whose INCR raised an error. */
  function RaisedInWindow(user: int, from: real): Call -> bool
  {
    (c: Call) => c.user == user && from <= c.clock < from + 3600.0 && c.raised
  }

  /** The full hour a time lies in. */
  function HourOf(time: real): int
  {
    (time / 3600.0).Floor
  }

  /** The request gets as far as an INCR that the server executes. */
  predicate IsCounted(cfg: Config, r: Request)
  {
    cfg.enabled && r.payload.Ok? && r.rateFault != IncrFault(false)
  }

  /** Requests of a user, received in a full hour and with a payload, whose INCR was executed. */
  function CountedInHour(cfg: Config, at: real, requests: seq<Request>, user: int, hour: int): nat
  {
    if requests == [] then 0 else
    var front, r := requests[..|requests| - 1], requests[|requests| - 1];
    CountedInHour(cfg, at, front, user, hour) +
    (if IsCounted(cfg, r) && r.user == user && HourOf(After(cfg, at, front).now + r.gap) == hour then 1 else 0)
  }

  /** Requests of a user, received in [from, from + 3600) and with a payload, whose INCR raised an error. */
  function FaultsInWindow(cfg: Config, at: real, requests: seq<Request>, user: int, from: real): nat
  {
    if requests == [] then 0 else
    var front, r := requests[..|requests| - 1], requests[|requests| - 1];
    FaultsInWindow(cfg, at, front, user, from) +
    (if IsFault(cfg, r) && r.user == user && from <= After(cfg, at, front).now + r.gap < from + 3600.0
     then 1 else 0)
  }

  predicate IsFault(cfg: Config, r: Request)
  {
    cfg.enabled && r.payload.Ok? && r.rateFault.IncrFault?
  }

  /** The protocol run `steps` has the server's clock and counters, and let through every explanation. */
  ghost predicate Simulates(limit: int, at: real, steps: seq<Step>, s: Server)
  {
    && Timely(limit, at, steps, SLACK)
    && Quiescent(Run(limit, at, steps))
    && Run(limit, at, steps).now == s.now && Run(limit, at, steps).keys == s.rates
    && forall user, from ::
         SentInWindow(s.log, user, from) <= Count(Run(limit, at, steps).calls, ThroughInWindow(user, from))
  }

  lemma TickSimulates(limit: int, at: real, steps: seq<Step>, s: Server, elapsed: real)
    requires Simulates(limit, at, steps, s) && elapsed >= 0.0
    ensures Simulates(limit, at, steps + [Tick(elapsed)], s.(now := s.now + elapsed))
  {
    RunStep(limit, at, steps, Tick(elapsed));
  }

  /** A new allowed call makes room for one more explanation. */
  lemma SendSimulates(limit: int, at: real, steps: seq<Step>, called: seq<Step>, s: Server, c: Call, e: Event)
    requires Simulates(limit, at, steps, s)
    requires Timely(limit, at, called, SLACK) && Quiescent(Run(limit, at, called))
    requires Run(limit, at, called).now == s.now && Run(limit, at, called).calls == Run(limit, at, steps).calls + [c]
    requires c.user == e.user && c.clock == e.looked && c.phase.Answered?
    ensures Simulates(limit, at, called, s.(rates := Run(limit, at, called).keys))
    ensures c.phase.reply.allowed ==>
              Simulates(limit, at, called, s.(rates := Run(limit, at, called).keys, log := s.log + [e]))
  {
    var calls := Run(limit, at, steps).calls;
    assert (s.log + [e])[..|s.log|] == s.log;
    forall user, from
      ensures SentInWindow(s.log, user, from) <= Count(calls + [c], ThroughInWindow(user, from))
      ensures c.phase.reply.allowed ==>
                SentInWindow(s.log + [e], user, from) <= Count(calls + [c], ThroughInWindow(user, from))
    {
      CountAppend(calls, c, ThroughInWindow(user, from));
      assert SentInWindow(s.log, user, from) <= Count(calls, ThroughInWindow(user, from));
    }
  }

  /** What the handler adds to the log after the rate check: nothing, or one explanation. */
  lemma HandlerLog(cfg: Config, s: Server, r: Request, payload: Fields) returns (e: Event)
    requires WellTimed(r)
    ensures e.user == r.user && e.looked == s.now
    ensures var s' := RateThenExplain(cfg, s, r, payload).0;
            s'.now >= s.now && s'.rates == RateAfter(cfg.limit, s.rates, r.user, s.now, r.rateFault) &&
            (s'.log == s.log ||
             (RateReply(cfg.limit, s.rates, r.user, s.now, r.rateFault).allowed && s'.log == s.log + [e]))
  {
    var s' := RateThenExplain(cfg, s, r, payload).0;
    hide RateReply, RateAfter, Lookup, CacheAfter, ModelText;
    e := if s'.log != s.log then s'.log[|s.log|] else FromCache(r.user, payload, "", s.now);
  }

  /** The second protocol run has made at most one more call: none, or the one of request r made at `now`. */
  ghost predicate OneMore(limit: int, at: real, steps: seq<Step>, more: seq<Step>, made: bool, r: Request, now: real)
  {
    var before, after := Run(limit, at, steps).calls, Run(limit, at, more).calls;
    if !made then after == before else
    |after| == |before| + 1 && after[..|before|] == before && MadeBy(after[|before|], r, now)
  }

  ghost predicate MadeBy(c: Call, r: Request, now: real)
  {
    c.user == r.user && c.clock == now && c.raised == r.rateFault.IncrFault? &&
    (c.counted.Some? <==> r.rateFault != IncrFault(false))
  }

  /** The protocol call that a request makes. */
  lemma CallAdded(cfg: Config, at: real, steps: seq<Step>, s: Server, r: Request) returns (called: seq<Step>, c: Call)
    requires cfg.limit > 0 && Simulates(cfg.limit, at, steps, s)
    ensures Timely(cfg.limit, at, called, SLACK) && Quiescent(Run(cfg.limit, at, called))
    ensures var before, after := Run(cfg.limit, at, steps), Run(cfg.limit, at, called);
            after.now == s.now && after.calls == before.calls + [c] &&
            after.keys == RateAfter(cfg.limit, s.rates, r.user, s.now, r.rateFault)
    ensures MadeBy(c, r, s.now)
    ensures c.phase == Answered(RateReply(cfg.limit, s.rates, r.user, s.now, r.rateFault))
  {
    called := OneCall(cfg.limit, at, steps, r.user, r.rateFault);
    hide Run, Timely, Quiescent, Count, KeysAfterCall, CallReply;
    c := Run(cfg.limit, at, called).calls[|Run(cfg.limit, at, steps).calls|];
  }

  lemma CallSimulates(cfg: Config, at: real, steps: seq<Step>, s: Server, r: Request, payload: Fields)
    returns (more: seq<Step>)
    requires cfg.limit > 0 && Simulates(cfg.limit, at, steps, s) && WellTimed(r)
    ensures Simulates(cfg.limit, at, more, RateThenExplain(cfg, s, r, payload).0)
    ensures OneMore(cfg.limit, at, steps, more, true, r, s.now)
  {
    var e := HandlerLog(cfg, s, r, payload);
    hide Simulates, RateThenExplain, RateAfter, RateReply, Run, Timely, Quiescent;
    var s' := RateThenExplain(cfg, s, r, payload).0;
    var called, c := CallAdded(cfg, at, steps, s, r);
    SendSimulates(cfg.limit, at, steps, called, s, c, e);
    var checked := s.(rates := s'.rates, log := s'.log);
    assert Simulates(cfg.limit, at, called, checked);
    TickSimulates(cfg.limit, at, called, checked, s'.now - s.now);
    more := called + [Tick(s'.now - s.now)];
    LogClockRates(cfg.limit, at, more, checked.(now := checked.now + (s'.now - s.now)), s');
  }

  /** The cache is no part of the simulation. */
  lemma LogClockRates(limit: int, at: real, steps: seq<Step>, s: Server, s': Server)
    requires Simulates(limit, at, steps, s) && s'.log == s.log && s'.now == s.now && s'.rates == s.rates
    ensures Simulates(limit, at, steps, s')
  {
  }

  lemma HandleSimulates(cfg: Config, at: real, steps: seq<Step>, s: Server, r: Request)
    returns (more: seq<Step>)
    requires cfg.limit > 0 && Simulates(cfg.limit, at, steps, s) && WellTimed(r)
    ensures Simulates(cfg.limit, at, more, Handle(cfg, s, r).0)
    ensures OneMore(cfg.limit, at, steps, more, cfg.enabled && r.payload.Ok?, r, s.now)
  {
    more := steps;
    if cfg.enabled && r.payload.Ok? {
      more := CallSimulates(cfg, at, steps, s, r, r.payload.value);
    }
  }

  lemma ServeSimulates(cfg: Config, at: real, steps: seq<Step>, s: Server, r: Request) returns (more: seq<Step>)
    requires cfg.limit > 0 && Simulates(cfg.limit, at, steps, s) && WellTimed(r)
    ensures Simulates(cfg.limit, at, more, Serve(cfg, s, r).0)
    ensures OneMore(cfg.limit, at, steps, more, cfg.enabled && r.payload.Ok?, r, s.now + r.gap)
  {
    hide Simulates, Handle;
    TickSimulates(cfg.limit, at, steps, s, r.gap);
    RunStep(cfg.limit, at, steps, Tick(r.gap));
    hide Run, MadeBy;
    more := HandleSimulates(cfg, at, steps + [Tick(r.gap)], s.(now := s.now + r.gap), r);
  }

  /** The calls of the protocol run are those of the requests: as many were counted in each hour, and as many raised
      in each window. */
  ghost predicate SameCalls(cfg: Config, at: real, steps: seq<Step>, requests: seq<Request>)
  {
    && (forall user, hour :: Count(Run(cfg.limit, at, steps).calls, CountedFor(RateKey(user, hour))) ==
                             CountedInHour(cfg, at, requests, user, hour))
    && (forall user, from :: Count(Run(cfg.limit, at, steps).calls, RaisedInWindow(user, from)) ==
                             FaultsInWindow(cfg, at, requests, user, from))
  }

  lemma CountsNext(cfg: Config, at: real, requests: seq<Request>, r: Request, user: int, hour: int, from: real)
    ensures var now := After(cfg, at, requests).now + r.gap;
            CountedInHour(cfg, at, requests + [r], user, hour) ==
            CountedInHour(cfg, at, requests, user, hour) +
            (if IsCounted(cfg, r) && r.user == user && HourOf(now) == hour then 1 else 0) &&
            FaultsInWindow(cfg, at, requests + [r], user, from) ==
            FaultsInWindow(cfg, at, requests, user, from) +
            (if IsFault(cfg, r) && r.user == user && from <= now < from + 3600.0 then 1 else 0)
  {
    hide After;
    assert (requests + [r])[..|requests|] == requests;
  }

  lemma CallCounts(calls: seq<Call>, c: Call, r: Request, now: real, user: int, hour: int, from: real)
    requires MadeBy(c, r, now)
    ensures Count(calls + [c], CountedFor(RateKey(user, hour))) ==
            Count(calls, CountedFor(RateKey(user, hour))) +
            (if r.rateFault != IncrFault(false) && r.user == user && HourOf(now) == hour then 1 else 0)
    ensures Count(calls + [c], RaisedInWindow(user, from)) ==
            Count(calls, RaisedInWindow(user, from)) +
            (if r.rateFault.IncrFault? && r.user == user && from <= now < from + 3600.0 then 1 else 0)
  {
    CountAppend(calls, c, CountedFor(RateKey(user, hour)));
    CountAppend(calls, c, RaisedInWindow(user, from));
    hide Count;
  }

  lemma SameCallsNext(cfg: Config, at: real, steps: seq<Step>, more: seq<Step>, requests: seq<Request>, r: Request)
    requires SameCalls(cfg, at, steps, requests)
    requires OneMore(cfg.limit, at, steps, more, cfg.enabled && r.payload.Ok?, r, After(cfg, at, requests).now + r.gap)
    ensures SameCalls(cfg, at, more, requests + [r])
  {
    hide After, Run, Count, CountedFor, RaisedInWindow, HourOf, CountedInHour, FaultsInWindow, MadeBy;
    var before, after := Run(cfg.limit, at, steps).calls, Run(cfg.limit, at, more).calls;
    var now := After(cfg, at, requests).now + r.gap;
    assert after == if cfg.enabled && r.payload.Ok? then before + [after[|before|]] else before;
    forall user, hour
      ensures Count(after, CountedFor(RateKey(user, hour))) == CountedInHour(cfg, at, requests + [r], user, hour)
    {
      CountsNext(cfg, at, requests, r, user, hour, 0.0);
      if cfg.enabled && r.payload.Ok? {
        CallCounts(before, after[|before|], r, now, user, hour, 0.0);
      }
    }
    forall user, from
      ensures Count(after, RaisedInWindow(user, from)) == FaultsInWindow(cfg, at, requests + [r], user, from)
    {
      CountsNext(cfg, at, requests, r, user, 0, from);
      if cfg.enabled && r.payload.Ok? {
        CallCounts(before, after[|before|], r, now, user, 0, from);
      }
    }
  }

  /** Every sequential run of the endpoint is a timely protocol run with the same calls. */
  lemma {:induction false} RunsSimulate(cfg: Config, at: real, requests: seq<Request>) returns (steps: seq<Step>)
    requires cfg.limit > 0 && AllWellTimed(requests)
    ensures Simulates(cfg.limit, at, steps, After(cfg, at, requests))
    ensures SameCalls(cfg, at, steps, requests)
  {
    if requests == [] {
      steps := [];
    } else {
      var front, r := requests[..|requests| - 1], requests[|requests| - 1];
      assert requests == front + [r];
      var before := RunsSimulate(cfg, at, front);
      assert After(cfg, at, requests) == Serve(cfg, After(cfg, at, front), r).0;
      hide After, Simulates, SameCalls;
      steps := ServeSimulates(cfg, at, before, After(cfg, at, front), r);
      SameCallsNext(cfg, at, before, steps, front, r);
    }
  }

  /** Whoever is let through in a window was allowed there or had an INCR that raised. */
  lemma {:induction false} ThroughIsAllowedOrRaised(calls: seq<Call>, user: int, from: real)
    ensures Count(calls, ThroughInWindow(user, from)) <=
            Count(calls, AllowedInWindow(user, from)) + Count(calls, RaisedInWindow(user, from))
  {
    if calls != [] {
      ThroughIsAllowedOrRaised(calls[..|calls| - 1], user, from);
    }
  }

  /** No hour brings one user more than twice the limit of explanations, from the model or from the cache, and one
      more for each INCR that raised an error: cached answers use up the quota too. */
  lemma ExplanationsPerHour(cfg: Config, at: real, requests: seq<Request>, user: int, from: real)
    requires cfg.limit > 0 && AllWellTimed(requests)
    ensures SentInWindow(After(cfg, at, requests).log, user, from) <=
            2 * cfg.limit + FaultsInWindow(cfg, at, requests, user, from)
  {
    var steps := RunsSimulate(cfg, at, requests);
    SlidingWindowBound(cfg.limit, at, steps, user, from);
    ThroughIsAllowedOrRaised(Run(cfg.limit, at, steps).calls, user, from);
  }
}
