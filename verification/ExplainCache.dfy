/** The cache of the explain endpoint as a concurrent protocol. A request looks its payload up, waits for the model,
    and stores the text, and the steps of any number of requests interleave with each other and with time. */
module ExplainCache {
  import opened Options
  import opened RedisStore
  import opened ExplainPayload
  import opened ExplainEndpoint

  /** After the lookup: the model call is under way, its text is about to be stored, or the answer is out. */
  datatype Phase = Calling | Storing(text: string) | Answered(response: Response)

  /** A request that the rate limit let through. `seen` is how many texts had been stored before its lookup. */
  datatype Call = Call(payload: Fields, looked: real, lookupFailed: bool, seen: nat, phase: Phase)

  /** A text put into the cache. */
  datatype Kept = Kept(call: nat, payload: Fields, text: string, at: real)

  datatype State = State(now: real, cache: Keyspace<Fields, string>, calls: seq<Call>, kept: seq<Kept>)

  datatype Step =
    | Tick(elapsed: real)
    | Begin(payload: Fields, fails: bool)
    | Receive(id: nat, reply: ModelReply)
    | Store(id: nat, fails: bool)

  function Start(at: real): State
  {
    State(at, map[], [], [])
  }

  predicate Enabled(s: State, step: Step)
  {
    match step
    case Tick(elapsed) => elapsed >= 0.0
    case Begin(_, _) => true
    case Receive(id, _) => id < |s.calls| && s.calls[id].phase.Calling?
    case Store(id, _) => id < |s.calls| && s.calls[id].phase.Storing?
  }

  /** One atomic step; a step that is not enabled changes nothing. */
  function Apply(ttl: int, s: State, step: Step): State
  {
    if !Enabled(s, step) then s else
    match step
    case Tick(elapsed) => s.(now := s.now + elapsed)
    case Begin(payload, fails) =>
      var cached := Lookup(s.cache, payload, s.now, fails);
      var phase := if cached.Some? && cached.value != "" then Answered(Explained(cached.value, true)) else Calling;
      s.(calls := s.calls + [Call(payload, s.now, fails, |s.kept|, phase)])
    case Receive(id, reply) =>
      var phase := match ModelText(reply) case Ok(text) => Storing(text) case Err(answer) => Answered(answer);
      s.(calls := s.calls[id := s.calls[id].(phase := phase)])
    case Store(id, fails) =>
      var c := s.calls[id];
      State(s.now, CacheAfter(s.cache, c.payload, c.phase.text, ttl, s.now, fails),
            s.calls[id := c.(phase := Answered(Explained(c.phase.text, false)))],
            s.kept + if ttl > 0 && !fails then [Kept(id, c.payload, c.phase.text, s.now)] else [])
  }

  /** Every sequence of steps is a run. */
  function Run(ttl: int, at: real, steps: seq<Step>): State
  {
    if steps == [] then Start(at) else Apply(ttl, Run(ttl, at, steps[..|steps| - 1]), steps[|steps| - 1])
  }

  lemma RunStep(ttl: int, at: real, steps: seq<Step>, step: Step)
    ensures Run(ttl, at, steps + [step]) == Apply(ttl, Run(ttl, at, steps), step)
  {
    assert (steps + [step])[..|steps|] == steps;
  }

  // ---- the invariant ----

  /** The last text stored for the payload. */
  function LastFor(kept: seq<Kept>, payload: Fields): Option<Kept>
  {
    if kept == [] then None else
    if kept[|kept| - 1].payload == payload then Some(kept[|kept| - 1]) else LastFor(kept[..|kept| - 1], payload)
  }

  /** The cache entry of a payload is the last text stored for it. */
  ghost predicate EntryOk(ttl: int, cache: Keyspace<Fields, string>, kept: seq<Kept>, payload: Fields)
  {
    match LastFor(kept, payload)
    case Some(k) => payload in cache && cache[payload] == Entry(k.text, Some(k.at + ttl as real))
    case None => payload !in cache
  }

  /** The text is the one its model call was answered with. */
  ghost predicate KeptOk(calls: seq<Call>, now: real, k: Kept)
  {
    k.call < |calls| && calls[k.call].payload == k.payload && calls[k.call].looked <= k.at <= now &&
    k.text != "" && calls[k.call].phase == Answered(Explained(k.text, false))
  }

  predicate FromCache(c: Call)
  {
    c.phase.Answered? && c.phase.response.Explained? && c.phase.response.cached
  }

  /** A lookup finds the last text stored before it while that text is younger than the time-to-live. */
  ghost predicate CallOk(ttl: int, kept: seq<Kept>, now: real, c: Call)
  {
    && c.looked <= now && c.seen <= |kept|
    && (forall i :: 0 <= i < c.seen ==> kept[i].at <= c.looked)
    && (c.phase.Storing? ==> c.phase.text != "")
    && var last := LastFor(kept[..c.seen], c.payload);
       && (FromCache(c) <==> !c.lookupFailed && last.Some? && c.looked < last.value.at + ttl as real)
       && (FromCache(c) ==> c.phase.response.text == last.value.text)
  }

  ghost predicate InOrder(kept: seq<Kept>)
  {
    forall i, j :: 0 <= i < j < |kept| ==> kept[i].at <= kept[j].at
  }

  ghost predicate CallsOk(ttl: int, s: State)
  {
    forall id :: 0 <= id < |s.calls| ==> CallOk(ttl, s.kept, s.now, s.calls[id])
  }

  ghost predicate AllKeptOk(s: State)
  {
    forall i :: 0 <= i < |s.kept| ==> KeptOk(s.calls, s.now, s.kept[i])
  }

  ghost predicate EntriesOk(ttl: int, s: State)
  {
    forall payload :: EntryOk(ttl, s.cache, s.kept, payload)
  }

  ghost predicate Inv(ttl: int, s: State)
  {
    EntriesOk(ttl, s) && InOrder(s.kept) && AllKeptOk(s) && CallsOk(ttl, s)
  }

  lemma {:induction false} LastForIs(kept: seq<Kept>, payload: Fields)
    ensures LastFor(kept, payload).Some? ==>
              exists i :: 0 <= i < |kept| && kept[i] == LastFor(kept, payload).value && kept[i].payload == payload &&
                          forall k :: i < k < |kept| ==> kept[k].payload != payload
    ensures LastFor(kept, payload).None? ==> forall i :: 0 <= i < |kept| ==> kept[i].payload != payload
  {
    if kept != [] && kept[|kept| - 1].payload != payload {
      var front := kept[..|kept| - 1];
      LastForIs(front, payload);
      if LastFor(front, payload).Some? {
        var i :| 0 <= i < |front| && front[i] == LastFor(front, payload).value && front[i].payload == payload &&
                 forall k :: i < k < |front| ==> front[k].payload != payload;
        assert kept[i] == front[i];
        assert forall k :: i < k < |kept| ==> k == |front| || kept[k] == front[k];
      } else {
        assert forall i :: 0 <= i < |kept| ==> i == |front| || kept[i] == front[i];
      }
    }
  }

  /** Time, a later text and other calls change nothing for a call. */
  lemma CallStays(ttl: int, kept: seq<Kept>, more: seq<Kept>, now: real, later: real, c: Call)
    requires CallOk(ttl, kept, now, c) && now <= later
    ensures CallOk(ttl, kept + more, later, c)
  {
    assert (kept + more)[..c.seen] == kept[..c.seen];
  }

  /** The next phase of a call that has not been answered. */
  lemma CallMoves(ttl: int, kept: seq<Kept>, now: real, c: Call, phase: Phase)
    requires CallOk(ttl, kept, now, c) && !c.phase.Answered? && !FromCache(c.(phase := phase))
    requires phase.Storing? ==> phase.text != ""
    ensures CallOk(ttl, kept, now, c.(phase := phase))
  {
  }

  lemma KeptSet(calls: seq<Call>, now: real, id: nat, c: Call, k: Kept)
    requires KeptOk(calls, now, k) && id < |calls| && !calls[id].phase.Answered?
    ensures KeptOk(calls[id := c], now, k)
  {
  }

  lemma TickKeeps(ttl: int, s: State, elapsed: real)
    requires Inv(ttl, s) && elapsed >= 0.0
    ensures Inv(ttl, Apply(ttl, s, Tick(elapsed)))
  {
    var s' := Apply(ttl, s, Tick(elapsed));
    assert AllKeptOk(s') by {
      assert forall i :: 0 <= i < |s.kept| ==> KeptOk(s.calls, s.now, s.kept[i]);
    }
    assert EntriesOk(ttl, s') by {
      assert forall payload :: EntryOk(ttl, s.cache, s.kept, payload);
    }
    hide KeptOk, CallOk, EntryOk, EntriesOk, AllKeptOk;
    forall id | 0 <= id < |s.calls|
      ensures CallOk(ttl, s.kept, s'.now, s.calls[id])
    {
      CallStays(ttl, s.kept, [], s.now, s'.now, s.calls[id]);
      assert s.kept + [] == s.kept;
    }
  }

  /** The lookup step: the cache entry answers as the last text stored for the payload. */
  lemma LookupOk(ttl: int, s: State, payload: Fields, fails: bool)
    requires EntryOk(ttl, s.cache, s.kept, payload) && AllKeptOk(s)
    ensures CallOk(ttl, s.kept, s.now, Apply(ttl, s, Begin(payload, fails)).calls[|s.calls|])
  {
    assert forall i :: 0 <= i < |s.kept| ==> KeptOk(s.calls, s.now, s.kept[i]);
    LastForIs(s.kept, payload);
    assert s.kept[..|s.kept|] == s.kept;
    hide LastFor;
  }

  lemma BeginKeeps(ttl: int, s: State, payload: Fields, fails: bool)
    requires Inv(ttl, s)
    ensures Inv(ttl, Apply(ttl, s, Begin(payload, fails)))
  {
    var s' := Apply(ttl, s, Begin(payload, fails));
    LookupOk(ttl, s, payload, fails) by {
      assert EntryOk(ttl, s.cache, s.kept, payload);
    }
    assert AllKeptOk(s') by {
      assert forall i :: 0 <= i < |s.kept| ==> KeptOk(s.calls, s.now, s.kept[i]);
    }
    assert EntriesOk(ttl, s') by {
      assert forall payload :: EntryOk(ttl, s.cache, s.kept, payload);
    }
    hide CallOk, EntriesOk, AllKeptOk;
  }

  lemma CallsSet(ttl: int, s: State, id: nat, c: Call)
    requires AllKeptOk(s) && CallsOk(ttl, s) && id < |s.calls| && !s.calls[id].phase.Answered?
    requires CallOk(ttl, s.kept, s.now, c)
    ensures AllKeptOk(s.(calls := s.calls[id := c])) && CallsOk(ttl, s.(calls := s.calls[id := c]))
  {
    forall i | 0 <= i < |s.kept|
      ensures KeptOk(s.calls[id := c], s.now, s.kept[i])
    {
      KeptSet(s.calls, s.now, id, c, s.kept[i]);
    }
    hide KeptOk, CallOk;
  }

  lemma ReceiveKeeps(ttl: int, s: State, id: nat, reply: ModelReply)
    requires Inv(ttl, s) && Enabled(s, Receive(id, reply))
    ensures Inv(ttl, Apply(ttl, s, Receive(id, reply)))
  {
    var s' := Apply(ttl, s, Receive(id, reply));
    ModelTextNotEmpty(reply);
    CallMoves(ttl, s.kept, s.now, s.calls[id], s'.calls[id].phase);
    CallsSet(ttl, s, id, s'.calls[id]);
    assert EntriesOk(ttl, s') by {
      assert forall payload :: EntryOk(ttl, s.cache, s.kept, payload);
    }
    hide CallsOk, EntriesOk, AllKeptOk, CallOk;
  }

  lemma StoreEntries(ttl: int, s: State, id: nat, fails: bool)
    requires EntriesOk(ttl, s) && Enabled(s, Store(id, fails))
    ensures EntriesOk(ttl, Apply(ttl, s, Store(id, fails)))
  {
    var s' := Apply(ttl, s, Store(id, fails));
    assert s.kept + [] == s.kept;
    forall payload
      ensures EntryOk(ttl, s'.cache, s'.kept, payload)
    {
      assert EntryOk(ttl, s.cache, s.kept, payload);
      assert s'.kept != s.kept ==> s'.kept[..|s'.kept| - 1] == s.kept;
    }
  }

  lemma StoreKeeps(ttl: int, s: State, id: nat, fails: bool)
    requires Inv(ttl, s) && Enabled(s, Store(id, fails))
    ensures Inv(ttl, Apply(ttl, s, Store(id, fails)))
  {
    var s' := Apply(ttl, s, Store(id, fails));
    var more := s'.kept[|s.kept|..];
    assert s'.kept == s.kept + more;
    StoreEntries(ttl, s, id, fails);
    assert CallOk(ttl, s.kept, s.now, s.calls[id]);
    CallMoves(ttl, s.kept, s.now, s.calls[id], s'.calls[id].phase);
    CallsSet(ttl, s, id, s'.calls[id]);
    assert forall k :: k in more ==> KeptOk(s'.calls, s'.now, k);
    assert InOrder(s'.kept) by {
      assert forall i :: 0 <= i < |s.kept| ==> KeptOk(s.calls, s.now, s.kept[i]);
    }
    hide KeptOk, CallOk, EntriesOk, EntryOk, CacheAfter, LastFor;
    forall j | 0 <= j < |s'.calls|
      ensures CallOk(ttl, s'.kept, s'.now, s'.calls[j])
    {
      CallStays(ttl, s.kept, more, s.now, s'.now, s'.calls[j]);
    }
  }

  lemma {:induction false} RunInv(ttl: int, at: real, steps: seq<Step>)
    ensures Inv(ttl, Run(ttl, at, steps))
  {
    if steps != [] {
      var front, step := steps[..|steps| - 1], steps[|steps| - 1];
      RunInv(ttl, at, front);
      var s := Run(ttl, at, front);
      hide Inv;
      if Enabled(s, step) {
        match step
        case Tick(elapsed) => TickKeeps(ttl, s, elapsed);
        case Begin(payload, fails) => BeginKeeps(ttl, s, payload, fails);
        case Receive(id, reply) => ReceiveKeeps(ttl, s, id, reply);
        case Store(id, fails) => StoreKeeps(ttl, s, id, fails);
      }
    }
  }

  // ---- what every interleaving keeps ----

  /** The i-th stored text answers the lookup: it is the last for the payload before it, and young enough. */
  ghost predicate Answers(ttl: int, s: State, i: int, c: Call)
  {
    0 <= i < c.seen <= |s.kept| && s.kept[i].payload == c.payload &&
    s.kept[i].at <= c.looked < s.kept[i].at + ttl as real &&
    forall k :: i < k < c.seen ==> s.kept[k].payload != c.payload
  }

  /** In every interleaving a request is answered from the cache exactly if Redis did not fail to look up and the
      last text stored before for an equal payload is younger than the time-to-live. The answer is that text, which
      another request got from the model. */
  lemma CachedIffFresh(ttl: int, at: real, steps: seq<Step>, id: nat)
    requires id < |Run(ttl, at, steps).calls|
    ensures var s := Run(ttl, at, steps);
            var c := s.calls[id];
            (FromCache(c) <==> !c.lookupFailed && exists i :: Answers(ttl, s, i, c)) &&
            forall i :: FromCache(c) && Answers(ttl, s, i, c) ==>
              c.phase.response.text == s.kept[i].text && s.kept[i].call != id && s.kept[i].call < |s.calls| &&
              s.calls[s.kept[i].call].payload == c.payload &&
              s.calls[s.kept[i].call].phase == Answered(Explained(s.kept[i].text, false))
  {
    var s := Run(ttl, at, steps);
    var c := s.calls[id];
    RunInv(ttl, at, steps);
    assert CallOk(ttl, s.kept, s.now, c);
    LastAnswers(ttl, s, c);
    forall i | Answers(ttl, s, i, c)
      ensures KeptOk(s.calls, s.now, s.kept[i])
    {
    }
    hide Run, Inv, CallsOk, AllKeptOk, EntriesOk, InOrder, Answers, LastFor;
  }

  /** The text that answers a lookup is the last one stored for its payload. */
  lemma LastAnswers(ttl: int, s: State, c: Call)
    requires c.seen <= |s.kept| && forall i :: 0 <= i < c.seen ==> s.kept[i].at <= c.looked
    ensures var last := LastFor(s.kept[..c.seen], c.payload);
            (last.Some? && c.looked < last.value.at + ttl as real <==> exists i :: Answers(ttl, s, i, c)) &&
            forall i :: Answers(ttl, s, i, c) ==> last == Some(s.kept[i])
  {
    var kept := s.kept[..c.seen];
    var last := LastFor(kept, c.payload);
    LastForIs(kept, c.payload);
    hide LastFor;
    forall i | Answers(ttl, s, i, c)
      ensures last == Some(s.kept[i])
    {
      assert kept[i] == s.kept[i];
      assert last.Some?;
      var j :| 0 <= j < |kept| && kept[j] == last.value && kept[j].payload == c.payload &&
               forall k :: j < k < |kept| ==> kept[k].payload != c.payload;
      assert kept[j] == s.kept[j];
    }
    if last.Some? && c.looked < last.value.at + ttl as real {
      var j :| 0 <= j < |kept| && kept[j] == last.value && kept[j].payload == c.payload &&
               forall k :: j < k < |kept| ==> kept[k].payload != c.payload;
      assert forall k :: j < k < c.seen ==> s.kept[k] == kept[k];
      assert Answers(ttl, s, j, c);
    }
  }

  lemma {:induction false} LastIsLatest(kept: seq<Kept>, payload: Fields, i: nat)
    requires InOrder(kept) && i < |kept| && kept[i].payload == payload
    ensures LastFor(kept, payload).Some? && kept[i].at <= LastFor(kept, payload).value.at
  {
    if kept[|kept| - 1].payload != payload {
      LastIsLatest(kept[..|kept| - 1], payload, i);
    }
  }

  /** In every interleaving a request that looks up and calls the model finds every text stored before for an equal
      payload at least a time-to-live old. */
  lemma MissesAreOld(ttl: int, at: real, steps: seq<Step>, id: nat, i: nat)
    requires var s := Run(ttl, at, steps);
             id < |s.calls| && !FromCache(s.calls[id]) && !s.calls[id].lookupFailed &&
             i < s.calls[id].seen && i < |s.kept| && s.kept[i].payload == s.calls[id].payload
    ensures var s := Run(ttl, at, steps); s.kept[i].at + ttl as real <= s.calls[id].looked
  {
    var s := Run(ttl, at, steps);
    var c := s.calls[id];
    RunInv(ttl, at, steps);
    assert CallOk(ttl, s.kept, s.now, c);
    hide Run, EntriesOk, AllKeptOk, CallsOk, LastFor;
    LastIsLatest(s.kept[..c.seen], c.payload, i);
  }

  /** Two requests that look up before either text is stored both call the model: the cache does not join them. */
  lemma SimultaneousMisses(ttl: int, at: real, payload: Fields, reply: ModelReply)
    requires ModelText(reply).Ok?
    ensures var steps := [Begin(payload, false), Begin(payload, false), Receive(0, reply), Receive(1, reply)];
            var called := Call(payload, at, false, 0, Storing(ModelText(reply).value));
            Run(ttl, at, steps).calls == [called, called]
  {
    hide ModelText, CacheAfter;
    var steps := [Begin(payload, false), Begin(payload, false), Receive(0, reply), Receive(1, reply)];
    var missed := Call(payload, at, false, 0, Calling);
    var called := missed.(phase := Storing(ModelText(reply).value));
    RunStep(ttl, at, [], steps[0]);
    assert Run(ttl, at, []) == Start(at);
    assert [] + [steps[0]] == steps[..1] && steps[..1] + [steps[1]] == steps[..2];
    assert steps[..2] + [steps[2]] == steps[..3] && steps[..3] + [steps[3]] == steps;
    assert Run(ttl, at, steps[..1]) == State(at, map[], [missed], []);
    RunStep(ttl, at, steps[..1], steps[1]);
    assert Run(ttl, at, steps[..2]) == State(at, map[], [missed, missed], []);
    RunStep(ttl, at, steps[..2], steps[2]);
    RunStep(ttl, at, steps[..3], steps[3]);
    hide Run;
  }

  // ---- requests one after another ----

  /** The protocol run is at the server's time with the server's cache. */
  ghost predicate Matches(ttl: int, at: real, steps: seq<Step>, s: Server)
  {
    Run(ttl, at, steps).now == s.now && Run(ttl, at, steps).cache == s.cache
  }

  lemma TickMatches(ttl: int, at: real, steps: seq<Step>, s: Server, elapsed: real)
    requires Matches(ttl, at, steps, s) && elapsed >= 0.0
    ensures Matches(ttl, at, steps + [Tick(elapsed)], s.(now := s.now + elapsed))
    ensures Run(ttl, at, steps + [Tick(elapsed)]).calls == Run(ttl, at, steps).calls
  {
    RunStep(ttl, at, steps, Tick(elapsed));
  }

  /** The phase of a request after the model's reply has been received and its text, if any, stored. */
  function PhaseAfter(reply: ModelReply): Phase
  {
    Answered(match ModelText(reply) case Ok(text) => Explained(text, false) case Err(answer) => answer)
  }

  /** What is left of a request after its lookup, with no other step in between. */
  function Called(ttl: int, s: State, id: nat, r: Request): State
  {
    Apply(ttl, Apply(ttl, Apply(ttl, s, Tick(r.modelTime)), Receive(id, r.reply)), Store(id, r.storeFails))
  }

  lemma CalledIs(ttl: int, s: State, id: nat, r: Request)
    requires WellTimed(r) && id < |s.calls| && s.calls[id].phase.Calling?
    ensures var s' := Called(ttl, s, id, r);
            var text := ModelText(r.reply);
            s'.now == s.now + r.modelTime &&
            s'.calls == s.calls[id := s.calls[id].(phase := PhaseAfter(r.reply))] &&
            s'.cache == if text.Err? then s.cache
                        else CacheAfter(s.cache, s.calls[id].payload, text.value, ttl, s'.now, r.storeFails)
  {
    hide ModelText, CacheAfter, Lookup;
  }

  lemma CalledRun(ttl: int, at: real, steps: seq<Step>, id: nat, r: Request) returns (more: seq<Step>)
    ensures Run(ttl, at, more) == Called(ttl, Run(ttl, at, steps), id, r)
  {
    hide Apply;
    RunStep(ttl, at, steps, Tick(r.modelTime));
    more := steps + [Tick(r.modelTime)];
    RunStep(ttl, at, more, Receive(id, r.reply));
    more := more + [Receive(id, r.reply)];
    RunStep(ttl, at, more, Store(id, r.storeFails));
    more := more + [Store(id, r.storeFails)];
    hide Run;
  }

  /** A request that no other interrupts is a lookup, the time of the model call, its reply and the store. */
  lemma OneExplanation(cfg: Config, at: real, steps: seq<Step>, s: Server, r: Request, payload: Fields)
    returns (more: seq<Step>)
    requires Matches(cfg.ttl, at, steps, s) && WellTimed(r)
    ensures Matches(cfg.ttl, at, more, Explain(cfg, s, r, payload).0)
    ensures var calls := Run(cfg.ttl, at, more).calls;
            |calls| == |Run(cfg.ttl, at, steps).calls| + 1 &&
            var c := calls[|calls| - 1];
            c.payload == payload && c.looked == s.now && c.phase == Answered(Explain(cfg, s, r, payload).1)
  {
    var id := |Run(cfg.ttl, at, steps).calls|;
    more := steps + [Begin(payload, r.lookupFails)];
    RunStep(cfg.ttl, at, steps, Begin(payload, r.lookupFails));
    hide Run, ModelText, CacheAfter, Lookup, Called;
    if Run(cfg.ttl, at, more).calls[id].phase.Calling? {
      CalledIs(cfg.ttl, Run(cfg.ttl, at, more), id, r);
      more := CalledRun(cfg.ttl, at, more, id, r);
    }
  }

  /** Every sequential run of the endpoint is a run of the protocol with the same cache at every time. */
  lemma {:induction false} RunsMatch(cfg: Config, at: real, requests: seq<Request>) returns (steps: seq<Step>)
    requires AllWellTimed(requests)
    ensures Matches(cfg.ttl, at, steps, After(cfg, at, requests))
  {
    if requests == [] {
      steps := [];
    } else {
      var front, r := requests[..|requests| - 1], requests[|requests| - 1];
      var s := After(cfg, at, front);
      steps := RunsMatch(cfg, at, front);
      TickMatches(cfg.ttl, at, steps, s, r.gap);
      steps := steps + [Tick(r.gap)];
      var begun := s.(now := s.now + r.gap);
      ServedBy(cfg, s, r);
      hide Serve, Explain;
      if cfg.enabled && r.payload.Ok? {
        var counted := begun.(rates := RateAfter(cfg.limit, begun.rates, r.user, begun.now, r.rateFault));
        if RateReply(cfg.limit, begun.rates, r.user, begun.now, r.rateFault).allowed {
          steps := OneExplanation(cfg, at, steps, counted, r, r.payload.value);
        }
      }
    }
  }
}
