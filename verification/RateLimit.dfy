/** The per-user rate limiter of the explain endpoint as a concurrent protocol: the steps of a call (read the clock,
    INCR, EXPIRE after a first INCR) interleave with those of any number of other calls and with time. */
module RateLimit {
  import opened Arithmetic
  import opened Options
  import opened RedisStore

  const BUCKET_SECONDS := 3600.0
  const KEY_TTL := 3700.0

  /** How long a call may take from reading the clock to its INCR: what KEY_TTL adds to an hour. */
  const SLACK := 100.0

  datatype RateKey = RateKey(user: int, bucket: int)

  /** What check_rate_limit returns. */
  datatype Reply = Reply(allowed: bool, current: nat)

  datatype Phase = ClockRead | ExpireOwed | Answered(reply: Reply)

  /** `counted` is what the call's INCR made of the counter, once it has happened, and `raised` whether that INCR
      raised an error. */
  datatype Call = Call(user: int, clock: real, counted: Option<nat>, raised: bool, phase: Phase)

  datatype State = State(now: real, keys: Keyspace<RateKey, nat>, calls: seq<Call>)

  /** The two failing steps are Redis errors, which the limiter answers by letting the call through. The server may
      have executed the command all the same, when only its reply was lost. */
  datatype Step =
    | Tick(elapsed: real)
    | Begin(user: int)
    | DoIncr(id: nat)
    | DoExpire(id: nat)
    | IncrFails(id: nat, executed: bool)
    | ExpireFails(id: nat, executed: bool)

  const FAIL_OPEN := Reply(true, 0)

  function Bucket(clock: real): int
  {
    (clock / BUCKET_SECONDS).Floor
  }

  function KeyOf(c: Call): RateKey
  {
    RateKey(c.user, Bucket(c.clock))
  }

  function Start(at: real): State
  {
    State(at, map[], [])
  }

  predicate Enabled(s: State, step: Step)
  {
    match step
    case Tick(elapsed) => elapsed >= 0.0
    case Begin(_) => true
    case DoIncr(id) => id < |s.calls| && s.calls[id].phase.ClockRead?
    case DoExpire(id) => id < |s.calls| && s.calls[id].phase.ExpireOwed?
    case IncrFails(id, _) => id < |s.calls| && s.calls[id].phase.ClockRead?
    case ExpireFails(id, _) => id < |s.calls| && s.calls[id].phase.ExpireOwed?
  }

  /** One atomic step under a positive limit; a step that is not enabled changes nothing. */
  function Apply(limit: int, s: State, step: Step): State
  {
    if !Enabled(s, step) then s else
    match step
    case Tick(elapsed) => s.(now := s.now + elapsed)
    case Begin(user) => s.(calls := s.calls + [Call(user, s.now, None, false, ClockRead)])
    case DoIncr(id) =>
      var c := s.calls[id];
      var n := Incremented(s.keys, KeyOf(c), s.now);
      var phase := if n == 1 then ExpireOwed else Answered(Reply(n <= limit, n));
      s.(keys := Incr(s.keys, KeyOf(c), s.now), calls := s.calls[id := c.(counted := Some(n), phase := phase)])
    case DoExpire(id) =>
      var c := s.calls[id];
      s.(keys := Expire(s.keys, KeyOf(c), KEY_TTL, s.now),
         calls := s.calls[id := c.(phase := Answered(Reply(1 <= limit, 1)))])
    case IncrFails(id, executed) =>
      var c := s.calls[id].(raised := true, phase := Answered(FAIL_OPEN));
      if !executed then s.(calls := s.calls[id := c]) else
      var n := Incremented(s.keys, KeyOf(c), s.now);
      s.(keys := Incr(s.keys, KeyOf(c), s.now), calls := s.calls[id := c.(counted := Some(n))])
    case ExpireFails(id, executed) =>
      var c := s.calls[id].(phase := Answered(FAIL_OPEN));
      s.(keys := if executed then Expire(s.keys, KeyOf(c), KEY_TTL, s.now) else s.keys, calls := s.calls[id := c])
  }

  /** Every sequence of steps is a run. */
  function Run(limit: int, at: real, steps: seq<Step>): State
  {
    if steps == [] then Start(at) else Apply(limit, Run(limit, at, steps[..|steps| - 1]), steps[|steps| - 1])
  }

  /** The step executes an INCR. */
  predicate Counts(step: Step)
  {
    step.DoIncr? || (step.IncrFails? && step.executed)
  }

  predicate InTime(s: State, step: Step, slack: real)
  {
    Counts(step) && step.id < |s.calls| ==> s.now <= s.calls[step.id].clock + slack
  }

  /** In the run no INCR comes more than `slack` seconds after its call read the clock. */
  predicate Timely(limit: int, at: real, steps: seq<Step>, slack: real)
  {
    steps == [] ||
    (var front := steps[..|steps| - 1];
     Timely(limit, at, front, slack) && InTime(Run(limit, at, front), steps[|steps| - 1], slack))
  }

  lemma RunStep(limit: int, at: real, steps: seq<Step>, step: Step)
    ensures Run(limit, at, steps + [step]) == Apply(limit, Run(limit, at, steps), step)
    ensures forall slack :: Timely(limit, at, steps + [step], slack) <==>
                            Timely(limit, at, steps, slack) && InTime(Run(limit, at, steps), step, slack)
  {
    assert (steps + [step])[..|steps|] == steps;
  }

  // ---- counting calls ----

  function Count(calls: seq<Call>, p: Call -> bool): nat
  {
    if calls == [] then 0 else Count(calls[..|calls| - 1], p) + (if p(calls[|calls| - 1]) then 1 else 0)
  }

  /** Calls of the key whose INCR has happened. */
  function CountedFor(key: RateKey): Call -> bool
  {
    (c: Call) => KeyOf(c) == key && c.counted.Some?
  }

  /** Counted calls of the key that the counter admits. */
  function AdmittedFor(key: RateKey, limit: int): Call -> bool
  {
    (c: Call) => KeyOf(c) == key && c.counted.Some? && c.counted.value <= limit
  }

  /** Calls of the key let through because INCR failed without being executed. */
  function UncountedFor(key: RateKey): Call -> bool
  {
    (c: Call) => KeyOf(c) == key && c.counted.None? && c.phase.Answered?
  }

  /** Calls of the key that the counter does not admit, but whose INCR reply was lost. */
  function LostFor(key: RateKey, limit: int): Call -> bool
  {
    (c: Call) => KeyOf(c) == key && c.counted.Some? && c.counted.value > limit && c.raised
  }

  /** Calls of the key that were told they may go on. */
  function AllowedFor(key: RateKey): Call -> bool
  {
    (c: Call) => KeyOf(c) == key && c.phase.Answered? && c.phase.reply.allowed
  }

  function CallsFor(key: RateKey): Call -> bool
  {
    (c: Call) => KeyOf(c) == key
  }

  lemma {:induction false} CountUpdate(calls: seq<Call>, id: nat, c: Call, p: Call -> bool)
    requires id < |calls|
    ensures Count(calls[id := c], p) ==
            Count(calls, p) - (if p(calls[id]) then 1 else 0) + (if p(c) then 1 else 0)
  {
    var last := |calls| - 1;
    if id == last {
      assert calls[id := c][..last] == calls[..last];
    } else {
      CountUpdate(calls[..last], id, c, p);
      assert calls[id := c][..last] == calls[..last][id := c];
    }
  }

  lemma CountAppend(calls: seq<Call>, c: Call, p: Call -> bool)
    ensures Count(calls + [c], p) == Count(calls, p) + (if p(c) then 1 else 0)
  {
    assert (calls + [c])[..|calls|] == calls;
  }

  // ---- the invariant of timely runs ----

  /** A call's stage agrees with what it has done, and it read the clock in the past. */
  ghost predicate CallOk(c: Call, limit: int, now: real)
  {
    && c.clock <= now
    && (c.counted.Some? ==> c.counted.value >= 1)
    && (c.phase.ClockRead? ==> c.counted.None? && !c.raised)
    && (c.phase.ExpireOwed? ==> c.counted == Some(1) && !c.raised)
    && (c.phase.Answered? && c.raised ==> c.phase.reply == FAIL_OPEN)
    && (c.phase.Answered? && !c.raised ==>
          c.counted.Some? &&
          (c.phase.reply == Reply(c.counted.value <= limit, c.counted.value) ||
           (c.counted == Some(1) && c.phase.reply == FAIL_OPEN)))
  }

  ghost predicate CallsOk(limit: int, s: State)
  {
    forall i :: 0 <= i < |s.calls| ==> CallOk(s.calls[i], limit, s.now)
  }

  /** The counter of a key is the number of INCRs made on it, and it outlives the key's bucket. */
  ghost predicate KeyOk(limit: int, s: State, key: RateKey)
  {
    var n := Count(s.calls, CountedFor(key));
    && (n == 0 <==> key !in s.keys)
    && (n > 0 ==> s.keys[key].value == n)
    && (n > 0 && s.keys[key].deadline.Some? ==>
          s.keys[key].deadline.value >= key.bucket as real * BUCKET_SECONDS + KEY_TTL)
    && Count(s.calls, AdmittedFor(key, limit)) == Min(n, limit)
  }

  ghost predicate Inv(limit: int, s: State)
  {
    CallsOk(limit, s) && forall key :: KeyOk(limit, s, key)
  }

  /** A clock value lies in its bucket's hour. */
  lemma BucketBounds(clock: real)
    ensures Bucket(clock) as real * BUCKET_SECONDS <= clock < Bucket(clock) as real * BUCKET_SECONDS + BUCKET_SECONDS
  {
    var q := clock / BUCKET_SECONDS;
    assert q.Floor as real <= q < q.Floor as real + 1.0;
  }

  /** The timing argument: an INCR in time finds the counter alive if the key was ever counted. */
  lemma LiveWhenIncremented(limit: int, s: State, id: nat)
    requires Inv(limit, s) && id < |s.calls|
    requires s.now <= s.calls[id].clock + SLACK
    ensures Live(s.keys, KeyOf(s.calls[id]), s.now) <==> Count(s.calls, CountedFor(KeyOf(s.calls[id]))) > 0
  {
    BucketBounds(s.calls[id].clock);
    assert KeyOk(limit, s, KeyOf(s.calls[id]));
  }

  lemma IncrKeepsKey(limit: int, s: State, step: Step, key: RateKey)
    requires limit > 0 && KeyOk(limit, s, key) && Enabled(s, step) && Counts(step)
    requires s.calls[step.id].counted.None?
    requires var k := KeyOf(s.calls[step.id]); Live(s.keys, k, s.now) <==> Count(s.calls, CountedFor(k)) > 0
    ensures KeyOk(limit, Apply(limit, s, step), key)
  {
    var s' := Apply(limit, s, step);
    CountUpdate(s.calls, step.id, s'.calls[step.id], CountedFor(key));
    CountUpdate(s.calls, step.id, s'.calls[step.id], AdmittedFor(key, limit));
  }

  lemma IncrKeepsInv(limit: int, s: State, step: Step)
    requires limit > 0 && Inv(limit, s) && Enabled(s, step) && Counts(step) && InTime(s, step, SLACK)
    ensures Inv(limit, Apply(limit, s, step))
  {
    var s' := Apply(limit, s, step);
    LiveWhenIncremented(limit, s, step.id);
    assert CallOk(s.calls[step.id], limit, s.now);
    forall key ensures KeyOk(limit, s', key) {
      hide Apply, CallsOk, CallOk;
      IncrKeepsKey(limit, s, step, key);
    }
  }

  /** A step that leaves what was counted as it was keeps the counts of every key. */
  lemma SameCounts(limit: int, calls: seq<Call>, id: nat, c: Call, key: RateKey)
    requires id < |calls| && KeyOf(c) == KeyOf(calls[id]) && c.counted == calls[id].counted
    ensures Count(calls[id := c], CountedFor(key)) == Count(calls, CountedFor(key))
    ensures Count(calls[id := c], AdmittedFor(key, limit)) == Count(calls, AdmittedFor(key, limit))
  {
    CountUpdate(calls, id, c, CountedFor(key));
    CountUpdate(calls, id, c, AdmittedFor(key, limit));
  }

  lemma OtherStepKeepsKey(limit: int, s: State, step: Step, key: RateKey)
    requires KeyOk(limit, s, key) && Enabled(s, step) && !Counts(step)
    requires step.DoExpire? || step.ExpireFails? ==> s.calls[step.id].clock <= s.now
    ensures KeyOk(limit, Apply(limit, s, step), key)
  {
    var s' := Apply(limit, s, step);
    match step {
      case Tick(_) =>
      case Begin(user) =>
        CountAppend(s.calls, s'.calls[|s.calls|], CountedFor(key));
        CountAppend(s.calls, s'.calls[|s.calls|], AdmittedFor(key, limit));
      case DoExpire(id) =>
        SameCounts(limit, s.calls, id, s'.calls[id], key);
        BucketBounds(s.calls[id].clock);
      case IncrFails(id, _) =>
        SameCounts(limit, s.calls, id, s'.calls[id], key);
      case ExpireFails(id, _) =>
        SameCounts(limit, s.calls, id, s'.calls[id], key);
        BucketBounds(s.calls[id].clock);
    }
  }

  lemma OtherStepKeepsCalls(limit: int, s: State, step: Step)
    requires limit > 0 && CallsOk(limit, s) && Enabled(s, step) && !Counts(step)
    ensures CallsOk(limit, Apply(limit, s, step))
  {
    var s' := Apply(limit, s, step);
    forall i | 0 <= i < |s'.calls| ensures CallOk(s'.calls[i], limit, s'.now) {
      assert i < |s.calls| ==> CallOk(s.calls[i], limit, s.now);
    }
  }

  lemma OtherStepKeepsInv(limit: int, s: State, step: Step)
    requires limit > 0 && Inv(limit, s) && Enabled(s, step) && !Counts(step)
    ensures Inv(limit, Apply(limit, s, step))
  {
    OtherStepKeepsCalls(limit, s, step);
    assert forall i :: 0 <= i < |s.calls| ==> CallOk(s.calls[i], limit, s.now);
    hide KeyOk, CallsOk, Apply;
    forall key ensures KeyOk(limit, Apply(limit, s, step), key) {
      OtherStepKeepsKey(limit, s, step, key);
    }
  }

  lemma {:induction false} TimelyRunsKeepInv(limit: int, at: real, steps: seq<Step>)
    requires limit > 0 && Timely(limit, at, steps, SLACK)
    ensures Inv(limit, Run(limit, at, steps))
  {
    if steps != [] {
      var front, step := steps[..|steps| - 1], steps[|steps| - 1];
      TimelyRunsKeepInv(limit, at, front);
      var s := Run(limit, at, front);
      if Enabled(s, step) {
        if Counts(step) {
          IncrKeepsInv(limit, s, step);
        } else {
          OtherStepKeepsInv(limit, s, step);
        }
      }
    }
  }

  // ---- exactness ----

  /** In every timely run the counter that an INCR meets has counted every earlier INCR of its key:
      the n-th INCR of a user's bucket returns n. */
  lemma NoEarlyExpiry(limit: int, at: real, steps: seq<Step>, id: nat)
    requires limit > 0 && Timely(limit, at, steps + [DoIncr(id)], 100.0)
    requires Enabled(Run(limit, at, steps), DoIncr(id))
    ensures var s := Run(limit, at, steps);
            Run(limit, at, steps + [DoIncr(id)]).calls[id].counted ==
            Some(Count(s.calls, CountedFor(KeyOf(s.calls[id]))) + 1)
  {
    assert (steps + [DoIncr(id)])[..|steps|] == steps;
    var s := Run(limit, at, steps);
    TimelyRunsKeepInv(limit, at, steps);
    LiveWhenIncremented(limit, s, id);
    assert KeyOk(limit, s, KeyOf(s.calls[id]));
  }

  ghost predicate Quiescent(s: State)
  {
    forall i :: 0 <= i < |s.calls| ==> s.calls[i].phase.Answered?
  }

  /** Among answered calls, those allowed are those the counter admits, those never counted, and those whose count
      the limiter never learned. */
  lemma {:induction false} AllowedSplit(limit: int, now: real, calls: seq<Call>, key: RateKey)
    requires limit > 0
    requires forall i :: 0 <= i < |calls| ==> CallOk(calls[i], limit, now) && calls[i].phase.Answered?
    ensures Count(calls, AllowedFor(key)) ==
            Count(calls, AdmittedFor(key, limit)) + Count(calls, UncountedFor(key)) + Count(calls, LostFor(key, limit))
    ensures Count(calls, CallsFor(key)) == Count(calls, CountedFor(key)) + Count(calls, UncountedFor(key))
  {
    if calls != [] {
      AllowedSplit(limit, now, calls[..|calls| - 1], key);
      assert CallOk(calls[|calls| - 1], limit, now);
    }
  }

  lemma InvAllows(limit: int, s: State, key: RateKey)
    requires limit > 0 && Inv(limit, s) && Quiescent(s)
    ensures var failed := Count(s.calls, UncountedFor(key));
            Count(s.calls, AllowedFor(key)) ==
            Min(Count(s.calls, CallsFor(key)) - failed, limit) + failed + Count(s.calls, LostFor(key, limit))
  {
    AllowedSplit(limit, s.now, s.calls, key);
    assert KeyOk(limit, s, key);
    hide Inv, CallsOk, CallOk, Quiescent, Count, CountedFor, AdmittedFor, UncountedFor, LostFor, AllowedFor, CallsFor;
  }

  /** Once every call has its answer, exactly min(counted calls, limit) calls of a user's bucket were let through,
      and besides them only the calls whose INCR failed or whose INCR reply was lost. */
  lemma ExactlyLimitAllowed(limit: int, at: real, steps: seq<Step>, key: RateKey)
    requires limit > 0 && Timely(limit, at, steps, 100.0) && Quiescent(Run(limit, at, steps))
    ensures var calls := Run(limit, at, steps).calls;
            var failed := Count(calls, UncountedFor(key));
            Count(calls, AllowedFor(key)) ==
            Min(Count(calls, CallsFor(key)) - failed, limit) + failed + Count(calls, LostFor(key, limit))
  {
    TimelyRunsKeepInv(limit, at, steps);
    hide Run, Timely, Inv, Quiescent, Count;
    InvAllows(limit, Run(limit, at, steps), key);
  }

  // ---- one call made alone ----

  lemma BeginNewest(limit: int, at: real, steps: seq<Step>, user: int)
    requires Timely(limit, at, steps, SLACK)
    ensures Timely(limit, at, steps + [Begin(user)], SLACK)
    ensures var s := Run(limit, at, steps);
            var c := Call(user, s.now, None, false, ClockRead);
            Run(limit, at, steps + [Begin(user)]) == s.(calls := s.calls + [c]) &&
            Count(s.calls + [c], CountedFor(KeyOf(c))) == Count(s.calls, CountedFor(KeyOf(c)))
  {
    var s := Run(limit, at, steps);
    var c := Call(user, s.now, None, false, ClockRead);
    RunStep(limit, at, steps, Begin(user));
    CountAppend(s.calls, c, CountedFor(KeyOf(c)));
  }

  lemma CountNewest(limit: int, at: real, steps: seq<Step>, id: nat)
    requires limit > 0 && Timely(limit, at, steps, SLACK)
    requires var s := Run(limit, at, steps);
             id + 1 == |s.calls| && s.calls[id].phase.ClockRead? && s.calls[id].clock == s.now
    ensures Timely(limit, at, steps + [DoIncr(id)], SLACK)
    ensures var s := Run(limit, at, steps);
            var key := KeyOf(s.calls[id]);
            var n := Count(s.calls, CountedFor(key)) + 1;
            var phase := if n == 1 then ExpireOwed else Answered(Reply(n <= limit, n));
            var c := s.calls[id].(counted := Some(n), phase := phase);
            n == Incremented(s.keys, key, s.now) &&
            Run(limit, at, steps + [DoIncr(id)]) == s.(keys := Incr(s.keys, key, s.now), calls := s.calls[id := c])
  {
    RunStep(limit, at, steps, DoIncr(id));
    NoEarlyExpiry(limit, at, steps, id);
  }

  /** An INCR that raises an error is answered at once. */
  lemma RaiseNewest(limit: int, at: real, steps: seq<Step>, id: nat, executed: bool)
    requires Timely(limit, at, steps, SLACK)
    requires var s := Run(limit, at, steps);
             id + 1 == |s.calls| && s.calls[id].phase.ClockRead? && s.calls[id].clock == s.now
    ensures Timely(limit, at, steps + [IncrFails(id, executed)], SLACK)
    ensures var s := Run(limit, at, steps);
            var key := KeyOf(s.calls[id]);
            var counted := if executed then Some(Incremented(s.keys, key, s.now)) else s.calls[id].counted;
            var c := s.calls[id].(counted := counted, raised := true, phase := Answered(FAIL_OPEN));
            Run(limit, at, steps + [IncrFails(id, executed)]) ==
            s.(keys := if executed then Incr(s.keys, key, s.now) else s.keys, calls := s.calls[id := c])
  {
    RunStep(limit, at, steps, IncrFails(id, executed));
  }

  /** The step after INCR, which may fail; on a call that has its answer it does nothing. */
  lemma AnswerNewest(limit: int, at: real, steps: seq<Step>, id: nat, step: Step)
    requires id < |Run(limit, at, steps).calls| && Timely(limit, at, steps, SLACK)
    requires step == DoExpire(id) || (step.ExpireFails? && step.id == id)
    ensures var s := Run(limit, at, steps);
            var c := s.calls[id];
            var reply := if step.DoExpire? then Reply(1 <= limit, 1) else FAIL_OPEN;
            var executed := step.DoExpire? || step.executed;
            Timely(limit, at, steps + [step], SLACK) &&
            Run(limit, at, steps + [step]) ==
              if !c.phase.ExpireOwed? then s else
              s.(keys := if executed then Expire(s.keys, KeyOf(c), KEY_TTL, s.now) else s.keys,
                 calls := s.calls[id := c.(phase := Answered(reply))])
  {
    RunStep(limit, at, steps, step);
  }

  /** Which Redis command of a call raises, and whether the server has executed it all the same. */
  datatype Fault = NoFault | IncrFault(executed: bool) | ExpireFault(executed: bool)

  /** The counter after one whole call by itself, and the call's reply. */
  function KeysAfterCall(keys: Keyspace<RateKey, nat>, user: int, now: real, fault: Fault): Keyspace<RateKey, nat>
  {
    var key := RateKey(user, Bucket(now));
    if fault == IncrFault(false) then keys else
    var counted := Incr(keys, key, now);
    if fault == IncrFault(true) || Incremented(keys, key, now) != 1 || fault == ExpireFault(false) then counted
    else Expire(counted, key, KEY_TTL, now)
  }

  function CallReply(limit: int, n: nat, fault: Fault): Reply
  {
    if fault.IncrFault? || (n == 1 && fault.ExpireFault?) then FAIL_OPEN else Reply(n <= limit, n)
  }

  /** What the limiter remembers of a call that made its INCR the n-th of its key. */
  function CallMade(limit: int, user: int, now: real, n: nat, fault: Fault): Call
  {
    Call(user, now, if fault == IncrFault(false) then None else Some(n), fault.IncrFault?,
         Answered(CallReply(limit, n, fault)))
  }

  /** The state after a call made alone, and the counter it met. */
  ghost predicate AfterCall(limit: int, s: State, user: int, fault: Fault, t: State)
  {
    var n := Count(s.calls, CountedFor(RateKey(user, Bucket(s.now)))) + 1;
    n == Incremented(s.keys, RateKey(user, Bucket(s.now)), s.now) &&
    t == State(s.now, KeysAfterCall(s.keys, user, s.now, fault),
               s.calls + [CallMade(limit, user, s.now, n, fault)])
  }

  lemma BegunCall(limit: int, at: real, steps: seq<Step>, user: int)
    requires limit > 0 && Timely(limit, at, steps, SLACK)
    ensures var s, begun := Run(limit, at, steps), steps + [Begin(user)];
            Timely(limit, at, begun, SLACK) &&
            Run(limit, at, begun) == s.(calls := s.calls + [Call(user, s.now, None, false, ClockRead)]) &&
            Count(s.calls, CountedFor(RateKey(user, Bucket(s.now)))) + 1 ==
            Incremented(s.keys, RateKey(user, Bucket(s.now)), s.now)
  {
    BeginNewest(limit, at, steps, user);
    CountNewest(limit, at, steps + [Begin(user)], |Run(limit, at, steps).calls|);
  }

  lemma RaisedCall(limit: int, at: real, steps: seq<Step>, user: int, executed: bool) returns (more: seq<Step>)
    requires limit > 0 && Timely(limit, at, steps, SLACK)
    ensures Timely(limit, at, more, SLACK)
    ensures AfterCall(limit, Run(limit, at, steps), user, IncrFault(executed), Run(limit, at, more))
  {
    var s := Run(limit, at, steps);
    BegunCall(limit, at, steps, user);
    RaiseNewest(limit, at, steps + [Begin(user)], |s.calls|, executed);
    more := steps + [Begin(user)] + [IncrFails(|s.calls|, executed)];
    hide Run, Timely, Incr, Incremented, Count, CountedFor;
  }

  lemma AnsweredCall(limit: int, at: real, steps: seq<Step>, user: int, fault: Fault) returns (more: seq<Step>)
    requires limit > 0 && Timely(limit, at, steps, SLACK) && !fault.IncrFault?
    ensures Timely(limit, at, more, SLACK)
    ensures AfterCall(limit, Run(limit, at, steps), user, fault, Run(limit, at, more))
  {
    hide Run, Timely, Incr, Expire, Incremented, Count, CountedFor;
    var s := Run(limit, at, steps);
    var id, begun := |s.calls|, steps + [Begin(user)];
    var answer := if fault.ExpireFault? then ExpireFails(id, fault.executed) else DoExpire(id);
    BegunCall(limit, at, steps, user);
    CountNewest(limit, at, begun, id);
    AnswerNewest(limit, at, begun + [DoIncr(id)], id, answer);
    more := begun + [DoIncr(id)] + [answer];
  }

  /** The steps of one call while no other call is under way. */
  lemma OneCall(limit: int, at: real, steps: seq<Step>, user: int, fault: Fault) returns (more: seq<Step>)
    requires limit > 0 && Timely(limit, at, steps, SLACK) && Quiescent(Run(limit, at, steps))
    ensures Timely(limit, at, more, SLACK) && Quiescent(Run(limit, at, more))
    ensures AfterCall(limit, Run(limit, at, steps), user, fault, Run(limit, at, more))
  {
    if fault.IncrFault? {
      more := RaisedCall(limit, at, steps, user, fault.executed);
    } else {
      more := AnsweredCall(limit, at, steps, user, fault);
    }
    hide Run, Timely, Incremented, Count, CountedFor, KeysAfterCall;
  }

  // ---- the sliding window the module promises, and what it gets ----

  /** Calls of a user who read the clock in [from, from + 3600) and were let through, but not because their INCR
      raised an error. */
  function AllowedInWindow(user: int, from: real): Call -> bool
  {
    (c: Call) => c.user == user && from <= c.clock < from + 3600.0 &&
                 !c.raised && c.phase.Answered? && c.phase.reply.allowed
  }

  /** An hour-long window meets two buckets at most. */
  lemma {:induction false} WindowInTwoBuckets(limit: int, now: real, calls: seq<Call>, user: int, from: real)
    requires limit > 0
    requires forall i :: 0 <= i < |calls| ==> CallOk(calls[i], limit, now)
    ensures Count(calls, AllowedInWindow(user, from)) <=
            Count(calls, AdmittedFor(RateKey(user, Bucket(from)), limit)) +
            Count(calls, AdmittedFor(RateKey(user, Bucket(from) + 1), limit))
  {
    if calls != [] {
      var c := calls[|calls| - 1];
      WindowInTwoBuckets(limit, now, calls[..|calls| - 1], user, from);
      assert CallOk(c, limit, now);
      BucketBounds(from);
      BucketBounds(c.clock);
      if AllowedInWindow(user, from)(c) {
        assert Bucket(c.clock) == Bucket(from) || Bucket(c.clock) == Bucket(from) + 1;
      }
    }
  }

  /** In any state of any timely run, at most twice the limit got through in any half-open hour. */
  lemma SlidingWindowBound(limit: int, at: real, steps: seq<Step>, user: int, from: real)
    requires limit > 0 && Timely(limit, at, steps, 100.0)
    ensures Count(Run(limit, at, steps).calls, AllowedInWindow(user, from)) <= 2 * limit
  {
    var s := Run(limit, at, steps);
    TimelyRunsKeepInv(limit, at, steps);
    WindowInTwoBuckets(limit, s.now, s.calls, user, from);
    assert KeyOk(limit, s, RateKey(user, Bucket(from)));
    assert KeyOk(limit, s, RateKey(user, Bucket(from) + 1));
  }
}
