/** How much of the limiter's guarantee is exact: its timing slack is the largest, twice the limit in a sliding hour
    is reached, and the limit holds for the hours that begin with a bucket and no others. */
module RateLimitSharpness {
  import opened Options
  import opened RateLimit

  /** The run that breaks a limit of one as soon as an INCR may be more than SLACK late. */
  function LateRun(late: real): seq<Step>
  {
    [Begin(0), DoIncr(0), DoExpire(0), Tick(BUCKET_SECONDS - late),
     Begin(0), Tick(SLACK + late), DoIncr(1), DoExpire(1)]
  }

  lemma LateRunStates(late: real)
    requires 0.0 < late <= BUCKET_SECONDS
    ensures var first := Call(0, 0.0, Some(1), false, Answered(Reply(true, 1)));
            var second := Call(0, BUCKET_SECONDS - late, Some(1), false, Answered(Reply(true, 1)));
            Run(1, 0.0, LateRun(late)).calls == [first, second]
    ensures Timely(1, 0.0, LateRun(late), SLACK + late)
  {
    BucketBounds(0.0);
    BucketBounds(BUCKET_SECONDS - late);
    var steps := LateRun(late);
    assert steps[..0] == [];
    forall i | 0 <= i < |steps| ensures steps[..i + 1] == steps[..i] + [steps[i]] {}
    RunStep(1, 0.0, steps[..0], steps[0]);
    RunStep(1, 0.0, steps[..1], steps[1]);
    RunStep(1, 0.0, steps[..2], steps[2]);
    RunStep(1, 0.0, steps[..3], steps[3]);
    RunStep(1, 0.0, steps[..4], steps[4]);
    RunStep(1, 0.0, steps[..5], steps[5]);
    RunStep(1, 0.0, steps[..6], steps[6]);
    RunStep(1, 0.0, steps[..7], steps[7]);
    assert steps[..8] == steps;
  }

  /** A hundred seconds is the most a call may take: under any larger allowance some run lets two calls
      of one bucket through a limit of one. */
  lemma SlackIsSharp(slack: real)
    requires slack > 100.0
    ensures exists steps, key :: Timely(1, 0.0, steps, slack) && Quiescent(Run(1, 0.0, steps)) &&
                                 Count(Run(1, 0.0, steps).calls, AllowedFor(key)) == 2 &&
                                 Count(Run(1, 0.0, steps).calls, UncountedFor(key)) == 0 &&
                                 Count(Run(1, 0.0, steps).calls, LostFor(key, 1)) == 0
  {
    var late := if slack - SLACK <= BUCKET_SECONDS then slack - SLACK else BUCKET_SECONDS;
    var steps, key := LateRun(late), RateKey(0, 0);
    LateRunStates(late);
    LateRunCounts(late, key);
    hide Run, Timely, Count, LateRun;
    LongerSlack(1, 0.0, steps, SLACK + late, slack);
  }

  lemma LateRunCounts(late: real, key: RateKey)
    requires 0.0 < late <= BUCKET_SECONDS && key == RateKey(0, 0)
    ensures var calls := Run(1, 0.0, LateRun(late)).calls;
            Count(calls, AllowedFor(key)) == 2 && Count(calls, UncountedFor(key)) == 0 &&
            Count(calls, LostFor(key, 1)) == 0 && forall i :: 0 <= i < |calls| ==> calls[i].phase.Answered?
  {
    LateRunStates(late);
    BucketBounds(0.0);
    BucketBounds(BUCKET_SECONDS - late);
    hide LateRun, Run;
    var calls := Run(1, 0.0, LateRun(late)).calls;
    assert calls == [] + [calls[0]] + [calls[1]];
    CountAppend([], calls[0], AllowedFor(key));
    CountAppend([calls[0]], calls[1], AllowedFor(key));
    CountAppend([], calls[0], UncountedFor(key));
    CountAppend([calls[0]], calls[1], UncountedFor(key));
    CountAppend([], calls[0], LostFor(key, 1));
    CountAppend([calls[0]], calls[1], LostFor(key, 1));
  }

  lemma {:induction false} LongerSlack(limit: int, at: real, steps: seq<Step>, slack: real, longer: real)
    requires slack <= longer && Timely(limit, at, steps, slack)
    ensures Timely(limit, at, steps, longer)
  {
    if steps != [] {
      LongerSlack(limit, at, steps[..|steps| - 1], slack, longer);
    }
  }

  /** A call alone, while the limit of its bucket is not used up. */
  lemma AllowedCall(limit: int, at: real, steps: seq<Step>, user: int) returns (next: seq<Step>, c: Call)
    requires limit > 0 && Timely(limit, at, steps, SLACK) && Quiescent(Run(limit, at, steps))
    requires var s := Run(limit, at, steps); Count(s.calls, CountedFor(RateKey(user, Bucket(s.now)))) < limit
    ensures Timely(limit, at, next, SLACK) && Quiescent(Run(limit, at, next))
    ensures var s, t := Run(limit, at, steps), Run(limit, at, next);
            t.now == s.now && t.calls == s.calls + [c] &&
            c.user == user && c.clock == s.now && c.counted.Some? && !c.raised && c.phase.Answered? &&
            c.phase.reply.allowed
  {
    next := OneCall(limit, at, steps, user, NoFault);
    hide Run, Timely, Quiescent, Count, KeysAfterCall;
    c := Run(limit, at, next).calls[|Run(limit, at, steps).calls|];
  }

  /** `m` whole calls by one user, all within the limit of the bucket and inside the window. */
  lemma {:induction false} Burst(limit: int, at: real, steps: seq<Step>, user: int, m: nat, from: real)
    returns (more: seq<Step>)
    requires limit > 0 && Timely(limit, at, steps, SLACK) && Quiescent(Run(limit, at, steps))
    requires from <= Run(limit, at, steps).now < from + BUCKET_SECONDS
    requires var s := Run(limit, at, steps); Count(s.calls, CountedFor(RateKey(user, Bucket(s.now)))) + m <= limit
    ensures Timely(limit, at, more, SLACK) && Quiescent(Run(limit, at, more))
    ensures Run(limit, at, more).now == Run(limit, at, steps).now
    ensures Count(Run(limit, at, more).calls, AllowedInWindow(user, from)) ==
            Count(Run(limit, at, steps).calls, AllowedInWindow(user, from)) + m
    ensures forall key: RateKey :: key.bucket != Bucket(Run(limit, at, steps).now) ==>
              Count(Run(limit, at, more).calls, CountedFor(key)) == Count(Run(limit, at, steps).calls, CountedFor(key))
    decreases m
  {
    more := steps;
    if m > 0 {
      var s := Run(limit, at, steps);
      var next, c := AllowedCall(limit, at, steps, user);
      hide Run, Timely, Count, Quiescent;
      CountAppend(s.calls, c, AllowedInWindow(user, from));
      CountAppend(s.calls, c, CountedFor(RateKey(user, Bucket(s.now))));
      forall key: RateKey | key.bucket != Bucket(s.now)
        ensures Count(s.calls + [c], CountedFor(key)) == Count(s.calls, CountedFor(key))
      {
        CountAppend(s.calls, c, CountedFor(key));
      }
      more := Burst(limit, at, next, user, m - 1, from);
    }
  }

  /** The module calls its limit a sliding window; it is not one. For every limit there is a timely run,
      one second long, in which one user gets twice the limit through. */
  lemma TwiceTheLimitIsReached(limit: int)
    requires limit > 0
    ensures exists at, steps, user :: Timely(limit, at, steps, SLACK) && Run(limit, at, steps).now <= at + 1.0 &&
                                      Count(Run(limit, at, steps).calls, AllowedInWindow(user, at)) == 2 * limit
  {
    var at := BUCKET_SECONDS - 1.0;
    BucketBounds(at);
    var steps := AcrossBoundary(limit, at, 0);
  }

  // ---- which windows the limit holds for ----

  /** The time from which the next bucket counts. */
  function NextBucket(clock: real): real
  {
    (Bucket(clock) + 1) as real * BUCKET_SECONDS
  }

  /** The limit once before the end of the bucket and once after it. */
  lemma AcrossBoundary(limit: int, from: real, user: int) returns (steps: seq<Step>)
    requires limit > 0 && Bucket(from) as real * BUCKET_SECONDS < from
    ensures Timely(limit, from, steps, SLACK) && Run(limit, from, steps).now == NextBucket(from)
    ensures Count(Run(limit, from, steps).calls, AllowedInWindow(user, from)) == 2 * limit
  {
    var next := NextBucket(from);
    BucketBounds(from);
    BucketBounds(next);
    assert Bucket(next) == Bucket(from) + 1;
    var before := Burst(limit, from, [], user, limit, from);
    var between := before + [Tick(next - from)];
    RunStep(limit, from, before, Tick(next - from));
    assert Count(Start(from).calls, CountedFor(RateKey(user, Bucket(next)))) == 0;
    steps := Burst(limit, from, between, user, limit, from);
  }

  /** A window that begins with a bucket meets that bucket only. */
  lemma {:induction false} AlignedWindowInOneBucket(limit: int, now: real, calls: seq<Call>, user: int, from: real)
    requires limit > 0 && Bucket(from) as real * BUCKET_SECONDS == from
    requires forall i :: 0 <= i < |calls| ==> CallOk(calls[i], limit, now)
    ensures Count(calls, AllowedInWindow(user, from)) <= Count(calls, AdmittedFor(RateKey(user, Bucket(from)), limit))
  {
    if calls != [] {
      var c := calls[|calls| - 1];
      AlignedWindowInOneBucket(limit, now, calls[..|calls| - 1], user, from);
      assert CallOk(c, limit, now);
      BucketBounds(c.clock);
      if AllowedInWindow(user, from)(c) {
        assert Bucket(c.clock) == Bucket(from);
      }
    }
  }

  /** No timely run lets more than the limit of one user through in the hour from `from` on. */
  ghost predicate WindowKept(limit: int, from: real)
  {
    forall at, steps, user :: Timely(limit, at, steps, SLACK) ==>
      Count(Run(limit, at, steps).calls, AllowedInWindow(user, from)) <= limit
  }

  /** Some timely run that starts at `from`, and ends within the hour, lets twice the limit of the user through. */
  ghost predicate TwiceThrough(limit: int, from: real, user: int)
  {
    exists steps :: Timely(limit, from, steps, SLACK) && Run(limit, from, steps).now < from + 3600.0 &&
                    Count(Run(limit, from, steps).calls, AllowedInWindow(user, from)) == 2 * limit
  }

  lemma WindowBroken(limit: int, from: real, at: real, steps: seq<Step>, user: int)
    requires Timely(limit, at, steps, SLACK)
    requires Count(Run(limit, at, steps).calls, AllowedInWindow(user, from)) > limit
    ensures !WindowKept(limit, from)
  {
    hide Timely, Run, Count;
  }

  /** The sliding-window promise is kept exactly for the windows that begin on a full hour; for every other
      window and every user twice the limit can get through. */
  lemma WindowKeptIff(limit: int, from: real)
    requires limit > 0
    ensures WindowKept(limit, from) <==> (from / 3600.0).Floor as real * 3600.0 == from
    ensures !WindowKept(limit, from) ==> forall user :: TwiceThrough(limit, from, user)
  {
    BucketBounds(from);
    if Bucket(from) as real * BUCKET_SECONDS == from {
      forall at, steps, user | Timely(limit, at, steps, SLACK)
        ensures Count(Run(limit, at, steps).calls, AllowedInWindow(user, from)) <= limit
      {
        var s := Run(limit, at, steps);
        TimelyRunsKeepInv(limit, at, steps);
        AlignedWindowInOneBucket(limit, s.now, s.calls, user, from);
        assert KeyOk(limit, s, RateKey(user, Bucket(from)));
      }
    } else {
      forall user ensures TwiceThrough(limit, from, user) {
        var steps := AcrossBoundary(limit, from, user);
      }
      var steps := AcrossBoundary(limit, from, 0);
      WindowBroken(limit, from, from, steps, 0);
    }
  }
}
