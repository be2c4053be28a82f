/** Which version an editor has to send with a save, so that it never overwrites what the editor has not seen. */
module DashboardPolicy {
  import opened Options
  import opened DashboardLock

  /** The version sent by an editor who saw version `seen`: none, or one that lies `ahead` of it. */
  function Sent(ahead: Option<int>, seen: int): Option<int>
  {
    if ahead.Some? then Some(seen + ahead.value) else None
  }

  /** In every run from `first` on, each write by a save that sends this version replaces exactly the state its
      editor saw. */
  ghost predicate NeverOverwrites(ahead: Option<int>, first: Row)
  {
    forall steps, i :: SafeWrite(ahead, first, steps, i)
  }

  ghost predicate SafeWrite(ahead: Option<int>, first: Row, steps: seq<Step>, i: int)
  {
    var s := Run(first, steps);
    0 <= i < |s.writes| ==>
      var w := s.writes[i];
      w.editor < |s.editors| && s.editors[w.editor].phase.Answered? &&
      var e := s.editors[w.editor];
      e.phase.request.Edit? && e.phase.request.version == Sent(ahead, e.seen.version) ==> w.before == e.seen
  }

  function Whole(id: nat, request: Request): seq<Step>
  {
    [Load(id, request), Check(id), Commit(id)]
  }

  /** One editor has read the first state and n others have saved since. */
  function OtherSaves(n: nat): seq<Step>
  {
    if n == 0 then [Fetch] else OtherSaves(n - 1) + [Fetch] + Whole(n, Edit(None, map[Name := "other"]))
  }

  lemma RunWhole(first: Row, steps: seq<Step>, id: nat, request: Request)
    ensures Run(first, steps + Whole(id, request)) == Serve(Run(first, steps), id, request)
  {
    var whole := Whole(id, request);
    hide Apply;
    RunStep(first, steps, whole[0]);
    RunStep(first, steps + [whole[0]], whole[1]);
    RunStep(first, steps + [whole[0]] + [whole[1]], whole[2]);
    hide Run;
    assert steps + whole == steps + [whole[0]] + [whole[1]] + [whole[2]];
  }

  lemma {:induction false} AfterOtherSaves(first: Row, n: nat)
    ensures var s := Run(first, OtherSaves(n));
            s.row.version == first.version + n && |s.editors| == n + 1 && s.editors[0] == Editor(first, Seen)
  {
    if n == 0 {
      RunStep(first, [], Fetch);
      assert [] + [Fetch] == [Fetch];
    } else {
      var before, request := OtherSaves(n - 1), Edit(None, map[Name := "other"]);
      AfterOtherSaves(first, n - 1);
      RunStep(first, before, Fetch);
      RunWhole(first, before + [Fetch], n, request);
      var s := Run(first, before + [Fetch]);
      hide Run;
      assert Name in request.fields;
      ServeSaves(s, n, request);
    }
  }

  /** The first editor then saves over all the others. */
  lemma Overwrites(ahead: Option<int>, first: Row, n: nat)
    requires n > 0 && (ahead.Some? ==> ahead.value == n)
    ensures !NeverOverwrites(ahead, first)
  {
    var before, request := OtherSaves(n), Edit(Sent(ahead, first.version), map[Name := "mine"]);
    var steps := before + Whole(0, request);
    AfterOtherSaves(first, n);
    RunWhole(first, before, 0, request);
    var s := Run(first, before);
    assert Name in request.fields;
    ServeSaves(s, 0, request);
    hide Run, Serve;
    assert !SafeWrite(ahead, first, steps, |s.writes|);
  }

  /** A save never overwrites what its editor has not seen exactly if it sends a version that is not ahead of the one
      the editor saw. Without a version, or with a later one, some run overwrites, whatever the first state. */
  lemma NeverOverwritesIff(ahead: Option<int>, first: Row)
    ensures NeverOverwrites(ahead, first) <==> ahead.Some? && ahead.value <= 0
  {
    if ahead.Some? && ahead.value <= 0 {
      forall steps, i
        ensures SafeWrite(ahead, first, steps, i)
      {
        if 0 <= i < |Run(first, steps).writes| {
          NoLostUpdate(first, steps, i);
        }
      }
    } else {
      Overwrites(ahead, first, if ahead.Some? then ahead.value else 1);
    }
  }
}
