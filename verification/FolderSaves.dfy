/** Category requests at the same time: each reads the stored list, and later saves a list made from the one it read. */
module FolderSaves {
  import opened Options
  import opened FolderTree
  import opened FolderFields
  import opened FolderStore
  import FolderRuns

  datatype Pending = Pending(request: Request, read: seq<Category>, answered: bool)

  /** A list that was stored: the request, the list it had read, and the stored list before and after. */
  datatype Saved = Saved(request: Request, read: seq<Category>, before: seq<Category>, after: seq<Category>)

  datatype State = State(stored: seq<Category>, pending: seq<Pending>, saves: seq<Saved>)

  datatype Step = Read(request: Request) | Finish(id: nat)

  ghost predicate Accepted(categories: seq<Category>, request: Request)
  {
    Answer(categories, request).Ok200? || Answer(categories, request).Created201?
  }

  ghost function Apply(s: State, step: Step): State
  {
    match step
    case Read(request) => s.(pending := s.pending + [Pending(request, s.stored, false)])
    case Finish(id) =>
      if id >= |s.pending| || s.pending[id].answered then s else
      var p := s.pending[id];
      var answered := s.(pending := s.pending[id := p.(answered := true)]);
      if !Accepted(p.read, p.request) then answered else
      var after := After(p.read, p.request);
      answered.(stored := after, saves := s.saves + [Saved(p.request, p.read, s.stored, after)])
  }

  ghost function Run(start: seq<Category>, steps: seq<Step>): State
  {
    if steps == [] then State(start, [], []) else Apply(Run(start, steps[..|steps| - 1]), steps[|steps| - 1])
  }

  lemma RunStep(start: seq<Category>, steps: seq<Step>, step: Step)
    ensures Run(start, steps + [step]) == Apply(Run(start, steps), step)
  {
    assert (steps + [step])[..|steps|] == steps;
  }

  // ---- the folder rules in every interleaving ----

  ghost predicate AllReadValid(pending: seq<Pending>)
  {
    forall id :: 0 <= id < |pending| ==> Valid(pending[id].read)
  }

  /** The saves form a chain from the first list to the stored one, each made from a valid list. */
  ghost predicate Chained(start: seq<Category>, stored: seq<Category>, saves: seq<Saved>)
    decreases |saves|
  {
    if saves == [] then stored == start else
    var last := saves[|saves| - 1];
    Valid(last.read) && Valid(last.before) && Accepted(last.read, last.request) &&
    last.after == stored == After(last.read, last.request) &&
    Chained(start, last.before, saves[..|saves| - 1])
  }

  ghost predicate Inv(start: seq<Category>, s: State)
  {
    Valid(s.stored) && AllReadValid(s.pending) && Chained(start, s.stored, s.saves)
  }

  lemma StepKeeps(start: seq<Category>, s: State, step: Step)
    requires Inv(start, s)
    ensures Inv(start, Apply(s, step))
  {
    hide Valid, After, Answer;
    if step.Finish? && step.id < |s.pending| {
      RequestKeeps(s.pending[step.id].read, s.pending[step.id].request);
    }
  }

  /** However requests interleave, ids stay distinct, fields tidy and the folders a forest. */
  lemma {:induction false} InterleavedRunsKeep(start: seq<Category>, steps: seq<Step>)
    requires Valid(start)
    ensures Inv(start, Run(start, steps))
  {
    hide Valid;
    if steps != [] {
      InterleavedRunsKeep(start, steps[..|steps| - 1]);
      hide Inv, Apply;
      StepKeeps(start, Run(start, steps[..|steps| - 1]), steps[|steps| - 1]);
    }
  }

  // ---- when a save is what the request would have done alone ----

  /** The lists differ at most in what the request replaces. */
  ghost predicate SameFor(request: Request, read: seq<Category>, now: seq<Category>)
  {
    match request
    case Post(_) => read == now
    case PutAll(_) => true
    case PutOne(id, body) =>
      var k := IndexOf(read, id);
      k < |now| == |read| && now == read[k := now[k]] && now[k].id == id &&
      (body.parent.Absent? ==> now[k].parent == read[k].parent)
    case Delete(id) => Without(now, id) == Without(read, id) && id in IdsOf(now)
  }

  ghost predicate ActsAlone(request: Request, read: seq<Category>, now: seq<Category>)
  {
    Answer(now, request) == Answer(read, request) && After(now, request) == After(read, request)
  }

  lemma UpdateIfSame(id: string, body: Body, read: seq<Category>, now: seq<Category>)
    requires Accepted(read, PutOne(id, body)) && SameFor(PutOne(id, body), read, now)
    ensures ActsAlone(PutOne(id, body), read, now)
  {
    hide Acceptable, Clean, Forest, ParentsOf;
    var k := IndexOf(read, id);
    assert forall i :: 0 <= i < k ==> now[i] == read[i];
    assert IndexOf(now, id) == k;
    var c := Clean(UpdateBody(read[k], id, body), true);
    assert UpdateBody(now[k], id, body) == UpdateBody(read[k], id, body);
    hide UpdateBody, IndexOf;
    assert now[k := c] == read[k := c];
  }

  /** Two lists that become the same one, with distinct ids, by replacing the category of one id differ there only. */
  lemma ReplacedInOne(read: seq<Category>, k: nat, now: seq<Category>, m: nat, after: seq<Category>)
    requires k < |read| && m < |now| && |after| == |read| == |now| && DistinctIds(after)
    requires after == read[k := after[k]] && after == now[m := after[m]] && after[k].id == after[m].id
    ensures k == m && now == read[k := now[k]]
  {
    assert forall i :: 0 <= i < |now| && i != k ==> now[i] == now[m := after[m]][i] == read[k := after[k]][i];
  }

  lemma SameIfUpdate(id: string, body: Body, read: seq<Category>, now: seq<Category>)
    requires Valid(read) && Valid(now) && Accepted(read, PutOne(id, body))
    requires ActsAlone(PutOne(id, body), read, now)
    ensures SameFor(PutOne(id, body), read, now)
  {
    var after := After(read, PutOne(id, body));
    FolderRuns.UpdateInPlace(read, id, body);
    FolderRuns.UpdateInPlace(now, id, body);
    RequestKeeps(read, PutOne(id, body));
    assert DistinctIds(after);
    hide Valid, After, Answer, DistinctIds;
    ReplacedInOne(read, IndexOf(read, id), now, IndexOf(now, id), after);
  }

  lemma ChildrenAlone(id: string, read: seq<Category>, now: seq<Category>)
    requires Without(now, id) == Without(read, id) && Valid(now) && ChildIds(read, id) == []
    ensures ChildIds(now, id) == []
  {
    hide Without, ChildIds, ParentsOf, Forest, Tidy, DistinctIds;
    WithoutHas(now, id);
    WithoutHas(read, id);
    forall d | d in now
      ensures d.parent != Some(id)
    {
      FolderRuns.NotItsOwnParent(now, d);
    }
  }

  lemma DeleteAlone(id: string, read: seq<Category>, now: seq<Category>)
    requires Valid(read) && Valid(now) && Accepted(read, Delete(id))
    ensures ActsAlone(Delete(id), read, now) <==> SameFor(Delete(id), read, now)
  {
    if SameFor(Delete(id), read, now) {
      ChildrenAlone(id, read, now);
      FolderRuns.WithoutLess(now, id);
    } else if ActsAlone(Delete(id), read, now) && id !in IdsOf(now) {
      FolderRuns.AbsentWithout(now, id);
    }
  }

  /** A request that is accepted on the list it read does to the stored list what it would have done alone exactly if
      the two lists differ at most in what it replaces: not at all for a create, in the updated or deleted category for
      an update or a delete, and in any way for a bulk replace. */
  lemma ActsAloneIff(request: Request, read: seq<Category>, now: seq<Category>)
    requires Valid(read) && Valid(now) && Accepted(read, request)
    ensures ActsAlone(request, read, now) <==> SameFor(request, read, now)
  {
    hide Valid;
    match request
    case Post(body) =>
    case PutAll(bodies) =>
    case PutOne(id, body) =>
      if SameFor(request, read, now) {
        UpdateIfSame(id, body, read, now);
      } else if ActsAlone(request, read, now) {
        SameIfUpdate(id, body, read, now);
      }
    case Delete(id) => DeleteAlone(id, read, now);
  }

  function Requests(saves: seq<Saved>): seq<Request>
  {
    if saves == [] then [] else Requests(saves[..|saves| - 1]) + [saves[|saves| - 1].request]
  }

  lemma {:induction false} ChainIsSerial(start: seq<Category>, stored: seq<Category>, saves: seq<Saved>)
    requires Chained(start, stored, saves)
    requires forall i :: 0 <= i < |saves| ==> SameFor(saves[i].request, saves[i].read, saves[i].before)
    ensures stored == FolderRuns.Run(start, Requests(saves))
    decreases |saves|
  {
    if saves != [] {
      var last := saves[|saves| - 1];
      ActsAloneIff(last.request, last.read, last.before);
      hide SameFor, Valid, After, Answer;
      ChainIsSerial(start, last.before, saves[..|saves| - 1]);
    }
  }

  /** If every save found a list that differs from the one it had read at most in what it replaces, the interleaved
      requests have done what they do one after the other in the order of their saves. */
  lemma InterleavedIsSerial(start: seq<Category>, steps: seq<Step>)
    requires Valid(start)
    requires var saves := Run(start, steps).saves;
             forall i :: 0 <= i < |saves| ==> SameFor(saves[i].request, saves[i].read, saves[i].before)
    ensures Run(start, steps).stored == FolderRuns.Run(start, Requests(Run(start, steps).saves))
  {
    InterleavedRunsKeep(start, steps);
    hide Valid, SameFor;
    ChainIsSerial(start, Run(start, steps).stored, Run(start, steps).saves);
  }

  lemma FinishSaves(s: State, id: nat)
    requires id < |s.pending| && !s.pending[id].answered && Accepted(s.pending[id].read, s.pending[id].request)
    ensures var t, p := Apply(s, Finish(id)), s.pending[id];
            t.stored == After(p.read, p.request) && t.pending == s.pending[id := p.(answered := true)]
  {
    hide Accepted, After;
  }

  lemma FourSteps(start: seq<Category>, a: Step, b: Step, c: Step, d: Step)
    ensures var three := Apply(Apply(Apply(State(start, [], []), a), b), c);
            Run(start, [a, b, c]) == three && Run(start, [a, b, c, d]) == Apply(three, d)
  {
    hide Apply;
    RunStep(start, [], a);
    RunStep(start, [a], b);
    RunStep(start, [a, b], c);
    RunStep(start, [a, b, c], d);
    assert Run(start, []) == State(start, [], []);
    hide Run;
    assert [] + [a] == [a] && [a] + [b] == [a, b] && [a, b] + [c] == [a, b, c] && [a, b, c] + [d] == [a, b, c, d];
  }

  lemma TwoReads(start: seq<Category>, a: Request, b: Request)
    ensures Apply(Apply(State(start, [], []), Read(a)), Read(b)) ==
            State(start, [Pending(a, start, false), Pending(b, start, false)], [])
  {
    hide After, Accepted;
  }

  /** Of two creates that read the same list the first to be saved is lost, although it was answered as created. */
  lemma FirstCreateIsLost(start: seq<Category>, one: Body, two: Body)
    requires Accepted(start, Post(one)) && Accepted(start, Post(two))
    ensures Run(start, [Read(Post(one)), Read(Post(two)), Finish(0)]).stored == start + [Clean(one, false)]
    ensures Run(start, [Read(Post(one)), Read(Post(two)), Finish(0), Finish(1)]).stored == start + [Clean(two, false)]
  {
    FourSteps(start, Read(Post(one)), Read(Post(two)), Finish(0), Finish(1));
    TwoReads(start, Post(one), Post(two));
    hide Run, Apply, Clean;
    assert After(start, Post(one)) == start + [Clean(one, false)];
    assert After(start, Post(two)) == start + [Clean(two, false)];
    hide After, Accepted;
    var both := Apply(Apply(State(start, [], []), Read(Post(one))), Read(Post(two)));
    FinishSaves(both, 0);
    FinishSaves(Apply(both, Finish(0)), 1);
  }
}
