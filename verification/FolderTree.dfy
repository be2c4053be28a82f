/** The folder rules for report categories. */
module FolderTree {
  import opened Options

  const MAX_DEPTH := 6

  datatype Category = Category(id: string, name: string, icon: string, color: string, description: string,
                               parent: Option<string>)

  type Parents = map<string, Option<string>>

  datatype Fault =
    | SelfParent(id: string)
    | UnknownParent(id: string, parent: string)
    | Cycle(path: seq<string>)
    | TooDeep(id: string)

  /** The parents dict; when an id comes twice the last one counts. */
  function ParentsOf(categories: seq<Category>): Parents
  {
    if categories == [] then map[] else
    var last := categories[|categories| - 1];
    ParentsOf(categories[..|categories| - 1])[last.id := last.parent]
  }

  /** Following parents from `id` reaches a top-level folder within n steps, through stored folders only. */
  predicate TopWithin(parents: Parents, id: string, n: nat)
    decreases n
  {
    id in parents && (parents[id].None? || (n > 0 && TopWithin(parents, parents[id].value, n - 1)))
  }

  /** At most MAX_DEPTH levels, everywhere. */
  ghost predicate Forest(parents: Parents)
  {
    forall id :: id in parents ==> TopWithin(parents, id, MAX_DEPTH - 1)
  }

  /** Each folder's parent is the next one. */
  ghost predicate Path(parents: Parents, path: seq<string>)
  {
    path != [] && forall i :: 0 <= i < |path| - 1 ==> path[i] in parents && parents[path[i]] == Some(path[i + 1])
  }

  ghost predicate Explains(fault: Fault, parents: Parents)
  {
    match fault
    case SelfParent(id) => id in parents && parents[id] == Some(id)
    case UnknownParent(id, parent) => id in parents && parents[id] == Some(parent) && parent !in parents
    case Cycle(path) => Path(parents, path) && path[|path| - 1] in path[..|path| - 1]
    case TooDeep(id) => id in parents && !TopWithin(parents, id, MAX_DEPTH - 1)
  }

  // ---- paths ----

  lemma {:induction false} PathToTop(parents: Parents, path: seq<string>)
    requires Path(parents, path) && path[|path| - 1] in parents && parents[path[|path| - 1]].None?
    ensures TopWithin(parents, path[0], |path| - 1)
  {
    if |path| > 1 {
      PathToTop(parents, path[1..]);
    }
  }

  lemma {:induction false} LongPath(parents: Parents, path: seq<string>, n: nat)
    requires Path(parents, path) && |path| >= n + 2
    ensures !TopWithin(parents, path[0], n)
  {
    assert parents[path[0]] == Some(path[1]);
    if n > 0 {
      LongPath(parents, path[1..], n - 1);
    }
  }

  lemma {:induction false} CycleHasNoTop(parents: Parents, path: seq<string>, j: nat, i: nat, n: nat)
    requires Path(parents, path) && j <= i < |path| - 1 && path[|path| - 1] == path[j]
    ensures !TopWithin(parents, path[i], n)
    decreases n
  {
    assert parents[path[i]] == Some(path[i + 1]);
    if n > 0 {
      CycleHasNoTop(parents, path, j, if i + 1 < |path| - 1 then i + 1 else j, n - 1);
    }
  }

  /** In a forest no folder is inside itself. */
  lemma ForestHasNoCycle(parents: Parents, path: seq<string>)
    requires Forest(parents) && Path(parents, path) && |path| > 1
    ensures path[0] != path[|path| - 1]
  {
    if path[0] == path[|path| - 1] {
      CycleHasNoTop(parents, path, 0, 0, MAX_DEPTH - 1);
    }
  }

  /** A folder without a top within n steps has a path of n + 2 folders going up from it. */
  lemma {:induction false} PathUp(parents: Parents, id: string, n: nat) returns (path: seq<string>)
    requires id in parents && !TopWithin(parents, id, n)
    requires forall x :: x in parents && parents[x].Some? ==> parents[x].value in parents
    ensures Path(parents, path) && path[0] == id && |path| == n + 2
    decreases n
  {
    var parent := parents[id].value;
    if n == 0 {
      path := [id, parent];
    } else {
      var rest := PathUp(parents, parent, n - 1);
      path := [id] + rest;
    }
  }

  /** A forest: every parent is stored, and going up through parents meets at most six folders. */
  lemma ForestIffPaths(parents: Parents)
    ensures Forest(parents) <==>
            (forall x :: x in parents && parents[x].Some? ==> parents[x].value in parents) &&
            forall path :: Path(parents, path) ==> |path| <= 6
  {
    if Forest(parents) {
      forall x | x in parents && parents[x].Some?
        ensures parents[x].value in parents
      {
        assert TopWithin(parents, x, MAX_DEPTH - 1);
        assert TopWithin(parents, parents[x].value, MAX_DEPTH - 2);
      }
      forall path | Path(parents, path)
        ensures |path| <= 6
      {
        assert |path| > 1 ==> path[0] in parents;
        if |path| > 6 {
          LongPath(parents, path, MAX_DEPTH - 1);
        }
      }
    } else if forall x :: x in parents && parents[x].Some? ==> parents[x].value in parents {
      var id :| id in parents && !TopWithin(parents, id, MAX_DEPTH - 1);
      var path := PathUp(parents, id, MAX_DEPTH - 1);
    }
  }

  /** Each kind of fault keeps the categories from being a forest. */
  lemma FaultIsNoForest(fault: Fault, parents: Parents)
    requires Explains(fault, parents)
    ensures !Forest(parents)
  {
    match fault
    case SelfParent(id) =>
      CycleHasNoTop(parents, [id, id], 0, 0, MAX_DEPTH - 1);
    case UnknownParent(id, parent) =>
      assert !TopWithin(parents, id, MAX_DEPTH - 1);
    case Cycle(path) =>
      var j :| 0 <= j < |path| - 1 && path[j] == path[|path| - 1];
      CycleHasNoTop(parents, path, j, j, MAX_DEPTH - 1);
    case TooDeep(id) =>
  }

  // ---- tree_error ----

  /** The dict comprehension: the parents, and the ids in the order in which they first come. */
  method Collect(categories: seq<Category>) returns (parents: Parents, ids: seq<string>)
    ensures parents == ParentsOf(categories)
    ensures forall id :: id in ids <==> id in parents
  {
    parents, ids := map[], [];
    for i := 0 to |categories|
      invariant parents == ParentsOf(categories[..i])
      invariant forall id :: id in ids <==> id in parents
    {
      assert categories[..i + 1][..i] == categories[..i];
      var c := categories[i];
      if c.id !in parents {
        ids := ids + [c.id];
      }
      parents := parents[c.id := c.parent];
    }
    assert categories[..|categories|] == categories;
  }

  ghost predicate ParentKnown(parents: Parents, id: string)
  {
    id in parents && (parents[id].Some? ==> parents[id].value in parents)
  }

  /** The climb from one folder: None when it ends at a top-level folder within the allowed levels. */
  method Climb(parents: Parents, id: string) returns (fault: Option<Fault>)
    requires id in parents && forall x :: x in parents ==> ParentKnown(parents, x)
    ensures fault.None? ==> TopWithin(parents, id, MAX_DEPTH - 1)
    ensures fault.Some? ==> Explains(fault.value, parents)
  {
    var seen := [id];
    var node := parents[id];
    while node.Some?
      invariant Path(parents, seen) && seen[0] == id && |seen| <= MAX_DEPTH
      invariant seen[|seen| - 1] in parents && node == parents[seen[|seen| - 1]]
      decreases MAX_DEPTH - |seen|
    {
      assert ParentKnown(parents, seen[|seen| - 1]);
      if node.value in seen {
        return Some(Cycle(seen + [node.value]));
      }
      seen := seen + [node.value];
      if |seen| > MAX_DEPTH {
        LongPath(parents, seen, MAX_DEPTH - 1);
        return Some(TooDeep(id));
      }
      node := parents[node.value];
    }
    PathToTop(parents, seen);
    TopLater(parents, id, |seen| - 1, MAX_DEPTH - 1);
    return None;
  }

  lemma {:induction false} TopLater(parents: Parents, id: string, n: nat, m: nat)
    requires TopWithin(parents, id, n) && n <= m
    ensures TopWithin(parents, id, m)
    decreases n
  {
    if parents[id].Some? {
      TopLater(parents, parents[id].value, n - 1, m - 1);
    }
  }

  method TreeError(categories: seq<Category>) returns (error: Option<Fault>)
    ensures error.None? <==> Forest(ParentsOf(categories))
    ensures error.Some? ==> Explains(error.value, ParentsOf(categories))
  {
    var parents, ids := Collect(categories);
    for i := 0 to |ids|
      invariant forall k :: 0 <= k < i ==> ParentKnown(parents, ids[k])
    {
      var id, parent := ids[i], parents[ids[i]];
      if parent.Some? {
        if parent.value == id {
          FaultIsNoForest(SelfParent(id), parents);
          return Some(SelfParent(id));
        }
        if parent.value !in parents {
          FaultIsNoForest(UnknownParent(id, parent.value), parents);
          return Some(UnknownParent(id, parent.value));
        }
      }
    }
    for i := 0 to |ids|
      invariant forall k :: 0 <= k < i ==> TopWithin(parents, ids[k], MAX_DEPTH - 1)
    {
      error := Climb(parents, ids[i]);
      if error.Some? {
        FaultIsNoForest(error.value, parents);
        return;
      }
    }
    return None;
  }

  /** child_ids: the ids of the direct sub-folders, in list order. */
  function ChildIds(categories: seq<Category>, id: string): (ids: seq<string>)
    ensures ids == [] <==> forall c :: c in categories ==> c.parent != Some(id)
  {
    if categories == [] then [] else
    var last := categories[|categories| - 1];
    ChildIds(categories[..|categories| - 1], id) + (if last.parent == Some(id) then [last.id] else [])
  }

  predicate ChildAt(categories: seq<Category>, id: string, place: nat, child: string)
  {
    place < |categories| && categories[place].parent == Some(id) && categories[place].id == child
  }

  /** `places` are the indices of the categories with this parent, all of them and in order, and `ids` their ids. */
  ghost predicate ChildrenAt(categories: seq<Category>, id: string, places: seq<nat>, ids: seq<string>)
  {
    (forall j, k :: 0 <= j < k < |places| ==> places[j] < places[k]) &&
    (forall i :: 0 <= i < |categories| && categories[i].parent == Some(id) ==> i in places) &&
    |ids| == |places| && forall k :: 0 <= k < |places| ==> ChildAt(categories, id, places[k], ids[k])
  }

  lemma NextChild(categories: seq<Category>, id: string, earlier: seq<nat>, ids: seq<string>, places: seq<nat>)
    requires categories != []
    requires var n := |categories| - 1;
             ChildrenAt(categories[..n], id, earlier, ids) &&
             places == if categories[n].parent == Some(id) then earlier + [n] else earlier
    ensures var last := categories[|categories| - 1];
            ChildrenAt(categories, id, places, if last.parent == Some(id) then ids + [last.id] else ids)
  {
    var n := |categories| - 1;
    var last := categories[n];
    var now := if last.parent == Some(id) then ids + [last.id] else ids;
    forall k | 0 <= k < |earlier|
      ensures ChildAt(categories, id, earlier[k], ids[k]) && earlier[k] < n
    {
      assert ChildAt(categories[..n], id, earlier[k], ids[k]);
    }
    assert last.parent == Some(id) ==> ChildAt(categories, id, n, last.id);
    hide ChildAt;
    forall i | 0 <= i < |categories| && categories[i].parent == Some(id)
      ensures i in places
    {
      if i < n {
        assert categories[..n][i] == categories[i];
        assert i in earlier;
      } else {
        assert places[|earlier|] == n;
      }
    }
  }

  /** child_ids returns the ids of exactly the categories with this parent, in list order. */
  lemma {:induction false} ChildIdsInOrder(categories: seq<Category>, id: string) returns (places: seq<nat>)
    ensures ChildrenAt(categories, id, places, ChildIds(categories, id))
  {
    hide ChildrenAt;
    if categories == [] {
      places := [];
      NoChildren(id);
    } else {
      var n := |categories| - 1;
      var earlier := ChildIdsInOrder(categories[..n], id);
      places := if categories[n].parent == Some(id) then earlier + [n] else earlier;
      NextChild(categories, id, earlier, ChildIds(categories[..n], id), places);
      assert ChildIds(categories[..n], id) + [] == ChildIds(categories[..n], id);
    }
  }

  lemma NoChildren(id: string)
    ensures ChildrenAt([], id, [], ChildIds([], id))
  {
  }

  // ---- lists with distinct ids ----

  ghost predicate DistinctIds(categories: seq<Category>)
  {
    forall i, j :: 0 <= i < j < |categories| ==> categories[i].id != categories[j].id
  }

  ghost predicate Stored(categories: seq<Category>, id: string)
  {
    exists c :: c in categories && c.id == id
  }

  /** With distinct ids the dict is the list, whatever the order. */
  lemma {:induction false} ParentsOfList(categories: seq<Category>)
    requires DistinctIds(categories)
    ensures forall id :: id in ParentsOf(categories) <==> Stored(categories, id)
    ensures forall c :: c in categories ==> c.id in ParentsOf(categories) && ParentsOf(categories)[c.id] == c.parent
  {
    if categories != [] {
      var n := |categories| - 1;
      var front, last := categories[..n], categories[n];
      ParentsOfList(front);
      assert categories == front + [last];
      assert forall c :: c in front ==> c.id != last.id;
      assert forall id :: Stored(categories, id) <==> Stored(front, id) || id == last.id;
    }
  }

  /** Two lists with distinct ids and the same (id, parent) pairs are forests together. */
  lemma SameParents(a: seq<Category>, b: seq<Category>)
    requires DistinctIds(a) && DistinctIds(b)
    requires forall c :: c in a <==> c in b
    ensures ParentsOf(a) == ParentsOf(b)
  {
    ParentsOfList(a);
    ParentsOfList(b);
    forall id | id in ParentsOf(a)
      ensures id in ParentsOf(b) && ParentsOf(b)[id] == ParentsOf(a)[id]
    {
      var c :| c in a && c.id == id;
    }
    forall id | id in ParentsOf(b)
      ensures id in ParentsOf(a)
    {
      var c :| c in b && c.id == id;
    }
  }

  // ---- removing a folder without sub-folders ----

  lemma {:induction false} TopWithout(parents: Parents, gone: string, id: string, n: nat)
    requires forall x :: x in parents ==> parents[x] != Some(gone)
    requires id != gone && TopWithin(parents, id, n)
    ensures TopWithin(parents - {gone}, id, n)
    decreases n
  {
    if parents[id].Some? {
      TopWithout(parents, gone, parents[id].value, n - 1);
    }
  }

  lemma RemoveLeaf(parents: Parents, gone: string)
    requires Forest(parents) && forall x :: x in parents ==> parents[x] != Some(gone)
    ensures Forest(parents - {gone})
  {
    forall id | id in parents - {gone}
      ensures TopWithin(parents - {gone}, id, MAX_DEPTH - 1)
    {
      TopWithout(parents, gone, id, MAX_DEPTH - 1);
    }
  }

  /** Going down from the end of a path comes to a folder without sub-folders. */
  lemma {:induction false} LeafBelow(parents: Parents, path: seq<string>) returns (leaf: string)
    requires Forest(parents) && Path(parents, path) && path[0] in parents && |path| <= MAX_DEPTH
    ensures leaf in parents && forall x :: x in parents ==> parents[x] != Some(leaf)
    decreases MAX_DEPTH - |path|
  {
    if x :| x in parents && parents[x] == Some(path[0]) {
      if |path| == MAX_DEPTH {
        LongPath(parents, [x] + path, MAX_DEPTH - 1);
        assert false;
      }
      leaf := LeafBelow(parents, [x] + path);
    } else {
      leaf := path[0];
    }
  }
}
