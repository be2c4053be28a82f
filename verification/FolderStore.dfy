/** The report category endpoints on the stored list of an organisation: create, bulk replace, update and delete, what
    each answers and stores, and that each keeps the ids distinct, the fields tidy and the folders a forest. A refused
    request changes nothing. */
module FolderStore {
  import opened Options
  import opened FolderTree
  import opened FolderFields
  import opened Sequences

  /** PutAll(None) is a body that is not a list. */
  datatype Request =
    | Post(body: Body)
    | PutAll(bodies: Option<seq<Body>>)
    | PutOne(id: string, body: Body)
    | Delete(id: string)

  datatype Status = Ok200 | Created201 | Bad400 | NotFound404

  // ---- what each request is to do ----

  function IdsOf(categories: seq<Category>): set<string>
  {
    set c | c in categories :: c.id
  }

  function CleanAll(bodies: seq<Body>): (cs: seq<Category>)
    ensures |cs| == |bodies| && forall i :: 0 <= i < |bodies| ==> cs[i] == Clean(bodies[i], false)
  {
    if bodies == [] then [] else CleanAll(bodies[..|bodies| - 1]) + [Clean(bodies[|bodies| - 1], false)]
  }

  ghost predicate AllAcceptable(bodies: seq<Body>)
  {
    forall i :: 0 <= i < |bodies| ==> Acceptable(bodies[i], IdsOf(CleanAll(bodies)[..i]), false)
  }

  /** The index of the first category with the id; the length of the list when there is none. */
  function IndexOf(categories: seq<Category>, id: string): (k: nat)
    ensures k <= |categories| && (k < |categories| ==> categories[k].id == id)
    ensures forall i :: 0 <= i < k ==> categories[i].id != id
  {
    FirstIndex(categories, (c: Category) => c.id == id)
  }

  /** The update body with the id from the path, and the stored parent when it names none. */
  function UpdateBody(stored: Category, id: string, body: Body): Body
  {
    body.(id := Some(id),
          parent := if !body.parent.Absent? then body.parent
                    else if stored.parent.Some? then Text(stored.parent.value) else Null)
  }

  function Without(categories: seq<Category>, id: string): seq<Category>
  {
    if categories == [] then [] else
    var last := categories[|categories| - 1];
    Without(categories[..|categories| - 1], id) + (if last.id != id then [last] else [])
  }

  ghost function Answer(categories: seq<Category>, request: Request): Status
  {
    match request
    case Post(body) =>
      if Acceptable(body, IdsOf(categories), false) && Forest(ParentsOf(categories + [Clean(body, false)]))
      then Created201 else Bad400
    case PutAll(bodies) =>
      if bodies.Some? && AllAcceptable(bodies.value) && Forest(ParentsOf(CleanAll(bodies.value)))
      then Ok200 else Bad400
    case PutOne(id, body) =>
      var k := IndexOf(categories, id);
      if k == |categories| then NotFound404 else
      var full := UpdateBody(categories[k], id, body);
      if Acceptable(full, {}, true) && Forest(ParentsOf(categories[k := Clean(full, true)])) then Ok200 else Bad400
    case Delete(id) =>
      if ChildIds(categories, id) != [] then Bad400 else
      if Without(categories, id) == categories then NotFound404 else Ok200
  }

  ghost function After(categories: seq<Category>, request: Request): seq<Category>
  {
    if !Answer(categories, request).Ok200? && !Answer(categories, request).Created201? then categories else
    match request
    case Post(body) => categories + [Clean(body, false)]
    case PutAll(bodies) => CleanAll(bodies.value)
    case PutOne(id, body) =>
      var k := IndexOf(categories, id);
      categories[k := Clean(UpdateBody(categories[k], id, body), true)]
    case Delete(id) => Without(categories, id)
  }

  // ---- the handlers ----

  /** An update ignores the ids that exist. */
  lemma UpdateIgnoresIds(body: Body, existing: set<string>)
    ensures Acceptable(body, existing, true) <==> Acceptable(body, {}, true)
  {
    hide Clean, Slug, HexColor;
    assert forall e :: Wrong(e, body, existing, true) <==> Wrong(e, body, {}, true);
    hide Wrong;
  }

  lemma {:induction false} WithoutHas(categories: seq<Category>, id: string)
    ensures forall c :: c in Without(categories, id) <==> c in categories && c.id != id
  {
    if categories != [] {
      var n := |categories| - 1;
      WithoutHas(categories[..n], id);
      assert categories == categories[..n] + [categories[n]];
    }
  }

  lemma {:induction false} WithoutLength(categories: seq<Category>, id: string)
    ensures |Without(categories, id)| <= |categories|
    ensures |Without(categories, id)| == |categories| ==> Without(categories, id) == categories
  {
    if categories != [] {
      var front, last := categories[..|categories| - 1], categories[|categories| - 1];
      assert Without(categories, id) == Without(front, id) + (if last.id != id then [last] else []);
      hide *;
      WithoutLength(front, id);
      assert categories == front + [last];
    }
  }

  /** The loop of the bulk update: each category is checked against the ids before it. */
  method CleanList(bodies: seq<Body>) returns (list: Option<seq<Category>>)
    ensures list == if AllAcceptable(bodies) then Some(CleanAll(bodies)) else None
  {
    hide Acceptable, Clean;
    var cleanList, seenIds := [], {};
    for i := 0 to |bodies|
      invariant cleanList == CleanAll(bodies)[..i] && seenIds == IdsOf(cleanList)
      invariant forall k :: 0 <= k < i ==> Acceptable(bodies[k], IdsOf(CleanAll(bodies)[..k]), false)
    {
      var clean := Validate(bodies[i], seenIds, false);
      if clean.Err? {
        return None;
      }
      cleanList, seenIds := cleanList + [clean.value], seenIds + {clean.value.id};
      assert CleanAll(bodies)[..i + 1] == CleanAll(bodies)[..i] + [CleanAll(bodies)[i]];
    }
    assert cleanList == CleanAll(bodies);
    return Some(cleanList);
  }

  class Store {
    var categories: seq<Category>

    constructor (categories: seq<Category>)
      ensures this.categories == categories
    {
      this.categories := categories;
    }

    method Post(body: Body) returns (status: Status)
      modifies this
      ensures status == Answer(old(categories), Request.Post(body))
      ensures categories == After(old(categories), Request.Post(body))
    {
      hide Acceptable, Forest, Clean;
      var clean := Validate(body, IdsOf(categories), false);
      if clean.Err? {
        return Bad400;
      }
      var error := TreeError(categories + [clean.value]);
      if error.Some? {
        return Bad400;
      }
      categories := categories + [clean.value];
      return Created201;
    }

    method PutAll(bodies: Option<seq<Body>>) returns (status: Status)
      modifies this
      ensures status == Answer(old(categories), Request.PutAll(bodies))
      ensures categories == After(old(categories), Request.PutAll(bodies))
    {
      hide Acceptable, AllAcceptable, Forest, Clean;
      if bodies.None? {
        return Bad400;
      }
      var cleanList := CleanList(bodies.value);
      if cleanList.None? {
        return Bad400;
      }
      var error := TreeError(cleanList.value);
      if error.Some? {
        return Bad400;
      }
      categories := cleanList.value;
      return Ok200;
    }

    method PutOne(id: string, body: Body) returns (status: Status)
      modifies this
      ensures status == Answer(old(categories), Request.PutOne(id, body))
      ensures categories == After(old(categories), Request.PutOne(id, body))
    {
      hide Acceptable, Forest, Clean;
      var target := 0;
      while target < |categories| && categories[target].id != id
        invariant target <= |categories| && forall i :: 0 <= i < target ==> categories[i].id != id
      {
        target := target + 1;
      }
      assert target == IndexOf(categories, id);
      if target == |categories| {
        return NotFound404;
      }
      var full := UpdateBody(categories[target], id, body);
      var otherIds := IdsOf(categories) - {id};
      var clean := Validate(full, otherIds, true);
      UpdateIgnoresIds(full, otherIds);
      if clean.Err? {
        return Bad400;
      }
      var updated := categories[..target] + [clean.value] + categories[target + 1..];
      assert updated == categories[target := clean.value];
      var error := TreeError(updated);
      if error.Some? {
        return Bad400;
      }
      categories := categories[target := clean.value];
      return Ok200;
    }

    method Delete(id: string) returns (status: Status)
      modifies this
      ensures status == Answer(old(categories), Request.Delete(id))
      ensures categories == After(old(categories), Request.Delete(id))
    {
      if ChildIds(categories, id) != [] {
        return Bad400;
      }
      var rest := Without(categories, id);
      WithoutLength(categories, id);
      if |rest| == |categories| {
        return NotFound404;
      }
      categories := rest;
      return Ok200;
    }
  }

  // ---- the invariant ----

  ghost predicate Valid(categories: seq<Category>)
  {
    DistinctIds(categories) && (forall c :: c in categories ==> Tidy(c)) && Forest(ParentsOf(categories))
  }

  lemma AddDistinct(categories: seq<Category>, c: Category)
    requires DistinctIds(categories) && c.id !in IdsOf(categories)
    ensures DistinctIds(categories + [c])
  {
    assert forall i :: 0 <= i < |categories| ==> categories[i].id in IdsOf(categories);
  }

  lemma PostKeeps(categories: seq<Category>, body: Body)
    requires Valid(categories) && Answer(categories, Post(body)).Created201?
    ensures Valid(categories + [Clean(body, false)])
  {
    AcceptedIsTidy(body, IdsOf(categories), false);
    hide Tidy, Clean, Acceptable, Forest;
    AddDistinct(categories, Clean(body, false));
  }

  lemma CleanItemIsTidy(bodies: seq<Body>, i: nat)
    requires AllAcceptable(bodies) && i < |bodies|
    ensures var list := CleanAll(bodies); Tidy(list[i]) && list[i].id !in IdsOf(list[..i])
  {
    AcceptedIsTidy(bodies[i], IdsOf(CleanAll(bodies)[..i]), false);
    hide Tidy, Clean, Acceptable, AllAcceptable;
  }

  lemma {:induction false} CleanListIsTidy(bodies: seq<Body>, n: nat)
    requires AllAcceptable(bodies) && n <= |bodies|
    ensures DistinctIds(CleanAll(bodies)[..n]) && forall c :: c in CleanAll(bodies)[..n] ==> Tidy(c)
  {
    hide Tidy, Clean, AllAcceptable, DistinctIds, IdsOf;
    if n > 0 {
      var list := CleanAll(bodies);
      CleanListIsTidy(bodies, n - 1);
      CleanItemIsTidy(bodies, n - 1);
      assert list[..n] == list[..n - 1] + [list[n - 1]];
      hide CleanAll;
      AddDistinct(list[..n - 1], list[n - 1]);
    } else {
      NoneDistinct();
      assert CleanAll(bodies)[..0] == [];
    }
  }

  lemma NoneDistinct()
    ensures DistinctIds([])
  {
  }

  lemma PutAllKeeps(categories: seq<Category>, bodies: seq<Body>)
    requires Answer(categories, PutAll(Some(bodies))).Ok200?
    ensures Valid(CleanAll(bodies))
  {
    CleanListIsTidy(bodies, |bodies|);
    assert CleanAll(bodies)[..|bodies|] == CleanAll(bodies);
  }

  /** An update keeps the stored id: stored ids are slugs, which trimming and lower-casing leave alone. */
  lemma UpdateKeepsId(stored: Category, body: Body)
    requires Tidy(stored)
    ensures Clean(UpdateBody(stored, stored.id, body), true).id == stored.id
  {
    SlugIsFixed(stored.id);
  }

  lemma PutOneKeeps(categories: seq<Category>, id: string, body: Body)
    requires Valid(categories) && Answer(categories, PutOne(id, body)).Ok200?
    ensures Valid(After(categories, PutOne(id, body)))
  {
    var k := IndexOf(categories, id);
    var full := UpdateBody(categories[k], id, body);
    hide Tidy, Clean, Acceptable, Forest, UpdateBody, DistinctIds;
    assert categories[k] in categories;
    UpdateKeepsId(categories[k], body);
    var updated := Clean(full, true);
    assert CleanId(full, true) == updated.id;
    AcceptedIsTidy(full, {}, true);
    SetDistinct(categories, k, updated);
    hide CleanId, IndexOf;
  }

  lemma SetDistinct(categories: seq<Category>, k: nat, c: Category)
    requires DistinctIds(categories) && k < |categories| && c.id == categories[k].id
    ensures DistinctIds(categories[k := c])
  {
  }

  lemma {:induction false} WithoutDistinct(categories: seq<Category>, id: string)
    requires DistinctIds(categories)
    ensures DistinctIds(Without(categories, id))
  {
    if categories != [] {
      var n := |categories| - 1;
      WithoutDistinct(categories[..n], id);
      WithoutHas(categories[..n], id);
    }
  }

  /** The category behind an entry of the parents dict. */
  lemma EntryOf(categories: seq<Category>, id: string) returns (c: Category)
    requires DistinctIds(categories) && id in ParentsOf(categories)
    ensures c in categories && c.id == id && ParentsOf(categories)[id] == c.parent
  {
    ParentsOfList(categories);
    c :| c in categories && c.id == id;
  }

  lemma EntryFor(categories: seq<Category>, c: Category)
    requires DistinctIds(categories) && c in categories
    ensures c.id in ParentsOf(categories) && ParentsOf(categories)[c.id] == c.parent
  {
    ParentsOfList(categories);
  }

  lemma WithoutEntry(categories: seq<Category>, id: string, x: string)
    requires DistinctIds(categories)
    ensures var parents, rest := ParentsOf(categories), ParentsOf(Without(categories, id));
            (x in rest <==> x in parents && x != id) && (x in rest ==> rest[x] == parents[x])
  {
    var rest := Without(categories, id);
    WithoutDistinct(categories, id);
    WithoutHas(categories, id);
    hide Without, ParentsOf, DistinctIds;
    if x in ParentsOf(categories) && x != id {
      var c := EntryOf(categories, x);
      EntryFor(rest, c);
    }
    if x in ParentsOf(rest) {
      var c := EntryOf(rest, x);
      EntryFor(categories, c);
    }
  }

  lemma WithoutParents(categories: seq<Category>, id: string)
    requires DistinctIds(categories)
    ensures ParentsOf(Without(categories, id)) == ParentsOf(categories) - {id}
  {
    var parents, rest := ParentsOf(categories), ParentsOf(Without(categories, id));
    hide Without, ParentsOf, DistinctIds;
    forall x: string
      ensures (x in rest <==> x in parents && x != id) && (x in rest ==> rest[x] == parents[x])
    {
      WithoutEntry(categories, id, x);
    }
  }

  /** The sub-folder guard alone keeps the forest: no stored folder names the deleted one as its parent. */
  lemma DeleteKeeps(categories: seq<Category>, id: string)
    requires Valid(categories) && ChildIds(categories, id) == []
    ensures Valid(Without(categories, id))
  {
    hide Forest, ParentsOf, Tidy, Without, DistinctIds;
    forall x | x in ParentsOf(categories)
      ensures ParentsOf(categories)[x] != Some(id)
    {
      var c := EntryOf(categories, x);
    }
    WithoutDistinct(categories, id);
    WithoutHas(categories, id);
    WithoutParents(categories, id);
    RemoveLeaf(ParentsOf(categories), id);
  }

  /** Every request keeps ids distinct, fields tidy, and parents stored with at most MAX_DEPTH levels. */
  lemma RequestKeeps(categories: seq<Category>, request: Request)
    requires Valid(categories)
    ensures Valid(After(categories, request))
  {
    match request
    case Post(body) =>
      if Answer(categories, request).Created201? {
        PostKeeps(categories, body);
      }
    case PutAll(bodies) =>
      if Answer(categories, request).Ok200? {
        PutAllKeeps(categories, bodies.value);
      }
    case PutOne(id, body) =>
      if Answer(categories, request).Ok200? {
        PutOneKeeps(categories, id, body);
      }
    case Delete(id) =>
      if Answer(categories, request).Ok200? {
        DeleteKeeps(categories, id);
      }
  }
}
