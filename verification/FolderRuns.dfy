/** Sequences of requests to the report category endpoints: what holds after all of them, that a valid list can be
    sent back in any order, that a create is undone by a delete, and that a valid tree can be taken down folder by
    folder. */
module FolderRuns {
  import opened Options
  import opened Text
  import opened Permutations
  import opened FolderTree
  import opened FolderFields
  import opened FolderStore

  // ---- every run ----

  ghost function Run(start: seq<Category>, requests: seq<Request>): seq<Category>
  {
    if requests == [] then start
    else After(Run(start, requests[..|requests| - 1]), requests[|requests| - 1])
  }

  /** After every sequence of requests ids are distinct, fields tidy, and every folder is a stored one at most
      MAX_DEPTH levels deep. */
  lemma {:induction false} RunKeeps(start: seq<Category>, requests: seq<Request>)
    requires Valid(start)
    ensures Valid(Run(start, requests))
  {
    if requests != [] {
      RunKeeps(start, requests[..|requests| - 1]);
      hide Valid, After;
      RequestKeeps(Run(start, requests[..|requests| - 1]), requests[|requests| - 1]);
    }
  }

  /** The list an organisation starts with. */
  const DEFAULTS: seq<Category> := [SALES, FINANCE, INVENTORY, PROCUREMENT, CASHBOOK]
  const SALES := Category("sales", "Sales", "shopping-cart", "#2563eb",
                          "Sales orders, revenue, and customer analytics", None)
  const FINANCE := Category("finance", "Finance", "dollar", "#16a34a",
                            "Invoicing, cash flow, and financial statements", None)
  const INVENTORY := Category("inventory", "Inventory", "database", "#d97706",
                              "Stock levels, valuation, and warehouse management", None)
  const PROCUREMENT := Category("procurement", "Procurement", "shopping", "#7c3aed",
                                "Purchase orders, supplier management, and spend analysis", None)
  const CASHBOOK := Category("cashbook", "Cashbook", "book", "#0891b2",
                             "Bank transactions, reconciliation, and cash management", None)

  lemma TopLevelTidy(c: Category)
    requires Slug(c.id) && HexColor(c.color) && c.parent.None?
    requires 0 < |c.name| <= MAX_NAME && 0 < |c.icon| && 0 < |c.description| <= MAX_DESCRIPTION
    requires !IsSpace(c.name[0]) && !IsSpace(c.name[|c.name| - 1])
    requires !IsSpace(c.icon[0]) && !IsSpace(c.icon[|c.icon| - 1])
    requires !IsSpace(c.description[0]) && !IsSpace(c.description[|c.description| - 1])
    ensures Tidy(c)
  {
    StripFixed(c.name);
    StripFixed(c.icon);
    StripFixed(c.description);
  }

  lemma TopLevelForest(categories: seq<Category>)
    requires DistinctIds(categories) && forall c :: c in categories ==> c.parent.None?
    ensures Forest(ParentsOf(categories))
  {
    hide DistinctIds, ParentsOf;
    forall id | id in ParentsOf(categories)
      ensures TopWithin(ParentsOf(categories), id, MAX_DEPTH - 1)
    {
      var c := EntryOf(categories, id);
    }
  }

  // The first characters of the longer texts are reached through a shorter beginning.

  lemma SalesAndFinanceAreTidy()
    ensures Tidy(SALES) && Tidy(FINANCE)
  {
    hide Tidy;
    assert "Invoicing, cash flow,"[0] == 'I';
    TopLevelTidy(SALES);
    TopLevelTidy(FINANCE);
  }

  lemma InventoryIsTidy()
    ensures Tidy(INVENTORY)
  {
    hide Tidy;
    assert "Stock levels, valuation,"[0] == 'S';
    TopLevelTidy(INVENTORY);
  }

  lemma CashbookIsTidy()
    ensures Tidy(CASHBOOK)
  {
    hide Tidy;
    assert "Bank transactions,"[0] == 'B';
    TopLevelTidy(CASHBOOK);
  }

  lemma ProcurementIsTidy()
    ensures Tidy(PROCUREMENT)
  {
    hide Tidy;
    assert "Purchase orders, supplier"[0] == 'P';
    TopLevelTidy(PROCUREMENT);
  }

  lemma DefaultsAreValid()
    ensures Valid(DEFAULTS)
  {
    SalesAndFinanceAreTidy();
    InventoryIsTidy();
    CashbookIsTidy();
    ProcurementIsTidy();
    hide Tidy;
    TopLevelForest(DEFAULTS);
    hide Forest, ParentsOf;
  }

  // ---- reordering ----

  lemma DistinctPermutation(a: seq<Category>, b: seq<Category>)
    requires DistinctIds(a) && multiset(a) == multiset(b)
    ensures DistinctIds(b)
  {
    forall i, j | 0 <= i < j < |b|
      ensures b[i].id != b[j].id
    {
      if b[i].id == b[j].id {
        var p := FindIn(b, a, i);
        var q := FindIn(b, a, j);
        assert p == q;
        OccursTwice(b, i, j);
        OccursOnce(a, p);
      }
    }
  }

  function AsBodies(categories: seq<Category>): (bodies: seq<Body>)
    ensures |bodies| == |categories| && forall i :: 0 <= i < |bodies| ==> bodies[i] == AsBody(categories[i])
  {
    if categories == [] then [] else
    AsBodies(categories[..|categories| - 1]) + [AsBody(categories[|categories| - 1])]
  }

  lemma TidyListCleaned(categories: seq<Category>)
    requires forall c :: c in categories ==> Tidy(c)
    ensures CleanAll(AsBodies(categories)) == categories
  {
    var bodies := AsBodies(categories);
    hide Tidy, Clean, AsBody;
    forall i | 0 <= i < |categories|
      ensures CleanAll(bodies)[i] == categories[i]
    {
      TidyRoundTrip(categories[i], {});
    }
  }

  lemma TidyListAccepted(categories: seq<Category>)
    requires DistinctIds(categories) && forall c :: c in categories ==> Tidy(c)
    ensures AllAcceptable(AsBodies(categories))
  {
    var bodies := AsBodies(categories);
    TidyListCleaned(categories);
    hide Tidy, Acceptable, Clean, AsBody, CleanAll;
    forall i | 0 <= i < |categories|
      ensures Acceptable(bodies[i], IdsOf(categories[..i]), false)
    {
      assert categories[i].id !in IdsOf(categories[..i]);
      TidyRoundTrip(categories[i], IdsOf(categories[..i]));
    }
  }

  /** Sending the stored categories back in any order is accepted and stores them in that order, whatever has
      been stored in the meantime. */
  lemma AnyOrderIsAccepted(stored: seq<Category>, order: seq<Category>, current: seq<Category>)
    requires Valid(stored) && multiset(order) == multiset(stored)
    ensures var request := PutAll(Some(AsBodies(order)));
            Answer(current, request).Ok200? && After(current, request) == order
  {
    hide DistinctIds, Tidy, Acceptable, Forest, ParentsOf, AllAcceptable, IdsOf;
    DistinctPermutation(stored, order);
    SameElements(stored, order);
    SameParents(stored, order);
    TidyListCleaned(order);
    TidyListAccepted(order);
  }

  // ---- deleting ----

  lemma StoredParent(categories: seq<Category>, c: Category)
    requires DistinctIds(categories) && Forest(ParentsOf(categories)) && c in categories && c.parent.Some?
    ensures c.parent.value in ParentsOf(categories)
  {
    EntryFor(categories, c);
    assert TopWithin(ParentsOf(categories), c.id, MAX_DEPTH - 1);
    assert TopWithin(ParentsOf(categories), c.parent.value, MAX_DEPTH - 2);
  }

  lemma NotItsOwnParent(categories: seq<Category>, c: Category)
    requires DistinctIds(categories) && Forest(ParentsOf(categories)) && c in categories
    ensures c.parent != Some(c.id)
  {
    EntryFor(categories, c);
    hide ParentsOf, Forest;
    if c.parent == Some(c.id) {
      assert Path(ParentsOf(categories), [c.id, c.id]);
      ForestHasNoCycle(ParentsOf(categories), [c.id, c.id]);
    }
  }

  /** Deleting a folder that has just been created is accepted and restores the list. */
  lemma CreateThenDelete(categories: seq<Category>, body: Body)
    requires Valid(categories) && Answer(categories, Post(body)).Created201?
    ensures var created, request := After(categories, Post(body)), Delete(Clean(body, false).id);
            Answer(created, request).Ok200? && After(created, request) == categories
  {
    var c := Clean(body, false);
    PostKeeps(categories, body);
    assert c.id !in IdsOf(categories) by {
      AcceptedIsTidy(body, IdsOf(categories), false);
    }
    hide Tidy, Clean, Acceptable, Forest, ParentsOf, DistinctIds, Without, ChildIds;
    NewHasNoChildren(categories, c);
    LastWithout(categories, c);
    DeletesLeaf(categories + [c], c.id);
  }

  /** A folder that has just been added is nobody's parent: parents were stored ids before, and it is not its own. */
  lemma NewHasNoChildren(categories: seq<Category>, c: Category)
    requires Valid(categories) && Valid(categories + [c]) && c.id !in IdsOf(categories)
    ensures ChildIds(categories + [c], c.id) == []
  {
    hide Tidy, Forest, ParentsOf, DistinctIds, ChildIds;
    NotItsOwnParent(categories + [c], c);
    forall d | d in categories
      ensures d.parent != Some(c.id)
    {
      if d.parent == Some(c.id) {
        StoredParent(categories, d);
        var e := EntryOf(categories, c.id);
      }
    }
  }

  lemma DeletesLeaf(categories: seq<Category>, id: string)
    requires ChildIds(categories, id) == [] && Without(categories, id) != categories
    ensures Answer(categories, Delete(id)).Ok200? && After(categories, Delete(id)) == Without(categories, id)
  {
    hide ChildIds, Without;
  }

  lemma {:induction false} AbsentWithout(categories: seq<Category>, id: string)
    requires id !in IdsOf(categories)
    ensures Without(categories, id) == categories
  {
    if categories != [] {
      var n := |categories| - 1;
      assert categories == categories[..n] + [categories[n]] && categories[n].id in IdsOf(categories);
      AbsentWithout(categories[..n], id);
    }
  }

  lemma LastWithout(categories: seq<Category>, c: Category)
    requires c.id !in IdsOf(categories)
    ensures Without(categories + [c], c.id) == categories
  {
    AbsentWithout(categories, c.id);
    assert (categories + [c])[..|categories|] == categories;
  }

  /** Deleting the ids one after the other is accepted each time and leaves nothing. */
  ghost predicate TakenDown(categories: seq<Category>, ids: seq<string>)
    decreases |ids|
  {
    if ids == [] then categories == []
    else Answer(categories, Delete(ids[0])).Ok200? && TakenDown(After(categories, Delete(ids[0])), ids[1..])
  }

  lemma LeafOf(categories: seq<Category>) returns (id: string)
    requires Valid(categories) && categories != []
    ensures ChildIds(categories, id) == [] && id in IdsOf(categories)
  {
    var parents := ParentsOf(categories);
    EntryFor(categories, categories[0]);
    id := LeafBelow(parents, [categories[0].id]);
    var c := EntryOf(categories, id);
    hide ParentsOf, Forest, DistinctIds;
    forall d | d in categories
      ensures d.parent != Some(id)
    {
      EntryFor(categories, d);
    }
  }

  /** The sub-folder guard never stands in the way for good: a valid tree can always be deleted folder by folder. */
  lemma {:induction false} CanBeTakenDown(categories: seq<Category>) returns (ids: seq<string>)
    requires Valid(categories)
    ensures TakenDown(categories, ids)
    decreases |categories|
  {
    if categories == [] {
      ids := [];
    } else {
      var leaf := LeafOf(categories);
      var rest := Without(categories, leaf);
      hide Valid, Without, ChildIds, Answer, After;
      DeleteKeeps(categories, leaf);
      WithoutLess(categories, leaf);
      DeletesLeaf(categories, leaf);
      var others := CanBeTakenDown(rest);
      ids := [leaf] + others;
      assert ids[1..] == others;
    }
  }

  lemma WithoutLess(categories: seq<Category>, id: string)
    requires id in IdsOf(categories)
    ensures |Without(categories, id)| < |categories| && Without(categories, id) != categories
  {
    WithoutHas(categories, id);
    WithoutLength(categories, id);
    var c :| c in categories && c.id == id;
    assert c !in Without(categories, id);
  }

  // ---- updating ----

  /** An accepted update changes one category in place, keeps its id, and keeps its parent if the body names none. */
  lemma UpdateInPlace(categories: seq<Category>, id: string, body: Body)
    requires Valid(categories) && Answer(categories, PutOne(id, body)).Ok200?
    ensures var k, after := IndexOf(categories, id), After(categories, PutOne(id, body));
            k < |categories| && after == categories[k := after[k]] && after[k].id == id &&
            (body.parent.Absent? ==> after[k].parent == categories[k].parent)
  {
    var k := IndexOf(categories, id);
    assert categories[k] in categories;
    UpdateKeepsId(categories[k], body);
    hide Acceptable, Forest, ParentsOf, Slug, HexColor, Strip, Lower, DistinctIds;
  }
}
