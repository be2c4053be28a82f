/** What the category endpoints accept and store, told from the request and the list. */
module FolderAnswers {
  import opened Options
  import opened Text
  import opened Sequences
  import opened FolderTree
  import opened FolderFields
  import opened FolderStore
  import FolderRuns

  // ---- the stored fields ----

  ghost predicate TrimmedOr(given: Option<string>, kept: string, default: string)
  {
    if Blank(OrEmpty(given)) then kept == default else Trimmed(OrEmpty(given), kept)
  }

  /** Every field but id and parent comes from the member of that name: trimmed, or the default for one that is missing
      or blank. */
  ghost predicate FieldsFrom(c: Category, body: Body)
  {
    TrimmedOr(body.name, c.name, "") && TrimmedOr(body.description, c.description, "") &&
    TrimmedOr(body.icon, c.icon, "folder") && TrimmedOr(body.color, c.color, "#6b7280")
  }

  /** A given parent is trimmed and lower-cased, and a blank one is none. */
  ghost predicate ParentFrom(c: Category, text: string)
  {
    if Blank(text) then c.parent.None? else c.parent.Some? && LoweredFrom(text, c.parent.value)
  }

  ghost predicate LoweredFrom(text: string, kept: string)
  {
    exists t :: Trimmed(text, t) && kept == Lower(t)
  }

  /** A given id is trimmed and lower-cased; without one the id is derived from the trimmed name. */
  ghost predicate IdFrom(id: string, body: Body)
  {
    if Blank(OrEmpty(body.id)) then exists t :: Trimmed(OrEmpty(body.name), t) && id == DerivedId(t)
    else LoweredFrom(OrEmpty(body.id), id)
  }

  lemma StripsOr(given: Option<string>, default: string)
    ensures TrimmedOr(given, OrDefault(Strip(OrEmpty(given)), default), default)
  {
    StripTrims(OrEmpty(given));
    StripEnds(OrEmpty(given));
    hide Strip, Trimmed, Blank;
  }

  lemma CleanFields(body: Body, isUpdate: bool)
    ensures FieldsFrom(Clean(body, isUpdate), body) && IdFrom(CleanId(body, false), body)
    ensures body.parent.Text? ==> ParentFrom(Clean(body, isUpdate), body.parent.text)
    ensures !body.parent.Text? ==> Clean(body, isUpdate).parent.None?
  {
    hide Strip, Trimmed, TrimmedOr, Blank, Lower, CleanId, OrEmpty, LoweredFrom, IdFrom;
    StripsOr(body.name, "");
    StripsOr(body.description, "");
    StripsOr(body.icon, "folder");
    StripsOr(body.color, "#6b7280");
    IdIs(body);
    if body.parent.Text? {
      ParentIs(body.parent.text);
    }
  }

  lemma ParentIs(text: string)
    ensures var t := Lower(Strip(text)); if Blank(text) then t == "" else t != "" && LoweredFrom(text, t)
  {
    StripTrims(text);
    StripEnds(text);
    assert |Lower(Strip(text))| == |Strip(text)|;
    hide Strip, Trimmed, Blank, Lower;
  }

  lemma IdIs(body: Body)
    ensures IdFrom(CleanId(body, false), body)
  {
    ParentIs(OrEmpty(body.id));
    StripTrims(OrEmpty(body.name));
    hide Strip, Trimmed, Blank, Lower, LoweredFrom, OrEmpty, DerivedId;
  }

  // ---- what is accepted ----

  predicate SlugChar(c: char)
  {
    'a' <= c <= 'z' || '0' <= c <= '9'
  }

  /** The rules of single fields. */
  ghost predicate FieldsRight(c: Category, body: Body)
  {
    1 <= |c.name| <= 64 && |c.description| <= 256 && !body.parent.NotText? && |c.color| == 7 && c.color[0] == '#' &&
    forall i :: 1 <= i < 7 ==> '0' <= c.color[i] <= '9' || 'a' <= c.color[i] <= 'f' || 'A' <= c.color[i] <= 'F'
  }

  /** One to sixty-three lower-case letters, digits, dashes and underscores, of which the first is one of the former. */
  ghost predicate IdRight(id: string)
  {
    1 <= |id| <= 63 && SlugChar(id[0]) && forall i :: 0 <= i < |id| ==> SlugChar(id[i]) || id[i] == '_' || id[i] == '-'
  }

  lemma AcceptableIs(body: Body, existing: set<string>, isUpdate: bool)
    ensures var c := Clean(body, isUpdate);
            Acceptable(body, existing, isUpdate) <==>
            FieldsRight(c, body) && (!isUpdate ==> IdRight(c.id) && c.id !in existing)
  {
    var c := Clean(body, isUpdate);
    hide Clean;
    if Acceptable(body, existing, isUpdate) {
      assert !Wrong(NameMissing, body, existing, isUpdate) && !Wrong(NameTooLong, body, existing, isUpdate);
      assert !Wrong(IdMalformed, body, existing, isUpdate) && !Wrong(IdTaken, body, existing, isUpdate);
      assert !Wrong(ColorMalformed, body, existing, isUpdate);
      assert !Wrong(DescriptionTooLong, body, existing, isUpdate);
      assert !Wrong(ParentMalformed, body, existing, isUpdate);
    }
  }

  /** The folder is stored, and going up from it meets at most five folders, itself included. */
  ghost predicate HasRoom(categories: seq<Category>, id: string)
  {
    Stored(categories, id) &&
    forall path :: Path(ParentsOf(categories), path) && path[0] == id ==> |path| <= 5
  }

  lemma ParentsNext(categories: seq<Category>, c: Category)
    ensures ParentsOf(categories + [c]) == ParentsOf(categories)[c.id := c.parent]
  {
    assert (categories + [c])[..|categories|] == categories;
  }

  /** A path in which a new folder occurs begins with it. */
  lemma PathWithNew(parents: Parents, id: string, parent: Option<string>, path: seq<string>)
    requires id !in parents && parent != Some(id)
    requires forall x :: x in parents && parents[x].Some? ==> parents[x].value in parents
    requires Path(parents[id := parent], path)
    ensures if path[0] != id then Path(parents, path)
            else |path| == 1 || (parent == Some(path[1]) && Path(parents, path[1..]))
  {
    var more := parents[id := parent];
    forall i | 1 <= i < |path|
      ensures path[i] != id
    {
      assert path[i - 1] in more && more[path[i - 1]] == Some(path[i]);
    }
    if path[0] == id {
      assert |path| > 1 ==> Path(parents, path[1..]);
    } else {
      assert Path(parents, path);
    }
  }

  /** A new folder without a parent, or below one with room, keeps every path within six folders. */
  lemma RoomSuffices(parents: Parents, id: string, parent: Option<string>)
    requires id !in parents && Forest(parents)
    requires parent.Some? ==> parent.value in parents &&
                              forall path :: Path(parents, path) && path[0] == parent.value ==> |path| <= 5
    ensures Forest(parents[id := parent])
  {
    ForestIffPaths(parents);
    ForestIffPaths(parents[id := parent]);
    hide Forest;
    forall path | Path(parents[id := parent], path)
      ensures |path| <= 6
    {
      PathWithNew(parents, id, parent, path);
    }
  }

  lemma RoomNeeded(parents: Parents, id: string, parent: string)
    requires id !in parents && Forest(parents[id := Some(parent)])
    ensures parent in parents && forall path :: Path(parents, path) && path[0] == parent ==> |path| <= 5
  {
    var more := parents[id := Some(parent)];
    ForestIffPaths(more);
    hide Forest;
    assert more[id].value in more;
    assert parent == id ==> Path(more, [id, id, id, id, id, id, id]);
    forall path | Path(parents, path) && path[0] == parent
      ensures |path| <= 5
    {
      assert Path(more, [id] + path);
    }
  }

  lemma RoomIff(categories: seq<Category>, c: Category)
    requires Valid(categories) && c.id !in IdsOf(categories)
    ensures Forest(ParentsOf(categories + [c])) <==> (c.parent.Some? ==> HasRoom(categories, c.parent.value))
  {
    var parents := ParentsOf(categories);
    ParentsNext(categories, c);
    ParentsOfList(categories);
    assert c.id !in parents by {
      assert !Stored(categories, c.id);
    }
    hide ParentsOf, Forest, Tidy, DistinctIds, Stored, Path;
    if Forest(parents[c.id := c.parent]) && c.parent.Some? {
      RoomNeeded(parents, c.id, c.parent.value);
    }
    if c.parent.Some? ==> HasRoom(categories, c.parent.value) {
      RoomSuffices(parents, c.id, c.parent);
    }
  }

  /** A create is accepted exactly if its fields and id are right, the id is new, and its parent, if it has one, is a
      stored folder with room below it. It then appends a category with the given fields. */
  lemma CreatedIff(categories: seq<Category>, body: Body)
    requires Valid(categories)
    ensures var c, request := Clean(body, false), Post(body);
            FieldsFrom(c, body) && IdFrom(c.id, body) && Answer(categories, request) in {Created201, Bad400} &&
            (Answer(categories, request).Created201? <==>
               FieldsRight(c, body) && IdRight(c.id) && c.id !in IdsOf(categories) &&
               (c.parent.Some? ==> HasRoom(categories, c.parent.value))) &&
            After(categories, request) == categories + (if Answer(categories, request).Created201? then [c] else [])
  {
    CleanFields(body, false);
    AcceptableIs(body, IdsOf(categories), false);
    var c := Clean(body, false);
    assert c.id == CleanId(body, false);
    hide Clean, CleanId, Acceptable, Valid, Forest, FieldsRight, IdRight, FieldsFrom, IdFrom, HasRoom, IdsOf;
    if c.id !in IdsOf(categories) {
      RoomIff(categories, c);
    }
    assert categories + [] == categories;
  }

  /** An update takes every field but the id from the body, and the parent too if it names one. */
  lemma UpdatedFields(categories: seq<Category>, id: string, body: Body)
    requires Valid(categories) && Answer(categories, PutOne(id, body)).Ok200?
    ensures var k, after := IndexOf(categories, id), After(categories, PutOne(id, body));
            k < |categories| && after == categories[k := after[k]] && after[k].id == id && FieldsFrom(after[k], body) &&
            match body.parent
            case Text(text) => ParentFrom(after[k], text)
            case Absent => after[k].parent == categories[k].parent
            case _ => after[k].parent.None?
  {
    FolderRuns.UpdateInPlace(categories, id, body);
    var k := IndexOf(categories, id);
    CleanFields(UpdateBody(categories[k], id, body), true);
    hide Clean, Valid, Acceptable, Forest, ParentsOf, FieldsFrom, ParentFrom;
    assert FieldsFrom(After(categories, PutOne(id, body))[k], body) by {
      assert FieldsFrom(Clean(UpdateBody(categories[k], id, body), true), UpdateBody(categories[k], id, body));
    }
  }

  lemma ReplacedItem(bodies: seq<Body>, i: nat)
    requires i < |bodies|
    ensures var list := CleanAll(bodies);
            FieldsFrom(list[i], bodies[i]) && IdFrom(list[i].id, bodies[i]) &&
            (Acceptable(bodies[i], IdsOf(list[..i]), false) <==>
               FieldsRight(list[i], bodies[i]) && IdRight(list[i].id) && list[i].id !in IdsOf(list[..i]))
  {
    CleanFields(bodies[i], false);
    AcceptableIs(bodies[i], IdsOf(CleanAll(bodies)[..i]), false);
    assert Clean(bodies[i], false).id == CleanId(bodies[i], false);
    hide FieldsFrom, IdFrom, FieldsRight, IdRight, Acceptable, Clean, CleanId, IdsOf;
  }

  /** Every category has the fields of its body. */
  ghost predicate AllFrom(list: seq<Category>, bodies: seq<Body>)
  {
    |list| == |bodies| &&
    forall i :: 0 <= i < |list| ==> FieldsFrom(list[i], bodies[i]) && IdFrom(list[i].id, bodies[i])
  }

  /** Every category has the right fields and a right id. */
  ghost predicate AllRight(list: seq<Category>, bodies: seq<Body>)
  {
    |list| == |bodies| && forall i :: 0 <= i < |list| ==> FieldsRight(list[i], bodies[i]) && IdRight(list[i].id)
  }

  lemma ReplacedItems(bodies: seq<Body>)
    ensures AllFrom(CleanAll(bodies), bodies)
    ensures AllAcceptable(bodies) <==> AllRight(CleanAll(bodies), bodies) && DistinctIds(CleanAll(bodies))
  {
    var list := CleanAll(bodies);
    DistinctIff(list);
    hide CleanAll, FieldsFrom, IdFrom, FieldsRight, IdRight, Acceptable, DistinctIds, IdsOf;
    forall i | 0 <= i < |bodies|
      ensures FieldsFrom(list[i], bodies[i]) && IdFrom(list[i].id, bodies[i])
      ensures Acceptable(bodies[i], IdsOf(list[..i]), false) <==>
              FieldsRight(list[i], bodies[i]) && IdRight(list[i].id) && list[i].id !in IdsOf(list[..i])
    {
      ReplacedItem(bodies, i);
    }
  }

  /** A bulk replace is accepted exactly if it is a list of categories with the right fields and ids, all ids different,
      that make a forest. It then stores them, each with the given fields, in the given order. */
  lemma ReplacedIff(categories: seq<Category>, bodies: seq<Body>)
    ensures var list, answer := CleanAll(bodies), Answer(categories, PutAll(Some(bodies)));
            AllFrom(list, bodies) &&
            (answer.Ok200? <==> AllRight(list, bodies) && DistinctIds(list) && Forest(ParentsOf(list))) &&
            (!answer.Ok200? ==> answer.Bad400?) &&
            After(categories, PutAll(Some(bodies))) == if answer.Ok200? then list else categories
    ensures Answer(categories, PutAll(None)).Bad400? && After(categories, PutAll(None)) == categories
  {
    ReplacedItems(bodies);
    hide AllFrom, AllRight, AllAcceptable, CleanAll, Forest, ParentsOf, DistinctIds;
  }

  lemma DistinctIff(list: seq<Category>)
    ensures DistinctIds(list) <==> forall i :: 0 <= i < |list| ==> list[i].id !in IdsOf(list[..i])
  {
    if forall i :: 0 <= i < |list| ==> list[i].id !in IdsOf(list[..i]) {
      forall i, j | 0 <= i < j < |list|
        ensures list[i].id != list[j].id
      {
        assert list[..j][i] == list[i];
      }
    }
  }

  /** An update of an id that is not stored finds nothing; another is accepted exactly if the fields are right and the
      folders still make a forest. */
  lemma UpdatedIff(categories: seq<Category>, id: string, body: Body)
    ensures var k, answer := IndexOf(categories, id), Answer(categories, PutOne(id, body));
            (answer.NotFound404? <==> forall c :: c in categories ==> c.id != id) &&
            (k < |categories| ==>
               var c := Clean(UpdateBody(categories[k], id, body), true);
               (answer.Ok200? <==> FieldsRight(c, body) && Forest(ParentsOf(categories[k := c]))) &&
               (!answer.Ok200? ==> answer.Bad400?))
  {
    var k := IndexOf(categories, id);
    if k < |categories| {
      assert categories[k] in categories && categories[k].id == id;
      var full := UpdateBody(categories[k], id, body);
      AcceptableIs(full, {}, true);
      assert FieldsRight(Clean(full, true), full) <==> FieldsRight(Clean(full, true), body);
      hide Clean, Acceptable, Forest, ParentsOf, FieldsRight, UpdateBody;
    }
  }

  ghost function OtherIds(categories: seq<Category>, id: string): nat -> bool
  {
    (i: nat) => i < |categories| && categories[i].id != id
  }

  ghost predicate CategoriesAt(some: seq<Category>, categories: seq<Category>, at: seq<nat>)
  {
    |some| == |at| && forall j :: 0 <= j < |at| ==> at[j] < |categories| && some[j] == categories[at[j]]
  }

  lemma {:induction false} OthersStay(categories: seq<Category>, id: string, k: nat)
    requires k <= |categories|
    ensures CategoriesAt(Without(categories[..k], id), categories, Where(k, OtherIds(categories, id)))
  {
    if k > 0 {
      var c := categories[k - 1];
      assert categories[..k][..k - 1] == categories[..k - 1];
      var more := if c.id != id then [c] else [];
      var place := if c.id != id then [k - 1] else [];
      assert Without(categories[..k], id) == Without(categories[..k - 1], id) + more;
      assert Where(k, OtherIds(categories, id)) == Where(k - 1, OtherIds(categories, id)) + place;
      hide Without, Where, OtherIds;
      OthersStay(categories, id, k - 1);
    }
  }

  lemma WithoutIff(categories: seq<Category>, id: string)
    ensures Without(categories, id) == categories <==> forall c :: c in categories ==> c.id != id
  {
    if Without(categories, id) == categories {
      WithoutHas(categories, id);
    } else if forall c :: c in categories ==> c.id != id {
      FolderRuns.AbsentWithout(categories, id);
    }
  }

  /** A delete is refused while there is a sub-folder, finds nothing if the id is not stored, and else leaves exactly
      the categories with other ids, in their order. */
  lemma DeletedIff(categories: seq<Category>, id: string)
    ensures var answer := Answer(categories, Delete(id));
            (answer.Bad400? <==> exists c :: c in categories && c.parent == Some(id)) &&
            (answer.NotFound404? <==> !answer.Bad400? && forall c :: c in categories ==> c.id != id) &&
            (!answer.Bad400? && !answer.NotFound404? ==> answer.Ok200?) &&
            (answer.Ok200? ==> CategoriesAt(After(categories, Delete(id)), categories,
                                            Where(|categories|, OtherIds(categories, id))))
  {
    OthersStay(categories, id, |categories|);
    WithoutIff(categories, id);
    assert categories[..|categories|] == categories;
    assert ChildIds(categories, id) == [] <==> forall c :: c in categories ==> c.parent != Some(id);
    hide *;
    AnswerToDelete(categories, id);
  }

  lemma AnswerToDelete(categories: seq<Category>, id: string)
    ensures Answer(categories, Delete(id)) ==
            if ChildIds(categories, id) != [] then Bad400 else
            if Without(categories, id) == categories then NotFound404 else Ok200
    ensures Answer(categories, Delete(id)).Ok200? ==> After(categories, Delete(id)) == Without(categories, id)
  {
    hide Without, ChildIds;
  }
}
