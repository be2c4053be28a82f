/** Report parameters: how the seeder resolves their lookups, and how the migration repairs them later. Both go
    parameter by parameter and keep names and order. What one does with some lookups and the other with more agrees
    for the definitions that are confluent. */
module ParamRepair {
  import opened Options

  type Lookups = map<string, int>

  /** A definition refers to a lookup by its key, a stored parameter by the id of its query. */
  datatype QueryRef = Key(key: string) | Id(id: int)

  /** A missing member is an empty text or None. */
  datatype Param = Param(name: string, title: string, kind: string, value: string, queryId: Option<QueryRef>,
                         enumOptions: Option<string>)

  datatype Update = Lookup(lookup: string) | Enum(enumOptions: string)

  // ---- seeding ----

  /** An unresolved reference of the seeder's definitions. */
  predicate IsRef(p: Param)
  {
    p.kind == "query" && p.queryId.Some? && p.queryId.value.Key?
  }

  /** A known lookup becomes its query's id; an unknown one makes the parameter a text. */
  function Resolve(p: Param, lookups: Lookups): Param
  {
    if !IsRef(p) then p else
    if p.queryId.value.key in lookups then p.(queryId := Some(Id(lookups[p.queryId.value.key])))
    else p.(kind := "text", queryId := None)
  }

  /** Seeding changes a query parameter that names a lookup, and nothing else. */
  lemma ResolveIs(p: Param, lookups: Lookups)
    ensures forall key :: p.kind == "query" && p.queryId == Some(Key(key)) ==>
              Resolve(p, lookups) == if key in lookups then p.(queryId := Some(Id(lookups[key])))
                                     else p.(kind := "text", queryId := None)
    ensures (forall key :: !(p.kind == "query" && p.queryId == Some(Key(key)))) ==> Resolve(p, lookups) == p
  {
    if IsRef(p) {
      assert p.queryId == Some(Key(p.queryId.value.key));
    }
  }

  function Seed(params: seq<Param>, lookups: Lookups): (r: seq<Param>)
    ensures |r| == |params| && forall i :: 0 <= i < |r| ==> r[i] == Resolve(params[i], lookups)
  {
    if params == [] then [] else
    Seed(params[..|params| - 1], lookups) + [Resolve(params[|params| - 1], lookups)]
  }

  /** The resolving loop, which assigns into the copied definitions. */
  method ResolveAll(params: array<Param>, lookups: Lookups)
    modifies params
    ensures params[..] == Seed(old(params[..]), lookups)
  {
    for i := 0 to params.Length
      invariant forall k :: 0 <= k < i ==> params[k] == Resolve(old(params[k]), lookups)
      invariant forall k :: i <= k < params.Length ==> params[k] == old(params[k])
    {
      var p := params[i];
      if p.kind == "query" && p.queryId.Some? && p.queryId.value.Key? {
        var ref := p.queryId.value.key;
        if ref in lookups {
          params[i] := p.(queryId := Some(Id(lookups[ref])));
        } else {
          params[i] := p.(kind := "text", queryId := None);
        }
      }
    }
  }

  // ---- repairing ----

  /** PARAM_UPDATES */
  function UpdateFor(name: string): Option<Update>
  {
    if name == "supplier_name" then Some(Lookup("supplier_lookup")) else
    if name == "product_code" then Some(Lookup("product_lookup")) else
    if name == "category" then Some(Lookup("category_lookup")) else
    if name == "vendor_group" then Some(Lookup("vendor_group_lookup")) else
    if name == "account_code" then Some(Lookup("account_code_lookup")) else
    if name == "bank_account" then Some(Lookup("bank_account_lookup")) else
    if name == "customer_group" then Some(Lookup("customer_group_lookup")) else
    if name == "status" then Some(Lookup("po_status_lookup")) else
    if name == "health_status" then Some(Enum("Good\nWatch\nRisk")) else
    if name == "dimension_type" then Some(Enum("Entity\nFunction\nProject")) else
    if name == "warehouse" then Some(Lookup("warehouse_lookup")) else
    if name == "supplier" then Some(Lookup("supplier_lookup")) else
    if name == "product" then Some(Lookup("product_lookup")) else
    if name == "movement_type" then Some(Lookup("movement_type_lookup")) else None
  }

  predicate DateTitle(title: string)
  {
    title == "Close Date From" || title == "Close Date To" || title == "Activity Date From" ||
    title == "Activity Date To"
  }

  /** A date parameter of the pipeline and activity queries. */
  predicate IsDate(p: Param)
  {
    (p.name == "start_date" || p.name == "end_date") && DateTitle(p.title)
  }

  function DateDefault(name: string): string
  {
    if name == "start_date" then "2024-01-01" else "2024-12-31"
  }

  function Repair(p: Param, lookups: Lookups): Param
  {
    if p.kind != "text" then p else
    if IsDate(p) then p.(kind := "date", value := if p.value == "" then DateDefault(p.name) else p.value) else
    match UpdateFor(p.name)
    case None => p
    case Some(Enum(options)) => p.(kind := "enum", enumOptions := Some(options))
    case Some(Lookup(key)) => if key in lookups then p.(kind := "query", queryId := Some(Id(lookups[key]))) else p
  }

  function RepairAll(params: seq<Param>, lookups: Lookups): (r: seq<Param>)
    ensures |r| == |params| && forall i :: 0 <= i < |r| ==> r[i] == Repair(params[i], lookups)
  {
    if params == [] then [] else
    RepairAll(params[..|params| - 1], lookups) + [Repair(params[|params| - 1], lookups)]
  }

  /** The condition of the pre-filter, which does not look at the lookups. */
  predicate Suspect(p: Param)
  {
    p.kind == "text" && (UpdateFor(p.name).Some? || IsDate(p))
  }

  ghost predicate NeedsUpdate(params: seq<Param>)
  {
    exists i :: 0 <= i < |params| && Suspect(params[i])
  }

  /** One round of the loop. */
  method RepairParam(param: Param, lookups: Lookups) returns (p: Param, changed: bool)
    ensures p == Repair(param, lookups)
    ensures changed <==> p != param
  {
    hide UpdateFor, DateTitle;
    p, changed := param, false;
    if (p.name == "start_date" || p.name == "end_date") && p.kind == "text" && DateTitle(p.title) {
      p := p.(kind := "date");
      if p.value == "" {
        p := p.(value := if p.name == "start_date" then "2024-01-01" else "2024-12-31");
      }
      changed := true;
    } else if UpdateFor(p.name).Some? && p.kind == "text" {
      var update := UpdateFor(p.name).value;
      if update.Lookup? {
        if update.lookup in lookups {
          p := p.(kind := "query", queryId := Some(Id(lookups[update.lookup])));
          changed := true;
        }
      } else {
        p := p.(kind := "enum", enumOptions := Some(update.enumOptions));
        changed := true;
      }
    }
  }

  /** The building of new_params and the changed flag. */
  method RepairParams(params: seq<Param>, lookups: Lookups) returns (newParams: seq<Param>, changed: bool)
    ensures newParams == RepairAll(params, lookups)
    ensures changed <==> newParams != params
  {
    hide Repair;
    changed, newParams := false, [];
    for i := 0 to |params|
      invariant newParams == RepairAll(params, lookups)[..i]
      invariant changed <==> newParams != params[..i]
    {
      var p, touched := RepairParam(params[i], lookups);
      AppendDiffers(newParams, params[..i], p, params[i]);
      assert params[..i + 1] == params[..i] + [params[i]];
      changed, newParams := changed || touched, newParams + [p];
    }
  }

  lemma AppendDiffers(s: seq<Param>, t: seq<Param>, p: Param, q: Param)
    requires |s| == |t|
    ensures s + [p] == t + [q] <==> s == t && p == q
  {
    if s + [p] == t + [q] {
      assert s == (s + [p])[..|s|] && t == (t + [q])[..|t|];
      assert (s + [p])[|s|] == p && (t + [q])[|t|] == q;
    }
  }

  /** The pre-filter's loop. */
  method CheckNeedsUpdate(params: seq<Param>) returns (needsUpdate: bool)
    ensures needsUpdate == NeedsUpdate(params)
  {
    hide UpdateFor, DateTitle;
    for i := 0 to |params|
      invariant forall k :: 0 <= k < i ==> !Suspect(params[k])
    {
      var p := params[i];
      if (UpdateFor(p.name).Some? && p.kind == "text") ||
         ((p.name == "start_date" || p.name == "end_date") && p.kind == "text" && DateTitle(p.title)) {
        return true;
      }
    }
    return false;
  }

  // ---- which names are repaired ----

  /** The parameters that become lookups, and of which. */
  ghost predicate LookupFor(name: string, lookup: string)
  {
    (name == "supplier_name" && lookup == "supplier_lookup") ||
    (name == "product_code" && lookup == "product_lookup") ||
    (name == "category" && lookup == "category_lookup") ||
    (name == "vendor_group" && lookup == "vendor_group_lookup") ||
    (name == "account_code" && lookup == "account_code_lookup") ||
    (name == "bank_account" && lookup == "bank_account_lookup") ||
    (name == "customer_group" && lookup == "customer_group_lookup") ||
    (name == "status" && lookup == "po_status_lookup") ||
    (name == "warehouse" && lookup == "warehouse_lookup") ||
    (name == "supplier" && lookup == "supplier_lookup") ||
    (name == "product" && lookup == "product_lookup") ||
    (name == "movement_type" && lookup == "movement_type_lookup")
  }

  ghost predicate EnumFor(name: string, options: string)
  {
    (name == "health_status" && options == "Good\nWatch\nRisk") ||
    (name == "dimension_type" && options == "Entity\nFunction\nProject")
  }

  lemma UpdatesAre(name: string)
    ensures forall lookup :: LookupFor(name, lookup) <==> UpdateFor(name) == Some(Lookup(lookup))
    ensures forall options :: EnumFor(name, options) <==> UpdateFor(name) == Some(Enum(options))
  {
  }

  /** What becomes of one parameter: the dates of four titles, the names of the table, and nothing else. */
  lemma RepairIs(p: Param, lookups: Lookups)
    ensures var r := Repair(p, lookups);
            var isDate := (p.name == "start_date" || p.name == "end_date") &&
                          (p.title == "Close Date From" || p.title == "Close Date To" ||
                           p.title == "Activity Date From" || p.title == "Activity Date To");
            if p.kind != "text" then r == p else
            if isDate then
              r == p.(kind := "date", value := if p.value != "" then p.value
                                               else if p.name == "start_date" then "2024-01-01" else "2024-12-31")
            else
              (forall key :: LookupFor(p.name, key) ==>
                 r == if key in lookups then p.(kind := "query", queryId := Some(Id(lookups[key]))) else p) &&
              (forall options :: EnumFor(p.name, options) ==>
                 r == p.(kind := "enum", enumOptions := Some(options))) &&
              ((forall text :: !LookupFor(p.name, text) && !EnumFor(p.name, text)) ==> r == p)
  {
    UpdatesAre(p.name);
    hide UpdateFor, LookupFor, EnumFor;
  }

  // ---- what a repair is ----

  /** Something is repaired: a suspect parameter whose lookup, if it takes one, is there. */
  predicate Touched(p: Param, lookups: Lookups)
  {
    Suspect(p) && (IsDate(p) || UpdateFor(p.name).value.Enum? || UpdateFor(p.name).value.lookup in lookups)
  }

  lemma RepairChanges(p: Param, lookups: Lookups)
    ensures Repair(p, lookups) != p <==> Touched(p, lookups)
    ensures Repair(p, lookups).name == p.name && Repair(p, lookups).title == p.title
  {
    hide UpdateFor, DateTitle;
  }

  /** Names and titles stay, in their order. */
  lemma RepairKeepsNames(params: seq<Param>, lookups: Lookups)
    ensures var r := RepairAll(params, lookups);
            |r| == |params| &&
            forall i :: 0 <= i < |r| ==> r[i].name == params[i].name && r[i].title == params[i].title
  {
    hide Repair;
    forall i | 0 <= i < |params|
      ensures Repair(params[i], lookups).name == params[i].name && Repair(params[i], lookups).title == params[i].title
    {
      RepairChanges(params[i], lookups);
    }
  }

  ghost predicate SomeTouched(params: seq<Param>, lookups: Lookups)
  {
    exists i :: 0 <= i < |params| && Touched(params[i], lookups)
  }

  /** A query is changed exactly when one of its parameters is touched, and the pre-filter passes it then; what the
      filter passes in vain are parameters whose lookup is missing. */
  lemma FilterNeverSkips(params: seq<Param>, lookups: Lookups)
    ensures RepairAll(params, lookups) != params <==> SomeTouched(params, lookups)
    ensures SomeTouched(params, lookups) ==> NeedsUpdate(params)
    ensures NeedsUpdate(params) && !SomeTouched(params, lookups) ==>
              forall i :: 0 <= i < |params| && Suspect(params[i]) ==>
                UpdateFor(params[i].name).value.Lookup? && UpdateFor(params[i].name).value.lookup !in lookups
  {
    var r := RepairAll(params, lookups);
    hide Repair, UpdateFor, IsDate;
    forall i | 0 <= i < |params|
      ensures r[i] != params[i] <==> Touched(params[i], lookups)
    {
      RepairChanges(params[i], lookups);
    }
    if r != params {
      assert exists i :: 0 <= i < |params| && r[i] != params[i];
    }
  }

  /** Repairing with some lookups and later with more of them is repairing with the later ones. */
  lemma RepairTwice(p: Param, first: Lookups, second: Lookups)
    requires forall k :: k in first ==> k in second && second[k] == first[k]
    ensures Repair(Repair(p, first), second) == Repair(p, second)
  {
    hide UpdateFor, DateTitle;
  }

  lemma RepairAllTwice(params: seq<Param>, first: Lookups, second: Lookups)
    requires forall k :: k in first ==> k in second && second[k] == first[k]
    ensures RepairAll(RepairAll(params, first), second) == RepairAll(params, second)
  {
    hide Repair;
    forall i | 0 <= i < |params|
      ensures Repair(Repair(params[i], first), second) == Repair(params[i], second)
    {
      RepairTwice(params[i], first, second);
    }
  }

  /** In particular a repair is idempotent. */
  lemma RepairIsIdempotent(params: seq<Param>, lookups: Lookups)
    ensures RepairAll(RepairAll(params, lookups), lookups) == RepairAll(params, lookups)
    ensures !SomeTouched(RepairAll(params, lookups), lookups)
  {
    RepairAllTwice(params, lookups, lookups);
    FilterNeverSkips(RepairAll(params, lookups), lookups);
  }

  // ---- seeding early and repairing later ----

  /** The query a name's update leads to, if the lookup is there. */
  function Target(update: Option<Update>, lookups: Lookups): Option<int>
  {
    if update.Some? && update.value.Lookup? && update.value.lookup in lookups
    then Some(lookups[update.value.lookup]) else None
  }

  /** A definition comes out the same: a reference that was resolved at once, or whose name the repair leads to the
      same lookup result as the reference; anything else if the repair does not touch it. */
  predicate Confluent(p: Param, first: Lookups, second: Lookups)
  {
    if !IsRef(p) then !Touched(p, second) else
    p.queryId.value.key in first ||
    (!IsDate(p) && (UpdateFor(p.name).None? || UpdateFor(p.name).value.Lookup?) &&
     Target(UpdateFor(p.name), second) == Target(Some(Lookup(p.queryId.value.key)), second))
  }

  lemma SeedThenRepairOne(p: Param, first: Lookups, second: Lookups)
    requires forall k :: k in first ==> k in second && second[k] == first[k]
    ensures Repair(Resolve(p, first), second) == Resolve(p, second) <==> Confluent(p, first, second)
  {
    hide UpdateFor, DateTitle;
    if !IsRef(p) {
      RepairChanges(p, second);
    } else if p.queryId.value.key !in first {
      var t := Resolve(p, first);
      assert t.kind == "text" && IsDate(t) == IsDate(p);
    }
  }

  /** Seeding with the first lookups and repairing with the second gives what seeding with the second gives,
      exactly when every definition is confluent. */
  lemma SeedThenRepair(params: seq<Param>, first: Lookups, second: Lookups)
    requires forall k :: k in first ==> k in second && second[k] == first[k]
    ensures RepairAll(Seed(params, first), second) == Seed(params, second) <==>
            forall i :: 0 <= i < |params| ==> Confluent(params[i], first, second)
  {
    var a, b := RepairAll(Seed(params, first), second), Seed(params, second);
    hide Repair, Resolve, Confluent;
    forall i | 0 <= i < |params|
      ensures a[i] == b[i] <==> Confluent(params[i], first, second)
    {
      SeedThenRepairOne(params[i], first, second);
    }
    if forall i :: 0 <= i < |params| ==> a[i] == b[i] {
      assert a == b;
    }
  }

  /** The definitions of the seed are of this kind: references match PARAM_UPDATES, and nothing else is repaired. */
  lemma MatchingDefinitionsAreConfluent(p: Param, first: Lookups, second: Lookups)
    requires if IsRef(p) then !IsDate(p) && UpdateFor(p.name) == Some(Lookup(p.queryId.value.key)) else !Suspect(p)
    ensures Confluent(p, first, second)
  {
    hide UpdateFor, DateTitle;
  }
}
