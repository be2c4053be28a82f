/** The main loop of the parameter migration against the paged query list: page by page every query is filtered,
    repaired and posted back if it changed, until a page is short or asking for it is an error. Posts that the server
    refuses do not stop it. */
module Migration {
  import opened Arithmetic
  import opened Options
  import opened Sequences
  import opened Pagination
  import opened ParamRepair

  const PAGE_SIZE := 50

  /** `otherOptions` are the members of a query's options beside its parameters. */
  datatype Query = Query(id: int, parameters: seq<Param>, otherOptions: map<string, string>)

  /** HttpError: an answer of 400 or 404 to a page request, which the script does not catch. */
  datatype Outcome = Done(checked: nat, updated: nat) | HttpError(checked: nat, updated: nat)

  ghost predicate DistinctIds(queries: seq<Query>)
  {
    forall i, j :: 0 <= i < j < |queries| ==> queries[i].id != queries[j].id
  }

  /** The stored query after an accepted update; the new options hold nothing but the parameters. */
  function Replaced(q: Query, params: seq<Param>): Query
  {
    Query(q.id, params, map[])
  }

  function Migrated(q: Query, lookups: Lookups, refused: set<int>): Query
  {
    var params := RepairAll(q.parameters, lookups);
    if params == q.parameters || q.id in refused then q else Replaced(q, params)
  }

  /** What is stored when the first n queries have been dealt with. */
  function MigratedUpTo(queries: seq<Query>, n: nat, lookups: Lookups, refused: set<int>): (r: seq<Query>)
    requires n <= |queries|
    ensures |r| == |queries|
    ensures forall i :: 0 <= i < n ==> r[i] == Migrated(queries[i], lookups, refused)
    ensures forall i :: n <= i < |queries| ==> r[i] == queries[i]
  {
    if n == 0 then queries
    else MigratedUpTo(queries, n - 1, lookups, refused)[n - 1 := Migrated(queries[n - 1], lookups, refused)]
  }

  /** Queries with parameters, among the first n. */
  function CountChecked(queries: seq<Query>, n: nat): nat
    requires n <= |queries|
  {
    if n == 0 then 0 else CountChecked(queries, n - 1) + (if queries[n - 1].parameters != [] then 1 else 0)
  }

  /** Queries that the repair changes, among the first n. */
  function CountUpdated(queries: seq<Query>, n: nat, lookups: Lookups): nat
    requires n <= |queries|
  {
    if n == 0 then 0 else
    CountUpdated(queries, n - 1, lookups) +
    (if RepairAll(queries[n - 1].parameters, lookups) != queries[n - 1].parameters then 1 else 0)
  }

  function HasParameters(queries: seq<Query>): nat -> bool
  {
    (i: nat) => i < |queries| && queries[i].parameters != []
  }

  function IsRepaired(queries: seq<Query>, lookups: Lookups): nat -> bool
  {
    (i: nat) => i < |queries| && RepairAll(queries[i].parameters, lookups) != queries[i].parameters
  }

  /** The counts of the summary: the queries with parameters, and those that the repair changes. */
  lemma CountsAre(queries: seq<Query>, n: nat, lookups: Lookups)
    requires n <= |queries|
    ensures CountChecked(queries, n) == |Where(n, HasParameters(queries))|
    ensures CountUpdated(queries, n, lookups) == |Where(n, IsRepaired(queries, lookups))|
  {
    CheckedAre(queries, n);
    UpdatedAre(queries, n, lookups);
  }

  lemma {:induction false} CheckedAre(queries: seq<Query>, n: nat)
    requires n <= |queries|
    ensures CountChecked(queries, n) == |Where(n, HasParameters(queries))|
  {
    if n > 0 {
      var p := HasParameters(queries);
      assert |Where(n, p)| == |Where(n - 1, p)| + if p(n - 1) then 1 else 0;
      hide Where;
      CheckedAre(queries, n - 1);
    }
  }

  lemma {:induction false} UpdatedAre(queries: seq<Query>, n: nat, lookups: Lookups)
    requires n <= |queries|
    ensures CountUpdated(queries, n, lookups) == |Where(n, IsRepaired(queries, lookups))|
  {
    hide RepairAll;
    if n > 0 {
      var p := IsRepaired(queries, lookups);
      assert |Where(n, p)| == |Where(n - 1, p)| + if p(n - 1) then 1 else 0;
      hide Where;
      UpdatedAre(queries, n - 1, lookups);
    }
  }

  /** A query is left alone if nothing is repaired or the server refuses it, and else has the repaired parameters as its
      only options. */
  lemma MigratedIs(q: Query, lookups: Lookups, refused: set<int>)
    ensures var r, params := Migrated(q, lookups, refused), RepairAll(q.parameters, lookups);
            (params == q.parameters || q.id in refused ==> r == q) &&
            (params != q.parameters && q.id !in refused ==>
               r.id == q.id && r.parameters == params && r.otherOptions == map[])
  {
    hide RepairAll;
  }

  lemma IdsStay(queries: seq<Query>, n: nat, lookups: Lookups, refused: set<int>)
    requires DistinctIds(queries) && n <= |queries|
    ensures DistinctIds(MigratedUpTo(queries, n, lookups, refused))
  {
    var r := MigratedUpTo(queries, n, lookups, refused);
    hide RepairAll, MigratedUpTo;
    assert forall i :: 0 <= i < |r| ==> r[i].id == queries[i].id;
  }

  lemma NextQuery(queries: seq<Query>, n: nat, lookups: Lookups, refused: set<int>)
    requires n < |queries|
    ensures MigratedUpTo(queries, n + 1, lookups, refused) ==
            MigratedUpTo(queries, n, lookups, refused)[n := Migrated(queries[n], lookups, refused)]
    ensures CountChecked(queries, n + 1) ==
            CountChecked(queries, n) + (if queries[n].parameters != [] then 1 else 0)
    ensures CountUpdated(queries, n + 1, lookups) ==
            CountUpdated(queries, n, lookups) +
            (if RepairAll(queries[n].parameters, lookups) != queries[n].parameters then 1 else 0)
  {
  }

  lemma NoneMigrated(queries: seq<Query>, lookups: Lookups, refused: set<int>)
    ensures MigratedUpTo(queries, 0, lookups, refused) == queries
    ensures CountChecked(queries, 0) == 0 && CountUpdated(queries, 0, lookups) == 0
  {
  }

  /** What the walk gets for the page after the first n queries, where n is a multiple of the page size. */
  lemma PageAfter(queries: seq<Query>, page: int, n: nat)
    requires page >= 1 && n == PAGE_SIZE * (page - 1) <= |queries|
    ensures var r := Paginate(queries, page, PAGE_SIZE);
            if n == |queries| && n > 0 then r.Err?
            else r.Ok? && r.value.results == queries[n..Min(n + PAGE_SIZE, |queries|)]
  {
  }

  class Server {
    var queries: seq<Query>
    const refused: set<int>

    constructor (queries: seq<Query>, refused: set<int>)
      ensures this.queries == queries && this.refused == refused
    {
      this.queries, this.refused := queries, refused;
    }

    /** POST /api/queries/<id> with new options; false stands for an error answer. */
    method UpdateOptions(ghost k: nat, id: int, params: seq<Param>) returns (ok: bool)
      requires DistinctIds(queries) && k < |queries| && queries[k].id == id
      modifies this
      ensures ok == (id !in refused)
      ensures queries == if ok then old(queries)[k := Replaced(old(queries[k]), params)] else old(queries)
    {
      ok := id !in refused;
      if ok {
        var i := 0;
        while queries[i].id != id
          invariant i <= k && queries == old(queries)
          decreases k - i
        {
          i := i + 1;
        }
        queries := queries[i := Replaced(queries[i], params)];
      }
    }

    /** update_query_params: the error answer is caught, and the query counts as updated all the same. */
    method UpdateQueryParams(ghost k: nat, q: Query, lookups: Lookups) returns (changed: bool)
      requires DistinctIds(queries) && k < |queries| && queries[k] == q
      modifies this
      ensures changed == (RepairAll(q.parameters, lookups) != q.parameters)
      ensures queries == old(queries)[k := Migrated(q, lookups, refused)]
    {
      var newParams;
      newParams, changed := RepairParams(q.parameters, lookups);
      if changed {
        var ok := UpdateOptions(k, q.id, newParams);
      }
    }

    /** One query of a page; `k` is its place in the list. */
    method Deal(ghost k: nat, q: Query, lookups: Lookups) returns (checked: nat, updated: nat)
      requires DistinctIds(queries) && k < |queries| && queries[k] == q
      modifies this
      ensures checked == if q.parameters != [] then 1 else 0
      ensures updated == if RepairAll(q.parameters, lookups) != q.parameters then 1 else 0
      ensures queries == old(queries)[k := Migrated(q, lookups, refused)]
    {
      hide Repair, Suspect, Touched;
      FilterNeverSkips(q.parameters, lookups);
      checked, updated := 0, 0;
      if q.parameters == [] {
        return;
      }
      checked := 1;
      var needsUpdate := CheckNeedsUpdate(q.parameters);
      if needsUpdate {
        var changed := UpdateQueryParams(k, q, lookups);
        updated := if changed then 1 else 0;
      }
    }

    /** The loop over one page, which begins after n queries of the list. */
    method DealWithPage(ghost all: seq<Query>, ghost n: nat, page: seq<Query>, lookups: Lookups)
      returns (checked: nat, updated: nat)
      requires DistinctIds(all) && n + |page| <= |all| && page == all[n..n + |page|]
      requires queries == MigratedUpTo(all, n, lookups, refused)
      modifies this
      ensures queries == MigratedUpTo(all, n + |page|, lookups, refused)
      ensures CountChecked(all, n) + checked == CountChecked(all, n + |page|)
      ensures CountUpdated(all, n, lookups) + updated == CountUpdated(all, n + |page|, lookups)
    {
      hide Migrated, MigratedUpTo, CountChecked, CountUpdated, RepairAll;
      checked, updated := 0, 0;
      for i := 0 to |page|
        invariant queries == MigratedUpTo(all, n + i, lookups, refused)
        invariant CountChecked(all, n) + checked == CountChecked(all, n + i)
        invariant CountUpdated(all, n, lookups) + updated == CountUpdated(all, n + i, lookups)
      {
        assert page[i] == all[n + i];
        IdsStay(all, n + i, lookups, refused);
        NextQuery(all, n + i, lookups, refused);
        hide DistinctIds;
        var c, u := Deal(n + i, page[i], lookups);
        checked, updated := checked + c, updated + u;
      }
    }

    /** The walk over the pages. Every query is dealt with once. It ends on a short or empty page, except that with a
        positive multiple of PAGE_SIZE queries it ends on the error answer to the page after the last. */
    method Walk(lookups: Lookups) returns (outcome: Outcome)
      requires DistinctIds(queries)
      modifies this
      ensures queries == MigratedUpTo(old(queries), |old(queries)|, lookups, refused)
      ensures outcome.checked == CountChecked(old(queries), |old(queries)|)
      ensures outcome.updated == CountUpdated(old(queries), |old(queries)|, lookups)
      ensures outcome.HttpError? <==> |queries| > 0 && |queries| % 50 == 0
    {
      hide Migrated, RepairAll, MigratedUpTo, CountChecked, CountUpdated, Paginate;
      ghost var all := queries;
      NoneMigrated(all, lookups, refused);
      var page, checked, updated := 1, 0, 0;
      ghost var n := 0;
      while true
        invariant page >= 1 && n == PAGE_SIZE * (page - 1) <= |all|
        invariant queries == MigratedUpTo(all, n, lookups, refused)
        invariant checked == CountChecked(all, n) && updated == CountUpdated(all, n, lookups)
        decreases |all| - n
      {
        PageAfter(queries, page, n);
        var result := Paginate(queries, page, PAGE_SIZE);
        if result.Err? {
          return HttpError(checked, updated);
        }
        var results := result.value.results;
        if results == [] {
          break;
        }
        assert results == all[n..n + |results|];
        var c, u := DealWithPage(all, n, results, lookups);
        checked, updated := checked + c, updated + u;
        n := n + |results|;
        if |results| < PAGE_SIZE {
          break;
        }
        page := page + 1;
      }
      return Done(checked, updated);
    }

    /** main: without any lookup query the script gives up before it looks at a query. */
    method Migrate(lookups: Lookups) returns (outcome: Option<Outcome>)
      requires DistinctIds(queries)
      modifies this
      ensures outcome.None? <==> lookups == map[]
      ensures outcome.None? ==> queries == old(queries)
      ensures outcome.Some? ==> queries == MigratedUpTo(old(queries), |old(queries)|, lookups, refused)
      ensures outcome.Some? ==> (outcome.value.HttpError? <==> |queries| > 0 && |queries| % 50 == 0)
    {
      if lookups == map[] {
        return None;
      }
      var walked := Walk(lookups);
      return Some(walked);
    }
  }

  /** Running the migration again, with the same lookups or more, gives what one run with the later lookups gives to
      the parameters; a query loses its other options in the first run that changes it. */
  lemma MigrateTwice(q: Query, first: Lookups, second: Lookups)
    requires forall k :: k in first ==> k in second && second[k] == first[k]
    ensures Migrated(Migrated(q, first, {}), second, {}).parameters == Migrated(q, second, {}).parameters
    ensures Migrated(Migrated(q, first, {}), first, {}) == Migrated(q, first, {})
    ensures Migrated(q, first, {}).otherOptions == q.otherOptions <==>
            RepairAll(q.parameters, first) == q.parameters || q.otherOptions == map[]
  {
    RepairAllTwice(q.parameters, first, second);
    RepairIsIdempotent(q.parameters, first);
    hide RepairAll;
  }

  // ---- what goes wrong, on an input ----

  /** A list that the walk does not get through: any full pages, such as one of fifty queries. */
  method WalkFullPages(pages: nat, lookups: Lookups) returns (outcome: Outcome)
    requires pages > 0
    ensures outcome.HttpError?
  {
    var queries := seq(PAGE_SIZE * pages, i => Query(i, [], map[]));
    var server := new Server(queries, {});
    outcome := server.Walk(lookups);
  }

  /** A query that loses an option: its enumeration is repaired, and its other options go. */
  lemma OptionLost(id: int, name: string, value: string)
    ensures var q := Query(id, [Param("health_status", "", "text", "", None, None)], map[name := value]);
            Migrated(q, map[], {}).otherOptions == map[] && q.otherOptions != map[] &&
            Migrated(q, map[], {}).parameters != q.parameters
  {
    var p := Param("health_status", "", "text", "", None, None);
    var q := Query(id, [p], map[name := value]);
    assert Repair(p, map[]) == p.(kind := "enum", enumOptions := Some("Good\nWatch\nRisk"));
    assert Repair(p, map[]).kind[0] == 'e';
    assert RepairAll([p], map[])[0] != p;
    assert name in q.otherOptions;
  }
}
