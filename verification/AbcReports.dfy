/** The two ABC analysis reports over the same sales: one row per product, and one row per class. */
module AbcReports {
  import opened Options
  import opened Statistics
  import opened Permutations
  import opened Sequences
  import opened Grouping
  import opened AbcAnalysis

  datatype Product = Product(id: Option<int>, code: string, name: string, category: string)

  /** A sales order line of the period; the detail groups by all of `product`, the summary by its id. */
  datatype Sale = Sale(product: Product, lineTotal: real)

  /** A ranked row of either report. */
  datatype Item = Item(id: Option<int>, revenue: real)

  function ProductOf(s: Sale): Product
  {
    s.product
  }

  function IdOf(s: Sale): Option<int>
  {
    s.product.id
  }

  function LineTotal(s: Sale): real
  {
    s.lineTotal
  }

  function DetailItem(sales: seq<Sale>, product: Product): Item
  {
    Item(product.id, TotalAt(sales, ProductOf, product, LineTotal))
  }

  function SummaryItem(sales: seq<Sale>, id: Option<int>): Item
  {
    Item(id, TotalAt(sales, IdOf, id, LineTotal))
  }

  function DetailItems(sales: seq<Sale>, products: seq<Product>): (items: seq<Item>)
    ensures |items| == |products| && forall i :: 0 <= i < |items| ==> items[i] == DetailItem(sales, products[i])
  {
    if products == [] then [] else
    DetailItems(sales, products[..|products| - 1]) + [DetailItem(sales, products[|products| - 1])]
  }

  function SummaryItems(sales: seq<Sale>, ids: seq<Option<int>>): (items: seq<Item>)
    ensures |items| == |ids| && forall i :: 0 <= i < |items| ==> items[i] == SummaryItem(sales, ids[i])
  {
    if ids == [] then [] else SummaryItems(sales, ids[..|ids| - 1]) + [SummaryItem(sales, ids[|ids| - 1])]
  }

  function Revenues(items: seq<Item>): (revenues: seq<real>)
    ensures |revenues| == |items|
  {
    if items == [] then [] else Revenues(items[..|items| - 1]) + [items[|items| - 1].revenue]
  }

  /** COUNT(*) of a class, among the first n ranks. */
  function ClassCount(revenues: seq<real>, c: Class, n: nat): nat
    requires n <= |revenues|
  {
    if n == 0 then 0 else ClassCount(revenues, c, n - 1) + (if ClassAt(revenues, n - 1) == c then 1 else 0)
  }

  /** SUM(total_revenue) of a class, among the first n ranks. */
  function ClassRevenue(revenues: seq<real>, c: Class, n: nat): real
    requires n <= |revenues|
  {
    if n == 0 then 0.0 else
    ClassRevenue(revenues, c, n - 1) + (if ClassAt(revenues, n - 1) == c then revenues[n - 1] else 0.0)
  }

  /** The report ranks these groups, ties in any order. */
  ghost predicate Ranking(items: seq<Item>, groups: seq<Item>)
  {
    multiset(items) == multiset(groups) && Ranked(Revenues(items))
  }

  /** A sale adds its line total to the one row of its product, and to the one row of its id. */
  lemma SaleAdds(sales: seq<Sale>, s: Sale, product: Product, id: Option<int>)
    ensures DetailItem(sales + [s], product) ==
            Item(product.id, DetailItem(sales, product).revenue + if s.product == product then s.lineTotal else 0.0)
    ensures SummaryItem(sales + [s], id) ==
            Item(id, SummaryItem(sales, id).revenue + if s.product.id == id then s.lineTotal else 0.0)
    ensures DetailItem([], product).revenue == 0.0 && SummaryItem([], id).revenue == 0.0
  {
    TotalNext(sales, s, ProductOf, product, LineTotal);
    TotalNext(sales, s, IdOf, id, LineTotal);
    var p, i, f := ProductOf, IdOf, LineTotal;
    assert p(s) == s.product && i(s) == s.product.id && f(s) == s.lineTotal;
  }

  // ---- ties ----

  lemma {:induction false} RevenuesConcat(s: seq<Item>, t: seq<Item>)
    ensures Revenues(s + t) == Revenues(s) + Revenues(t)
  {
    if t == [] {
      assert s + t == s;
    } else {
      var n := |t| - 1;
      assert (s + t)[..|s| + n] == s + t[..n];
      RevenuesConcat(s, t[..n]);
    }
  }

  lemma RevenuesSplit(items: seq<Item>, s: seq<Item>, x: Item, t: seq<Item>)
    requires items == s + [x] + t
    ensures multiset(Revenues(items)) == multiset(Revenues(s + t)) + multiset{x.revenue}
  {
    RevenuesConcat(s, t);
    RevenuesConcat(s, [x]);
    RevenuesConcat(s + [x], t);
    assert Revenues([x]) == [x.revenue];
    hide Revenues;
  }

  lemma {:induction false} RevenuesPermuted(a: seq<Item>, b: seq<Item>)
    requires multiset(a) == multiset(b)
    ensures multiset(Revenues(a)) == multiset(Revenues(b))
  {
    hide Revenues;
    if a == [] {
      assert b == [] by {
        SameLength(a, b);
      }
    } else {
      var rest := RevenuesStep(a, b);
      RevenuesPermuted(a[1..], rest);
    }
  }

  lemma RevenuesStep(a: seq<Item>, b: seq<Item>) returns (rest: seq<Item>)
    requires a != [] && multiset(a) == multiset(b)
    ensures multiset(a[1..]) == multiset(rest)
    ensures multiset(Revenues(a)) == multiset(Revenues(a[1..])) + multiset{a[0].revenue}
    ensures multiset(Revenues(b)) == multiset(Revenues(rest)) + multiset{a[0].revenue}
  {
    var k := FindIn(a, b, 0);
    rest := b[..k] + b[k + 1..];
    RevenuesSplit(a, [], a[0], a[1..]) by {
      assert a == [] + [a[0]] + a[1..];
    }
    RevenuesSplit(b, b[..k], b[k], b[k + 1..]) by {
      assert b == b[..k] + [b[k]] + b[k + 1..];
    }
    hide Revenues;
    assert [] + a[1..] == a[1..];
    assert multiset(a[1..]) == multiset(rest) by {
      assert a[..0] + a[1..] == a[1..];
      RemoveSame(a, 0, b, k);
    }
  }

  lemma {:induction false} SortedIsUnique(a: seq<real>, b: seq<real>)
    requires multiset(a) == multiset(b) && Ranked(a) && Ranked(b)
    ensures a == b
  {
    SameLength(a, b);
    if a != [] {
      var j := FindIn(a, b, 0);
      var k := FindIn(b, a, 0);
      assert a[0] >= a[k] == b[0] >= b[j] == a[0];
      RemoveFirst(a, b);
      SortedIsUnique(a[1..], b[1..]);
    }
  }

  /** However equal revenues are ordered, the revenues stand in the same order, so that every rank has the same
      class, and every class the same number of items and the same revenue. */
  lemma TieIndependence(a: seq<Item>, b: seq<Item>, groups: seq<Item>, c: Class)
    requires Ranking(a, groups) && Ranking(b, groups)
    ensures Revenues(a) == Revenues(b) && |a| == |b|
    ensures forall i :: 0 <= i < |a| ==> ClassAt(Revenues(a), i) == ClassAt(Revenues(b), i)
    ensures ClassCount(Revenues(a), c, |a|) == ClassCount(Revenues(b), c, |b|)
    ensures ClassRevenue(Revenues(a), c, |a|) == ClassRevenue(Revenues(b), c, |b|)
  {
    RevenuesPermuted(a, b);
    SortedIsUnique(Revenues(a), Revenues(b));
    SameLength(a, b);
  }

  // ---- detail and summary ----

  /** The id determines the code, the name and the category. */
  ghost predicate IdDetermines(sales: seq<Sale>)
  {
    forall i, j :: 0 <= i < |sales| && 0 <= j < |sales| && sales[i].product.id == sales[j].product.id ==>
      sales[i].product == sales[j].product
  }

  lemma {:induction false} SameTotal(sales: seq<Sale>, product: Product)
    requires forall i :: 0 <= i < |sales| && sales[i].product.id == product.id ==> sales[i].product == product
    ensures TotalAt(sales, ProductOf, product, LineTotal) == TotalAt(sales, IdOf, product.id, LineTotal)
  {
    if sales != [] {
      SameTotal(sales[..|sales| - 1], product);
    }
  }

  lemma SameItem(sales: seq<Sale>, product: Product)
    requires IdDetermines(sales) && HasKey(sales, ProductOf, product)
    ensures DetailItem(sales, product) == SummaryItem(sales, product.id)
  {
    SameTotal(sales, product);
  }

  lemma {:induction false} DistinctMultiplicity<T>(s: seq<T>, x: T)
    requires Distinct(s)
    ensures multiset(s)[x] == if x in s then 1 else 0
  {
    if s != [] {
      var n := |s| - 1;
      DistinctMultiplicity(s[..n], x);
      assert s == s[..n] + [s[n]];
    }
  }

  lemma DistinctSameElements<T(!new)>(a: seq<T>, b: seq<T>)
    requires Distinct(a) && Distinct(b)
    requires (forall i :: 0 <= i < |a| ==> a[i] in b) && (forall j :: 0 <= j < |b| ==> b[j] in a)
    ensures multiset(a) == multiset(b)
  {
    forall x: T
      ensures multiset(a)[x] == multiset(b)[x]
    {
      DistinctMultiplicity(a, x);
      DistinctMultiplicity(b, x);
    }
  }

  lemma DetailInSummary(sales: seq<Sale>, products: seq<Product>, ids: seq<Option<int>>, i: nat)
    requires Groups(sales, ProductOf, products) && Groups(sales, IdOf, ids) && IdDetermines(sales) && i < |products|
    ensures DetailItems(sales, products)[i] in SummaryItems(sales, ids)
  {
    SameItem(sales, products[i]);
    var r := RowOfGroup(sales, ProductOf, products, i);
    var j := GroupOfRow(sales, IdOf, ids, r);
    hide Groups, IdDetermines, HasKey;
    assert SummaryItems(sales, ids)[j] == DetailItems(sales, products)[i];
  }

  lemma SummaryInDetail(sales: seq<Sale>, products: seq<Product>, ids: seq<Option<int>>, j: nat)
    requires Groups(sales, ProductOf, products) && Groups(sales, IdOf, ids) && IdDetermines(sales) && j < |ids|
    ensures SummaryItems(sales, ids)[j] in DetailItems(sales, products)
  {
    var r := RowOfGroup(sales, IdOf, ids, j);
    var i := GroupOfRow(sales, ProductOf, products, r);
    SameItem(sales, products[i]);
    hide Groups, IdDetermines, HasKey;
    assert DetailItems(sales, products)[i] == SummaryItems(sales, ids)[j];
  }

  lemma DistinctProductIds(sales: seq<Sale>, products: seq<Product>, i: nat, j: nat)
    requires Groups(sales, ProductOf, products) && IdDetermines(sales) && i < j < |products|
    ensures products[i].id != products[j].id
  {
    var r := RowOfGroup(sales, ProductOf, products, i);
    var t := RowOfGroup(sales, ProductOf, products, j);
    assert products[i] != products[j];
  }

  lemma SameGroups(sales: seq<Sale>, products: seq<Product>, ids: seq<Option<int>>)
    requires Groups(sales, ProductOf, products) && Groups(sales, IdOf, ids) && IdDetermines(sales)
    ensures multiset(DetailItems(sales, products)) == multiset(SummaryItems(sales, ids))
  {
    var detail, summary := DetailItems(sales, products), SummaryItems(sales, ids);
    assert Distinct(summary);
    hide IdDetermines, HasKey, Groups;
    forall i | 0 <= i < |products|
      ensures detail[i] in summary
    {
      DetailInSummary(sales, products, ids, i);
    }
    forall j | 0 <= j < |ids|
      ensures summary[j] in detail
    {
      SummaryInDetail(sales, products, ids, j);
    }
    forall i, j | 0 <= i < j < |products|
      ensures detail[i] != detail[j]
    {
      DistinctProductIds(sales, products, i, j);
    }
    DistinctSameElements(detail, summary);
  }

  /** When the id determines the other columns, the two reports rank the same revenues: every class has the same
      items and the same revenue in both, however each of them orders ties. */
  lemma ReportsAgree(sales: seq<Sale>, products: seq<Product>, ids: seq<Option<int>>,
                     detail: seq<Item>, summary: seq<Item>, c: Class)
    requires Groups(sales, ProductOf, products) && Groups(sales, IdOf, ids) && IdDetermines(sales)
    requires Ranking(detail, DetailItems(sales, products)) && Ranking(summary, SummaryItems(sales, ids))
    ensures Revenues(detail) == Revenues(summary) && |detail| == |summary|
    ensures ClassCount(Revenues(detail), c, |detail|) == ClassCount(Revenues(summary), c, |summary|)
    ensures ClassRevenue(Revenues(detail), c, |detail|) == ClassRevenue(Revenues(summary), c, |summary|)
  {
    SameGroups(sales, products, ids);
    TieIndependence(detail, summary, SummaryItems(sales, ids), c);
  }

  // ---- and only then ----

  lemma KeyKept<T, U>(xs: seq<T>, k: nat, i: nat, f: T -> U)
    requires k < |xs| && i < |xs| && i != k
    ensures HasKey(xs[..k] + xs[k + 1..], f, f(xs[i]))
  {
    assert (xs[..k] + xs[k + 1..])[if i < k then i else i - 1] == xs[i];
  }

  lemma {:induction false} OntoIsLonger<T, U>(xs: seq<T>, ys: seq<U>, f: T -> U)
    requires Distinct(ys) && forall j :: 0 <= j < |ys| ==> HasKey(xs, f, ys[j])
    ensures |ys| <= |xs|
  {
    if ys != [] {
      var n := |ys| - 1;
      assert HasKey(xs, f, ys[n]);
      var k :| 0 <= k < |xs| && f(xs[k]) == ys[n];
      forall j | 0 <= j < n
        ensures HasKey(xs[..k] + xs[k + 1..], f, ys[..n][j])
      {
        assert HasKey(xs, f, ys[j]);
        var i :| 0 <= i < |xs| && f(xs[i]) == ys[j];
        KeyKept(xs, k, i, f);
      }
      hide HasKey;
      OntoIsLonger(xs[..k] + xs[k + 1..], ys[..n], f);
    }
  }

  /** With two values for one key, there are fewer keys than values. */
  lemma OntoNotOneToOne<T, U>(xs: seq<T>, ys: seq<U>, f: T -> U, k: nat, m: nat)
    requires Distinct(ys) && forall j :: 0 <= j < |ys| ==> HasKey(xs, f, ys[j])
    requires k < |xs| && m < |xs| && k != m && f(xs[k]) == f(xs[m])
    ensures |ys| < |xs|
  {
    var rest := xs[..k] + xs[k + 1..];
    forall j | 0 <= j < |ys|
      ensures HasKey(rest, f, ys[j])
    {
      assert HasKey(xs, f, ys[j]);
      var i :| 0 <= i < |xs| && f(xs[i]) == ys[j];
      KeyKept(xs, k, if i == k then m else i, f);
    }
    hide HasKey;
    OntoIsLonger(rest, ys, f);
  }

  /** The reports have the same number of items only if the id determines the other columns. */
  lemma SameCountIff(sales: seq<Sale>, products: seq<Product>, ids: seq<Option<int>>)
    requires Groups(sales, ProductOf, products) && Groups(sales, IdOf, ids)
    ensures |ids| <= |products|
    ensures |ids| == |products| <==> IdDetermines(sales)
  {
    var id := (p: Product) => p.id;
    assert Distinct(ids) && forall j :: 0 <= j < |ids| ==> HasKey(sales, IdOf, ids[j]);
    hide HasKey, Groups, Distinct;
    forall j | 0 <= j < |ids|
      ensures HasKey(products, id, ids[j])
    {
      IdHasProduct(sales, products, ids[j], id);
    }
    OntoIsLonger(products, ids, id);
    if IdDetermines(sales) {
      SameGroups(sales, products, ids);
      SameLength(DetailItems(sales, products), SummaryItems(sales, ids));
    } else {
      var i, j :| 0 <= i < |sales| && 0 <= j < |sales| && sales[i].product.id == sales[j].product.id &&
                  sales[i].product != sales[j].product;
      var k := GroupOfRow(sales, ProductOf, products, i);
      var m := GroupOfRow(sales, ProductOf, products, j);
      OntoNotOneToOne(products, ids, id, k, m);
    }
  }

  lemma IdHasProduct(sales: seq<Sale>, products: seq<Product>, k: Option<int>, id: Product -> Option<int>)
    requires Groups(sales, ProductOf, products) && HasKey(sales, IdOf, k)
    requires forall p: Product :: id(p) == p.id
    ensures HasKey(products, id, k)
  {
    var r :| 0 <= r < |sales| && IdOf(sales[r]) == k;
    var i := GroupOfRow(sales, ProductOf, products, r);
    assert id(products[i]) == k;
  }

  // ---- what the classes hold ----

  /** The A items are the first ranks, as many as there are A items. */
  lemma {:induction false} LeadingItems(revenues: seq<real>, n: nat)
    requires Ranked(revenues) && n <= |revenues|
    ensures var k := ClassCount(revenues, A, n);
            k <= n && (forall i :: 0 <= i < n ==> (ClassAt(revenues, i) == A <==> i < k)) &&
            ClassRevenue(revenues, A, n) == Sum(revenues[..k])
  {
    hide ClassAt, Sum, Ranked;
    if n > 0 {
      LeadingItems(revenues, n - 1);
      var k := ClassCount(revenues, A, n - 1);
      SumNext(revenues, n - 1);
      if k < n - 1 {
        ContiguousClasses(revenues, k, n - 1);
      }
    } else {
      NoRevenue(revenues);
    }
  }

  lemma NoRevenue(revenues: seq<real>)
    ensures Sum(revenues[..0]) == 0.0
  {
  }

  /** Class A is the longest run of top products that holds less than 80.005 % of the revenue. */
  lemma ParetoClass(revenues: seq<real>)
    requires Ranked(revenues) && Sum(revenues) != 0.0
    ensures var k := ClassCount(revenues, A, |revenues|);
            k <= |revenues| && ClassRevenue(revenues, A, |revenues|) == Sum(revenues[..k]) &&
            (k > 0 ==> Percent(revenues, k) < 80.005) && (k < |revenues| ==> Percent(revenues, k + 1) >= 80.005)
  {
    var k := ClassCount(revenues, A, |revenues|);
    LeadingItems(revenues, |revenues|);
    hide Sum, ClassRevenue, ClassCount, ClassAt, Percent;
    if k > 0 {
      ClassOfPercent(revenues, k - 1);
    }
    if k < |revenues| {
      ClassOfPercent(revenues, k);
    }
  }

  // ---- nothing is lost ----

  lemma {:induction false} ClassesAddUp(revenues: seq<real>, n: nat)
    requires n <= |revenues|
    ensures ClassCount(revenues, A, n) + ClassCount(revenues, B, n) + ClassCount(revenues, C, n) == n
    ensures ClassRevenue(revenues, A, n) + ClassRevenue(revenues, B, n) + ClassRevenue(revenues, C, n) ==
            Sum(revenues[..n])
  {
    if n > 0 {
      ClassesAddUp(revenues, n - 1);
      SumNext(revenues, n - 1);
      hide ClassAt;
    }
  }

  lemma {:induction false} SummarySum(sales: seq<Sale>, ids: seq<Option<int>>)
    ensures Sum(Revenues(SummaryItems(sales, ids))) == TotalOver(sales, IdOf, ids, LineTotal)
  {
    if ids != [] {
      var n := |ids| - 1;
      SummarySum(sales, ids[..n]);
      assert Revenues(SummaryItems(sales, ids))[..n] == Revenues(SummaryItems(sales, ids[..n]));
    }
  }

  lemma {:induction false} SumPermuted(a: seq<real>, b: seq<real>)
    requires multiset(a) == multiset(b)
    ensures Sum(a) == Sum(b)
  {
    SameLength(a, b);
    if a != [] {
      var n := |a| - 1;
      var k := FindIn(a, b, n);
      RemoveSame(a, n, b, k);
      assert a[..n] + a[n + 1..] == a[..n];
      SumPermuted(a[..n], b[..k] + b[k + 1..]);
      SumWithoutOne(b, k);
    }
  }

  lemma {:induction false} SumWithoutOne(v: seq<real>, k: nat)
    requires k < |v|
    ensures Sum(v) == Sum(v[..k] + v[k + 1..]) + v[k]
  {
    var n := |v| - 1;
    if k < n {
      SumWithoutOne(v[..n], k);
      var rest := v[..k] + v[k + 1..];
      assert rest[..n - 1] == v[..n][..k] + v[..n][k + 1..] && rest[n - 1] == v[n];
    } else {
      assert v[..k] + v[k + 1..] == v[..n];
    }
  }

  /** The three classes of the summary hold every product once and all the revenue of the sales. */
  lemma SummaryIsComplete(sales: seq<Sale>, ids: seq<Option<int>>, summary: seq<Item>)
    requires Groups(sales, IdOf, ids) && Ranking(summary, SummaryItems(sales, ids))
    ensures var revenues, n := Revenues(summary), |summary|;
            n == |ids| &&
            ClassCount(revenues, A, n) + ClassCount(revenues, B, n) + ClassCount(revenues, C, n) == n &&
            ClassRevenue(revenues, A, n) + ClassRevenue(revenues, B, n) + ClassRevenue(revenues, C, n) ==
            Total(sales, LineTotal)
  {
    SameLength(summary, SummaryItems(sales, ids));
    ClassesAddUp(Revenues(summary), |summary|);
    assert Revenues(summary)[..|summary|] == Revenues(summary);
    RevenuesPermuted(summary, SummaryItems(sales, ids));
    SumPermuted(Revenues(summary), Revenues(SummaryItems(sales, ids)));
    SummarySum(sales, ids);
    SumOverGroups(sales, IdOf, ids, LineTotal);
  }
}
