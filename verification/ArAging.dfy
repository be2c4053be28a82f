/** The accounts receivable aging reports: customer detail, bucket summary and key figures over the same
    invoices. Amounts and dates may be NULL, and a comparison with NULL selects nothing. */
module ArAging {
  import opened Options
  import opened Grouping

  datatype Bucket = Current | Days1To30 | Days31To60 | Days61To90 | Over90

  /** What the detail groups by; GROUP BY puts NULLs together. */
  datatype Customer = Customer(id: Option<int>, name: Option<string>, email: Option<string>)

  datatype Invoice = Invoice(customer: Customer, due: Option<int>, balance: Option<real>, status: Option<string>)

  datatype Payment = Payment(customerId: Option<int>, date: Option<int>, amount: Option<real>)

  datatype DetailRow = DetailRow(customer: Customer, total: real, current: real, days1To30: real, days31To60: real,
                                 days61To90: real, over90: real)

  /** SUM is NULL over no rows. */
  datatype KeyFigures = KeyFigures(total: Option<real>, overdue: Option<real>)

  // ---- the queries ----

  /** WHERE invoice_balance > 0 AND invoice_status != 'paid' */
  predicate IsOpen(i: Invoice)
  {
    i.balance.Some? && i.balance.value > 0.0 && i.status.Some? && i.status.value != "paid"
  }

  function OpenInvoices(invoices: seq<Invoice>): (open: seq<Invoice>)
    ensures forall k :: 0 <= k < |open| ==> IsOpen(open[k])
  {
    if invoices == [] then [] else
    var last := invoices[|invoices| - 1];
    OpenInvoices(invoices[..|invoices| - 1]) + (if IsOpen(last) then [last] else [])
  }

  function BucketAt(asAt: int): Invoice -> Bucket
  {
    (i: Invoice) =>
      if i.due.Some? && i.due.value >= asAt then Current
      else if i.due.Some? && 1 <= asAt - i.due.value <= 30 then Days1To30
      else if i.due.Some? && 31 <= asAt - i.due.value <= 60 then Days31To60
      else if i.due.Some? && 61 <= asAt - i.due.value <= 90 then Days61To90
      else Over90
  }

  function CustomerOf(i: Invoice): Customer
  {
    i.customer
  }

  function Balance(i: Invoice): real
  {
    if i.balance.Some? then i.balance.value else 0.0
  }

  /** CASE WHEN aging_bucket = bucket THEN invoice_balance ELSE 0 END */
  function InBucket(asAt: int, bucket: Bucket): Invoice -> real
  {
    (i: Invoice) => if BucketAt(asAt)(i) == bucket then Balance(i) else 0.0
  }

  /** CASE WHEN due_date < as_at_date THEN invoice_balance ELSE 0 END */
  function WhenOverdue(asAt: int): Invoice -> real
  {
    (i: Invoice) => if i.due.Some? && i.due.value < asAt then Balance(i) else 0.0
  }

  function WhenUndated(i: Invoice): real
  {
    if i.due.None? then Balance(i) else 0.0
  }

  function Detail(open: seq<Invoice>, asAt: int, c: Customer): DetailRow
  {
    DetailRow(c, TotalAt(open, CustomerOf, c, Balance),
              TotalAt(open, CustomerOf, c, InBucket(asAt, Current)),
              TotalAt(open, CustomerOf, c, InBucket(asAt, Days1To30)),
              TotalAt(open, CustomerOf, c, InBucket(asAt, Days31To60)),
              TotalAt(open, CustomerOf, c, InBucket(asAt, Days61To90)),
              TotalAt(open, CustomerOf, c, InBucket(asAt, Over90)))
  }

  function Details(open: seq<Invoice>, asAt: int, customers: seq<Customer>): (rows: seq<DetailRow>)
    ensures |rows| == |customers|
  {
    if customers == [] then [] else
    Details(open, asAt, customers[..|customers| - 1]) + [Detail(open, asAt, customers[|customers| - 1])]
  }

  function Column(row: DetailRow, bucket: Bucket): real
  {
    match bucket
    case Current => row.current
    case Days1To30 => row.days1To30
    case Days31To60 => row.days31To60
    case Days61To90 => row.days61To90
    case Over90 => row.over90
  }

  function ColumnTotal(rows: seq<DetailRow>, bucket: Bucket): real
  {
    if rows == [] then 0.0 else ColumnTotal(rows[..|rows| - 1], bucket) + Column(rows[|rows| - 1], bucket)
  }

  /** bucket_total of the summary; 0 when the summary has no row for the bucket. */
  function BucketTotal(open: seq<Invoice>, asAt: int, bucket: Bucket): real
  {
    TotalAt(open, BucketAt(asAt), bucket, Balance)
  }

  function Kpis(open: seq<Invoice>, asAt: int): KeyFigures
  {
    if open == [] then KeyFigures(None, None)
    else KeyFigures(Some(Total(open, Balance)), Some(Total(open, WhenOverdue(asAt))))
  }

  // ---- what one invoice adds ----

  /** An invoice that is not open adds nothing. */
  lemma OpenNext(invoices: seq<Invoice>, i: Invoice)
    ensures OpenInvoices(invoices + [i]) ==
            OpenInvoices(invoices) +
            (if i.balance.Some? && i.balance.value > 0.0 && i.status.Some? && i.status.value != "paid" then [i] else [])
  {
    assert (invoices + [i])[..|invoices|] == invoices;
  }

  /** An open invoice adds its balance to its customer's total, and to the one bucket for the days it is overdue: none,
      1 to 30, 31 to 60, 61 to 90, and more, where one without a due date belongs too. */
  lemma InvoiceAdds(open: seq<Invoice>, i: Invoice, asAt: int, c: Customer)
    requires i.balance.Some?
    ensures Detail([], asAt, c) == DetailRow(c, 0.0, 0.0, 0.0, 0.0, 0.0, 0.0)
    ensures var before, after := Detail(open, asAt, c), Detail(open + [i], asAt, c);
            var x := if i.customer == c then i.balance.value else 0.0;
            var days := if i.due.Some? then asAt - i.due.value else 91;
            after.customer == c && after.total == before.total + x &&
            after.current == before.current + (if days <= 0 then x else 0.0) &&
            after.days1To30 == before.days1To30 + (if 1 <= days <= 30 then x else 0.0) &&
            after.days31To60 == before.days31To60 + (if 31 <= days <= 60 then x else 0.0) &&
            after.days61To90 == before.days61To90 + (if 61 <= days <= 90 then x else 0.0) &&
            after.over90 == before.over90 + (if days > 90 then x else 0.0)
  {
    TotalNext(open, i, CustomerOf, c, Balance);
    TotalNext(open, i, CustomerOf, c, InBucket(asAt, Current));
    TotalNext(open, i, CustomerOf, c, InBucket(asAt, Days1To30));
    TotalNext(open, i, CustomerOf, c, InBucket(asAt, Days31To60));
    TotalNext(open, i, CustomerOf, c, InBucket(asAt, Days61To90));
    TotalNext(open, i, CustomerOf, c, InBucket(asAt, Over90));
    assert forall f: Invoice -> real :: TotalAt([], CustomerOf, c, f) == 0.0;
    hide TotalAt;
    InBucketIs(i, asAt);
    assert CustomerOf(i) == i.customer && Balance(i) == i.balance.value;
    var key, f := CustomerOf, Balance;
    assert key(i) == i.customer && f(i) == i.balance.value;
  }

  lemma InBucketIs(i: Invoice, asAt: int)
    requires i.balance.Some?
    ensures var x := i.balance.value;
            var days := if i.due.Some? then asAt - i.due.value else 91;
            InBucket(asAt, Current)(i) == (if days <= 0 then x else 0.0) &&
            InBucket(asAt, Days1To30)(i) == (if 1 <= days <= 30 then x else 0.0) &&
            InBucket(asAt, Days31To60)(i) == (if 31 <= days <= 60 then x else 0.0) &&
            InBucket(asAt, Days61To90)(i) == (if 61 <= days <= 90 then x else 0.0) &&
            InBucket(asAt, Over90)(i) == (if days > 90 then x else 0.0)
  {
    var days := if i.due.Some? then asAt - i.due.value else 91;
    var bucket := BucketAt(asAt);
    assert bucket(i) == if days <= 0 then Current else if days <= 30 then Days1To30
                        else if days <= 60 then Days31To60 else if days <= 90 then Days61To90 else Over90;
  }

  /** It adds its balance to the total of the key figures, and to the overdue amount if its due date is before the
      date. */
  lemma InvoiceAddsToKpis(open: seq<Invoice>, i: Invoice, asAt: int)
    requires i.balance.Some?
    ensures var before, after := Kpis(open, asAt), Kpis(open + [i], asAt);
            var overdue := if i.due.Some? && i.due.value < asAt then i.balance.value else 0.0;
            if open == [] then after == KeyFigures(Some(i.balance.value), Some(overdue))
            else before.total.Some? && before.overdue.Some? &&
                 after == KeyFigures(Some(before.total.value + i.balance.value), Some(before.overdue.value + overdue))
  {
    TotalNext(open, i, CustomerOf, i.customer, Balance);
    TotalNext(open, i, CustomerOf, i.customer, WhenOverdue(asAt));
    var f := Balance;
    assert f(i) == i.balance.value;
    assert Total([], f) == 0.0 && Total([], WhenOverdue(asAt)) == 0.0;
    assert open == [] ==> open + [i] == [i];
    hide Total, TotalAt;
  }

  // ---- the reports agree ----

  /** Every open invoice is in one bucket. */
  lemma InOneBucket(i: Invoice, asAt: int)
    ensures InBucket(asAt, Current)(i) + InBucket(asAt, Days1To30)(i) + InBucket(asAt, Days31To60)(i) +
            InBucket(asAt, Days61To90)(i) + InBucket(asAt, Over90)(i) == Balance(i)
  {
    var b := BucketAt(asAt);
    assert b(i) == Current || b(i) == Days1To30 || b(i) == Days31To60 || b(i) == Days61To90 || b(i) == Over90;
  }

  /** The five buckets of a customer row add up to its total. */
  lemma {:induction false} BucketsAddUp(open: seq<Invoice>, asAt: int, c: Customer)
    ensures var row := Detail(open, asAt, c);
            row.current + row.days1To30 + row.days31To60 + row.days61To90 + row.over90 == row.total
  {
    if open != [] {
      BucketsAddUp(open[..|open| - 1], asAt, c);
      InOneBucket(open[|open| - 1], asAt);
    }
  }

  lemma {:induction false} ColumnIsTotal(open: seq<Invoice>, asAt: int, customers: seq<Customer>, bucket: Bucket)
    ensures ColumnTotal(Details(open, asAt, customers), bucket) ==
            TotalOver(open, CustomerOf, customers, InBucket(asAt, bucket))
  {
    if customers != [] {
      var n := |customers| - 1;
      ColumnIsTotal(open, asAt, customers[..n], bucket);
      assert Details(open, asAt, customers)[..n] == Details(open, asAt, customers[..n]);
    }
  }

  /** Each bucket summed over the customer rows is the bucket total of the summary. */
  lemma DetailMatchesSummary(invoices: seq<Invoice>, asAt: int, customers: seq<Customer>, bucket: Bucket)
    requires Groups(OpenInvoices(invoices), CustomerOf, customers)
    ensures var open := OpenInvoices(invoices);
            ColumnTotal(Details(open, asAt, customers), bucket) == BucketTotal(open, asAt, bucket)
  {
    var open := OpenInvoices(invoices);
    ColumnIsTotal(open, asAt, customers, bucket);
    SumOverGroups(open, CustomerOf, customers, InBucket(asAt, bucket));
    TotalOfCase(open, BucketAt(asAt), bucket, Balance, InBucket(asAt, bucket));
  }

  lemma {:induction false} SplitByDue(open: seq<Invoice>, asAt: int)
    requires forall k :: 0 <= k < |open| ==> IsOpen(open[k])
    ensures Total(open, Balance) ==
            BucketTotal(open, asAt, Current) + Total(open, WhenOverdue(asAt)) + Total(open, WhenUndated)
    ensures Total(open, WhenUndated) >= 0.0
    ensures Total(open, WhenUndated) == 0.0 <==> forall k :: 0 <= k < |open| ==> open[k].due.Some?
  {
    if open != [] {
      var n := |open| - 1;
      SplitByDue(open[..n], asAt);
      assert open == open[..n] + [open[n]];
    }
  }

  /** The overdue amount is the total without the current bucket exactly when every open invoice has a due date. */
  lemma OverdueIsNotCurrent(invoices: seq<Invoice>, asAt: int)
    requires OpenInvoices(invoices) != []
    ensures var open := OpenInvoices(invoices);
            var k := Kpis(open, asAt);
            k.total.Some? && k.overdue.Some? &&
            (k.overdue.value == k.total.value - BucketTotal(open, asAt, Current) <==>
             forall i :: 0 <= i < |open| ==> open[i].due.Some?)
  {
    SplitByDue(OpenInvoices(invoices), asAt);
  }

  function TotalColumn(rows: seq<DetailRow>): real
  {
    if rows == [] then 0.0 else TotalColumn(rows[..|rows| - 1]) + rows[|rows| - 1].total
  }

  lemma {:induction false} TotalColumnIsTotal(open: seq<Invoice>, asAt: int, customers: seq<Customer>)
    ensures TotalColumn(Details(open, asAt, customers)) == TotalOver(open, CustomerOf, customers, Balance)
  {
    if customers != [] {
      var n := |customers| - 1;
      TotalColumnIsTotal(open, asAt, customers[..n]);
      assert Details(open, asAt, customers)[..n] == Details(open, asAt, customers[..n]);
    }
  }

  /** An open invoice without a due date: nothing is current and nothing is overdue. */
  lemma UndatedIsNeither(customer: Customer, amount: real, asAt: int)
    requires amount > 0.0
    ensures var open := OpenInvoices([Invoice(customer, None, Some(amount), Some("sent"))]);
            Kpis(open, asAt) == KeyFigures(Some(amount), Some(0.0)) && BucketTotal(open, asAt, Current) == 0.0 &&
            BucketTotal(open, asAt, Over90) == amount
  {
    var i := Invoice(customer, None, Some(amount), Some("sent"));
    assert "sent"[0] != "paid"[0];
    assert IsOpen(i);
    assert OpenInvoices([i]) == [i] by {
      assert OpenInvoices([]) == [];
    }
    hide OpenInvoices;
    var f, key := Balance, BucketAt(asAt);
    assert [i][..0] == [] && f(i) == amount && key(i) == Over90;
    assert Total([i], f) == f(i) && Total([i], WhenOverdue(asAt)) == 0.0;
    assert TotalAt([], key, Current, f) == 0.0 && TotalAt([], key, Over90, f) == 0.0;
  }

  /** The total of the key figures is the sum of the summary's buckets, and of the detail rows' total column. */
  lemma TotalsAgree(open: seq<Invoice>, asAt: int, customers: seq<Customer>)
    requires Groups(open, CustomerOf, customers)
    ensures BucketTotal(open, asAt, Current) + BucketTotal(open, asAt, Days1To30) +
            BucketTotal(open, asAt, Days31To60) + BucketTotal(open, asAt, Days61To90) +
            BucketTotal(open, asAt, Over90) == Total(open, Balance)
    ensures TotalColumn(Details(open, asAt, customers)) == Total(open, Balance)
    ensures open != [] ==> Kpis(open, asAt).total == Some(TotalColumn(Details(open, asAt, customers)))
  {
    SummaryAddsUp(open, asAt);
    TotalColumnIsTotal(open, asAt, customers);
    SumOverGroups(open, CustomerOf, customers, Balance);
  }

  lemma {:induction false} SummaryAddsUp(open: seq<Invoice>, asAt: int)
    ensures BucketTotal(open, asAt, Current) + BucketTotal(open, asAt, Days1To30) +
            BucketTotal(open, asAt, Days31To60) + BucketTotal(open, asAt, Days61To90) +
            BucketTotal(open, asAt, Over90) == Total(open, Balance)
  {
    if open != [] {
      SummaryAddsUp(open[..|open| - 1], asAt);
    }
  }

  // ---- the payment join ----

  /** WHERE last_payment_date IS NOT NULL AND last_payment_date <= as_at_date */
  predicate Counts(p: Payment, asAt: int)
  {
    p.date.Some? && p.date.value <= asAt
  }

  /** SELECT DISTINCT ON (customer_id) ... ORDER BY customer_id, last_payment_date DESC: for each customer id one of
      the latest of the payments that count. */
  ghost predicate LastPayments(payments: seq<Payment>, asAt: int, last: seq<Payment>)
  {
    OncePerCustomer(last) && (forall i :: 0 <= i < |last| ==> last[i] in payments && Counts(last[i], asAt)) &&
    forall p :: p in payments && Counts(p, asAt) ==> HasLaterOrSame(last, p)
  }

  ghost predicate OncePerCustomer(last: seq<Payment>)
  {
    forall i, j :: 0 <= i < j < |last| ==> last[i].customerId != last[j].customerId
  }

  ghost predicate HasLaterOrSame(last: seq<Payment>, p: Payment)
    requires p.date.Some?
  {
    exists q :: q in last && q.customerId == p.customerId && q.date.Some? && q.date.value >= p.date.value
  }

  /** ON lp.customer_id = ca.customer_id, where NULL equals nothing. */
  function Matching(last: seq<Payment>, id: Option<int>): seq<Payment>
  {
    if last == [] then [] else
    var p := last[|last| - 1];
    Matching(last[..|last| - 1], id) + (if id.Some? && p.customerId == id then [p] else [])
  }

  function Joined(row: DetailRow, matches: seq<Payment>): (rows: seq<(DetailRow, Option<Payment>)>)
    ensures |rows| == if matches == [] then 1 else |matches|
    ensures forall i :: 0 <= i < |rows| ==> rows[i].0 == row
  {
    if matches == [] then [(row, None)] else seq(|matches|, i requires 0 <= i < |matches| => (row, Some(matches[i])))
  }

  function LeftJoin(rows: seq<DetailRow>, last: seq<Payment>): seq<(DetailRow, Option<Payment>)>
  {
    if rows == [] then [] else
    var row := rows[|rows| - 1];
    LeftJoin(rows[..|rows| - 1], last) + Joined(row, Matching(last, row.customer.id))
  }

  lemma {:induction false} MatchingHas(last: seq<Payment>, id: Option<int>)
    ensures forall p :: p in Matching(last, id) <==> p in last && id.Some? && p.customerId == id
  {
    if last != [] {
      MatchingHas(last[..|last| - 1], id);
      assert last == last[..|last| - 1] + [last[|last| - 1]];
    }
  }

  lemma {:induction false} AtMostOneMatch(last: seq<Payment>, id: Option<int>)
    requires OncePerCustomer(last)
    ensures |Matching(last, id)| <= 1
  {
    if last != [] {
      var n := |last| - 1;
      AtMostOneMatch(last[..n], id);
      MatchingHas(last[..n], id);
      if Matching(last[..n], id) != [] {
        assert Matching(last[..n], id)[0] in last[..n];
      }
    }
  }

  /** The payment that a customer row shows. */
  function Shown(last: seq<Payment>, id: Option<int>): Option<Payment>
  {
    var matches := Matching(last, id);
    if matches == [] then None else Some(matches[0])
  }

  lemma JoinedOnce(row: DetailRow, last: seq<Payment>)
    requires OncePerCustomer(last)
    ensures Joined(row, Matching(last, row.customer.id)) == [(row, Shown(last, row.customer.id))]
  {
    AtMostOneMatch(last, row.customer.id);
    hide Matching;
  }

  /** The join keeps every customer row once and in its place. */
  lemma {:induction false} JoinKeepsRows(rows: seq<DetailRow>, last: seq<Payment>)
    requires OncePerCustomer(last)
    ensures |LeftJoin(rows, last)| == |rows|
    ensures forall i :: 0 <= i < |rows| ==> LeftJoin(rows, last)[i] == (rows[i], Shown(last, rows[i].customer.id))
  {
    hide OncePerCustomer, Joined, Shown, Matching;
    if rows != [] {
      JoinKeepsRows(rows[..|rows| - 1], last);
      JoinedOnce(rows[|rows| - 1], last);
    }
  }

  ghost predicate PaidBy(payments: seq<Payment>, asAt: int, id: Option<int>, p: Payment)
  {
    p in payments && p.date.Some? && p.date.value <= asAt && id.Some? && p.customerId == id
  }

  /** A shown payment is a latest one of the customer. */
  lemma ShownIsLatest(payments: seq<Payment>, asAt: int, last: seq<Payment>, id: Option<int>)
    requires LastPayments(payments, asAt, last) && Shown(last, id).Some?
    ensures var shown := Shown(last, id).value;
            PaidBy(payments, asAt, id, shown) &&
            forall p :: PaidBy(payments, asAt, id, p) ==> p.date.value <= shown.date.value
  {
    var shown := Shown(last, id).value;
    MatchingHas(last, id);
    AtMostOneMatch(last, id);
    assert shown in last;
    hide OncePerCustomer;
    forall p | PaidBy(payments, asAt, id, p)
      ensures p.date.value <= shown.date.value
    {
      assert HasLaterOrSame(last, p);
      var q :| q in last && q.customerId == p.customerId && q.date.Some? && q.date.value >= p.date.value;
      assert q in Matching(last, id);
    }
  }

  /** A customer with a payment up to the date shows one. */
  lemma SomethingShown(payments: seq<Payment>, asAt: int, last: seq<Payment>, id: Option<int>, p: Payment)
    requires LastPayments(payments, asAt, last) && PaidBy(payments, asAt, id, p)
    ensures Shown(last, id).Some?
  {
    MatchingHas(last, id);
    hide OncePerCustomer;
    assert HasLaterOrSame(last, p);
    var q :| q in last && q.customerId == p.customerId && q.date.Some? && q.date.value >= p.date.value;
    assert q in Matching(last, id);
  }

  /** Every customer row comes once and in its place, with the latest payment of its customer up to the date if
      there is one. */
  lemma JoinShowsLastPayment(rows: seq<DetailRow>, payments: seq<Payment>, asAt: int, last: seq<Payment>, i: nat)
    requires LastPayments(payments, asAt, last) && i < |rows|
    ensures |LeftJoin(rows, last)| == |rows| && LeftJoin(rows, last)[i].0 == rows[i]
    ensures var id, shown := rows[i].customer.id, LeftJoin(rows, last)[i].1;
            (shown.None? ==> forall p :: !PaidBy(payments, asAt, id, p)) &&
            (shown.Some? ==> PaidBy(payments, asAt, id, shown.value) &&
                             forall p :: PaidBy(payments, asAt, id, p) ==> p.date.value <= shown.value.date.value)
  {
    var id := rows[i].customer.id;
    JoinKeepsRows(rows, last);
    if Shown(last, id).Some? {
      ShownIsLatest(payments, asAt, last, id);
    }
    forall p | PaidBy(payments, asAt, id, p)
      ensures Shown(last, id).Some?
    {
      SomethingShown(payments, asAt, last, id, p);
    }
    hide Shown, LeftJoin, LastPayments;
  }
}
