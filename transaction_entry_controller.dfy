/** TransactionEntryController.getAllTransactions: the legacy stock-in
    records together with one legacy-shaped row per line of every customer
    sale, newest first; and the `exists` endpoint. */
module TransactionEntryController {
  import opened Common
  import opened Calendar
  import opened Entities

  /** The row getAllTransactions builds for one sale line. Every field is
      set: a null source field falls back to "N/A", 0, 0.0 or the clock,
      the expiry date is always today and addedBy is always null. */
  function MapSold(ct: CustomerTransaction, item: Sold, today: Date, now: DateTime): TransactionEntry {
    TransactionEntry(
      drSiReferenceNum := Some(ct.invoiceReference.GetOr("N/A")),
      transactionDate := Some(if ct.transactionDate.Some? then ct.transactionDate.value.date else today),
      itemCode := Some(item.itemId.GetOr("N/A")),
      brand := Some(item.brandName.GetOr("N/A")),
      productDescription := Some(item.itemDescription.GetOr("N/A")),
      lotSerialNumber := Some(item.lotNumber.GetOr("N/A")),
      expiryDate := Some(today),
      cost := Some(item.unitRetailPrice.GetOr(ZeroDouble)),
      quantity := Some(item.quantity.GetOr(0)),
      stockLocation := Some(item.location.GetOr("N/A")),
      addedBy := None,
      dateTimeAdded := Some(ct.transactionDate.GetOr(now)))
  }

  /** A mapped row carries each non-null source field and the default in
      place of each null one; it always has a date. */
  lemma MappedRowDefaults(ct: CustomerTransaction, item: Sold, today: Date, now: DateTime)
    ensures var e := MapSold(ct, item, today, now);
            && e.transactionDate.Some? && e.expiryDate == Some(today) && e.addedBy.None?
            && (ct.invoiceReference.Some? ==> e.drSiReferenceNum == ct.invoiceReference)
            && (ct.invoiceReference.None? ==> e.drSiReferenceNum == Some("N/A"))
            && (ct.transactionDate.Some? ==> e.transactionDate == Some(ct.transactionDate.value.date)
                                             && e.dateTimeAdded == ct.transactionDate)
            && (ct.transactionDate.None? ==> e.transactionDate == Some(today) && e.dateTimeAdded == Some(now))
            && (item.itemId.Some? ==> e.itemCode == item.itemId)
            && (item.itemId.None? ==> e.itemCode == Some("N/A"))
            && (item.brandName.Some? ==> e.brand == item.brandName)
            && (item.brandName.None? ==> e.brand == Some("N/A"))
            && (item.itemDescription.Some? ==> e.productDescription == item.itemDescription)
            && (item.itemDescription.None? ==> e.productDescription == Some("N/A"))
            && (item.lotNumber.Some? ==> e.lotSerialNumber == item.lotNumber)
            && (item.lotNumber.None? ==> e.lotSerialNumber == Some("N/A"))
            && (item.unitRetailPrice.Some? ==> e.cost == item.unitRetailPrice)
            && (item.unitRetailPrice.None? ==> e.cost == Some(ZeroDouble))
            && (item.quantity.Some? ==> e.quantity == item.quantity)
            && (item.quantity.None? ==> e.quantity == Some(0))
            && (item.location.Some? ==> e.stockLocation == item.location)
            && (item.location.None? ==> e.stockLocation == Some("N/A"))
  {
  }

  /** The rows of one sale, in line order; none for a null list of lines. */
  function Lines(ct: CustomerTransaction, today: Date, now: DateTime): (r: seq<TransactionEntry>)
    ensures ct.items.None? ==> r == []
    ensures ct.items.Some? ==> |r| == |ct.items.value|
                               && forall j :: 0 <= j < |r| ==> r[j] == MapSold(ct, ct.items.value[j], today, now)
  {
    if ct.items.None? then []
    else seq(|ct.items.value|, j requires 0 <= j < |ct.items.value| => MapSold(ct, ct.items.value[j], today, now))
  }

  /** The rows of every sale, sale after sale. */
  function FlatLines(cts: seq<CustomerTransaction>, today: Date, now: DateTime): seq<TransactionEntry> {
    if cts == [] then []
    else FlatLines(cts[..|cts| - 1], today, now) + Lines(cts[|cts| - 1], today, now)
  }

  /** The number of sale lines, a null list counting none. */
  function LineCount(cts: seq<CustomerTransaction>): nat {
    if cts == [] then 0
    else LineCount(cts[..|cts| - 1]) + (if cts[|cts| - 1].items.Some? then |cts[|cts| - 1].items.value| else 0)
  }

  /** Exactly one row per sale line. */
  lemma {:induction false} FlatLinesCount(cts: seq<CustomerTransaction>, today: Date, now: DateTime)
    ensures |FlatLines(cts, today, now)| == LineCount(cts)
  {
    if cts != [] {
      FlatLinesCount(cts[..|cts| - 1], today, now);
    }
  }

  /** Every line of every sale with a non-null list appears as a row. */
  lemma {:induction false} EveryLineListed(cts: seq<CustomerTransaction>, i: int, j: int, today: Date, now: DateTime)
    requires 0 <= i < |cts| && cts[i].items.Some? && 0 <= j < |cts[i].items.value|
    ensures MapSold(cts[i], cts[i].items.value[j], today, now) in FlatLines(cts, today, now)
  {
    var last := |cts| - 1;
    if i == last {
      assert Lines(cts[i], today, now)[j] == MapSold(cts[i], cts[i].items.value[j], today, now);
    } else {
      assert cts[..last][i] == cts[i];
      EveryLineListed(cts[..last], i, j, today, now);
    }
  }

  /** Every row built from sales has a date, so the null-dated rows are
      legacy ones. */
  lemma {:induction false} FlatLinesDated(cts: seq<CustomerTransaction>, today: Date, now: DateTime)
    ensures forall e :: e in FlatLines(cts, today, now) ==> e.transactionDate.Some?
  {
    if cts != [] {
      FlatLinesDated(cts[..|cts| - 1], today, now);
    }
  }

  /** The list before sorting: the legacy records, then the sale rows. */
  function Collected(legacy: seq<TransactionEntry>, cts: seq<CustomerTransaction>, today: Date, now: DateTime): seq<TransactionEntry> {
    legacy + FlatLines(cts, today, now)
  }

  /** The sort's comparator as written: a null first date sorts after, a
      null second date sorts before, otherwise the later date first. The
      sign is what matters. */
  function Compare(t1: TransactionEntry, t2: TransactionEntry): int {
    if t1.transactionDate.None? then 1
    else if t2.transactionDate.None? then -1
    else if t2.transactionDate.value == t1.transactionDate.value then 0
    else if DateLe(t2.transactionDate.value, t1.transactionDate.value) then -1
    else 1
  }

  /** x may stand before y: y has no date, or both have dates and x's is
      not earlier. */
  predicate InOrder(x: TransactionEntry, y: TransactionEntry) {
    y.transactionDate.None? || (x.transactionDate.Some? && DateLe(y.transactionDate.value, x.transactionDate.value))
  }

  /** Where at most one of the two dates is null, the comparator lets x
      stand before y exactly when `InOrder` does. For two null dates it
      answers 1 both ways, which breaks Comparator's contract; `InOrder`
      lets them stand in either order. */
  lemma CompareAgrees(x: TransactionEntry, y: TransactionEntry)
    ensures x.transactionDate.Some? || y.transactionDate.Some? ==> (Compare(x, y) <= 0 <==> InOrder(x, y))
    ensures x.transactionDate.None? && y.transactionDate.None? ==> Compare(x, y) == 1 && Compare(y, x) == 1
  {
    if x.transactionDate.Some? && y.transactionDate.Some? {
      var a, b := x.transactionDate.value, y.transactionDate.value;
      if !DateLe(b, a) {
        assert b != a;
      }
    }
  }

  /** Newest first, null dates last. */
  predicate SortedByDate(s: seq<TransactionEntry>) {
    forall p, q :: 0 <= p < q < |s| ==> InOrder(s[p], s[q])
  }

  lemma InOrderTransitive(x: TransactionEntry, y: TransactionEntry, z: TransactionEntry)
    requires InOrder(x, y) && InOrder(y, z)
    ensures InOrder(x, z)
  {
    if z.transactionDate.Some? {
      DateLeTransitive(z.transactionDate.value, y.transactionDate.value, x.transactionDate.value);
    }
  }

  lemma InOrderTotal(x: TransactionEntry, y: TransactionEntry)
    ensures InOrder(x, y) || InOrder(y, x)
  {
    if x.transactionDate.Some? && y.transactionDate.Some? {
      DateLeTotal(x.transactionDate.value, y.transactionDate.value);
    }
  }

  /** In a sorted list the dated rows come first, in non-increasing date
      order, and every null-dated row comes after all of them. */
  lemma SortedMeaning(s: seq<TransactionEntry>, p: int, q: int)
    requires SortedByDate(s) && 0 <= p < q < |s|
    ensures s[q].transactionDate.Some? ==> s[p].transactionDate.Some?
    ensures s[p].transactionDate.Some? && s[q].transactionDate.Some?
            ==> DateLe(s[q].transactionDate.value, s[p].transactionDate.value)
  {
  }

  /** allEntries.sort(...): insertion by adjacent swaps, which only moves a
      row past one that must come after it. */
  method SortByDate(a: array<TransactionEntry>)
    modifies a
    ensures SortedByDate(a[..])
    ensures multiset(a[..]) == multiset(old(a[..]))
  {
    var i := 0;
    while i < a.Length
      invariant 0 <= i <= a.Length
      invariant SortedByDate(a[..i])
      invariant multiset(a[..]) == multiset(old(a[..]))
    {
      InsertAt(a, i);
      i := i + 1;
    }
  }

  /** What holds while a[j] is moved left inside a[..i + 1]: the rows other
      than a[j] are in order, and a[j] may stand before every row after it. */
  predicate Inserting(s: seq<TransactionEntry>, i: int, j: int) {
    && 0 <= j <= i < |s|
    && (forall p, q :: 0 <= p < q <= i && p != j && q != j ==> InOrder(s[p], s[q]))
    && (forall q :: j < q <= i ==> InOrder(s[j], s[q]))
  }

  /** s with the rows at j - 1 and j exchanged. */
  function SwapBack(s: seq<TransactionEntry>, j: int): (r: seq<TransactionEntry>)
    requires 0 < j < |s|
    ensures |r| == |s| && multiset(r) == multiset(s)
  {
    s[j - 1 := s[j]][j := s[j - 1]]
  }

  lemma InsertingStart(s: seq<TransactionEntry>, i: int)
    requires 0 <= i < |s| && SortedByDate(s[..i])
    ensures Inserting(s, i, i)
  {
    forall p, q | 0 <= p < q < i
      ensures InOrder(s[p], s[q])
    {
      assert s[..i][p] == s[p] && s[..i][q] == s[q];
    }
  }

  /** One swap keeps `Inserting`, one place further left. */
  lemma InsertingStep(s: seq<TransactionEntry>, i: int, j: int)
    requires Inserting(s, i, j) && 0 < j && !InOrder(s[j - 1], s[j])
    ensures Inserting(SwapBack(s, j), i, j - 1)
  {
    InOrderTotal(s[j - 1], s[j]);
    var t := SwapBack(s, j);
    forall q | j - 1 < q <= i
      ensures InOrder(t[j - 1], t[q])
    {
      if q > j {
        assert t[q] == s[q];
      }
    }
  }

  lemma InsertingDone(s: seq<TransactionEntry>, i: int, j: int)
    requires Inserting(s, i, j) && (j == 0 || InOrder(s[j - 1], s[j]))
    ensures SortedByDate(s[..i + 1])
  {
    forall p, q | 0 <= p < q <= i
      ensures InOrder(s[p], s[q])
    {
      if q == j && p < j - 1 {
        InOrderTransitive(s[p], s[j - 1], s[j]);
      }
    }
  }

  /** Moves a[i] left until the prefix a[..i + 1] is sorted. */
  method InsertAt(a: array<TransactionEntry>, i: int)
    requires 0 <= i < a.Length && SortedByDate(a[..i])
    modifies a
    ensures SortedByDate(a[..i + 1])
    ensures multiset(a[..]) == multiset(old(a[..]))
  {
    InsertingStart(a[..], i);
    var j := i;
    while j > 0 && !InOrder(a[j - 1], a[j])
      invariant Inserting(a[..], i, j)
      invariant multiset(a[..]) == multiset(old(a[..]))
    {
      ghost var s := a[..];
      a[j - 1], a[j] := a[j], a[j - 1];
      assert a[..] == SwapBack(s, j);
      InsertingStep(s, i, j);
      j := j - 1;
    }
    InsertingDone(a[..], i, j);
  }

  /** The inner loop: one row appended per line of the sale. */
  method AppendLines(all: seq<TransactionEntry>, ct: CustomerTransaction, today: Date, now: DateTime)
    returns (r: seq<TransactionEntry>)
    ensures r == all + Lines(ct, today, now)
  {
    r := all;
    if ct.items.Some? {
      var items := ct.items.value;
      var j := 0;
      while j < |items|
        invariant 0 <= j <= |items|
        invariant r == all + Lines(ct, today, now)[..j]
      {
        assert Lines(ct, today, now)[..j + 1] == Lines(ct, today, now)[..j] + [MapSold(ct, items[j], today, now)];
        r := r + [MapSold(ct, items[j], today, now)];
        j := j + 1;
      }
      assert Lines(ct, today, now)[..j] == Lines(ct, today, now);
    }
  }

  /** The legacy records, then the rows of each sale in turn. */
  method CollectRows(legacy: seq<TransactionEntry>, transactions: seq<CustomerTransaction>, today: Date, now: DateTime)
    returns (all: seq<TransactionEntry>)
    ensures all == Collected(legacy, transactions, today, now)
  {
    all := legacy;
    var i := 0;
    while i < |transactions|
      invariant 0 <= i <= |transactions|
      invariant all == legacy + FlatLines(transactions[..i], today, now)
    {
      assert transactions[..i + 1][..i] == transactions[..i];
      all := AppendLines(all, transactions[i], today, now);
      i := i + 1;
    }
    assert transactions[..i] == transactions;
  }

  /** getAllTransactions. `legacy` and `transactions` are the two findAll
      results in the order the database returns them; `today` and `now` are
      the clock. The result is a permutation of the collected rows, sorted
      newest first with null dates last. */
  method GetAllTransactions(legacy: seq<TransactionEntry>, transactions: seq<CustomerTransaction>, today: Date, now: DateTime)
    returns (r: seq<TransactionEntry>)
    ensures multiset(r) == multiset(Collected(legacy, transactions, today, now))
    ensures SortedByDate(r)
  {
    var all := CollectRows(legacy, transactions, today, now);
    var a := new TransactionEntry[|all|](k requires 0 <= k < |all| => all[k]);
    assert a[..] == all;
    SortByDate(a);
    r := a[..];
  }

  /** transactionExists: ids of the two record kinds cannot be matched, so
      the endpoint answers false for every id. */
  function TransactionExists(id: string): (r: bool)
    ensures !r
  {
    false
  }
}
