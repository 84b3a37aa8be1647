/** CustomerTransactionService: recording a customer sale. Every sale line
    with a location deducts its quantity from the item's row at that
    location and from the item's inventory total; the whole call is one
    database transaction, so a failing line undoes the earlier lines and the
    sale is not recorded. */
module CustomerTransactionService {
  import opened Common
  import opened Int32
  import opened Audit
  import opened Entities
  import opened Repositories

  /** The two tables a sale deducts from: item-at-location rows, in row order,
      and the inventory totals by item code. */
  datatype Stock = Stock(itemLocs: seq<ItemLoc>, totals: map<string, Option<int>>)

  /** Lines with a null or empty location are skipped. */
  predicate Deducts(line: Sold) {
    line.location.Some? && line.location.value != ""
  }

  /** `.filter(il -> il.getLocationId().equals(locationId)).findFirst()` over
      the positions findByItemCode returned, in their order. */
  function FirstAtLocation(rows: seq<ItemLoc>, positions: seq<nat>, locationId: int): (r: Option<nat>)
    requires forall j :: 0 <= j < |positions| ==> positions[j] < |rows|
    ensures r.Some? ==> r.value in positions && rows[r.value].locationId == locationId
    ensures r.None? ==> forall j :: 0 <= j < |positions| ==> rows[positions[j]].locationId != locationId
  {
    if positions == [] then None
    else if rows[positions[0]].locationId == locationId then Some(positions[0])
    else FirstAtLocation(rows, positions[1..], locationId)
  }

  /** The row of `code` at `locationId` that the deduction updates: the first
      such row in table order. */
  function TargetRow(rows: seq<ItemLoc>, code: Option<string>, locationId: int): (r: Option<nat>)
    ensures r.Some? ==> r.value < |rows| && rows[r.value].itemCode == code && rows[r.value].locationId == locationId
    ensures r.None? <==> forall i :: 0 <= i < |rows| ==> !(rows[i].itemCode == code && rows[i].locationId == locationId)
  {
    NoPositionMeansNoRow(rows, code, locationId);
    FirstAtLocation(rows, ItemLocPositions(rows, code), locationId)
  }

  lemma NoPositionMeansNoRow(rows: seq<ItemLoc>, code: Option<string>, locationId: int)
    ensures FirstAtLocation(rows, ItemLocPositions(rows, code), locationId).None?
            ==> forall i :: 0 <= i < |rows| && rows[i].itemCode == code ==> rows[i].locationId != locationId
  {
    var positions := ItemLocPositions(rows, code);
    if FirstAtLocation(rows, positions, locationId).None? {
      forall i | 0 <= i < |rows| && rows[i].itemCode == code ensures rows[i].locationId != locationId {
        var j :| 0 <= j < |positions| && positions[j] == i;
      }
    }
  }

  /** The inventory total a missing quantity counts as. */
  function TotalOf(totals: map<string, Option<int>>, code: string): int {
    if code in totals then totals[code].GetOr(0) else 0
  }

  /** deductStock on the tables' contents. */
  function DeductLine(locations: map<int, Location>, s: Stock, line: Sold): Result<Stock> {
    match FindByLocationName(locations, line.location)
    case Err(e) => Err(e)
    case Ok(None) => Err(IllegalArgument("Location not found: " + Show(line.location)))
    case Ok(Some(lk)) =>
      match TargetRow(s.itemLocs, line.itemId, locations[lk].locationId)
      case None => Err(IllegalArgument("Item " + Show(line.itemId) + " not found at location " + Show(line.location)))
      case Some(i) =>
        var have := s.itemLocs[i].quantity;
        if have.None? || line.quantity.None? then Err(NullPointer)
        else if have.value < line.quantity.value then
          Err(IllegalArgument("Insufficient stock for item " + Show(line.itemDescription) + " at " + Show(line.location)))
        else
          var itemLocs := s.itemLocs[i := s.itemLocs[i].(quantity := Some(Wrap32(have.value - line.quantity.value)))];
          if line.itemId.None? then Err(IllegalArgument("The given id must not be null"))
          else if line.itemId.value !in s.totals then Err(IllegalArgument("Inventory item not found: " + line.itemId.value))
          else
            var code := line.itemId.value;
            Ok(Stock(itemLocs, s.totals[code := Some(Wrap32(TotalOf(s.totals, code) - line.quantity.value))]))
  }

  /** The loop of createTransaction: the deducting lines in order, stopping
      at the first failure. */
  function DeductAll(locations: map<int, Location>, s: Stock, lines: seq<Sold>): Result<Stock>
    decreases |lines|
  {
    if lines == [] then Ok(s)
    else if !Deducts(lines[0]) then DeductAll(locations, s, lines[1..])
    else match DeductLine(locations, s, lines[0])
      case Err(e) => Err(e)
      case Ok(s1) => DeductAll(locations, s1, lines[1..])
  }

  /** The sale tables and the identity value of the next sale. */
  datatype SaleState = SaleState(transactions: map<int, CustomerTransaction>, nextId: int, stock: Stock)

  datatype Created = Created(state: SaleState, saved: CustomerTransaction)

  /** createTransaction on the tables' contents. */
  function CreateTransactionSpec(st: SaleState, locations: map<int, Location>, t: CustomerTransaction): Result<Created> {
    if ExistsByInvoiceReference(st.transactions, t.invoiceReference) then
      Err(IllegalArgument("Invoice reference already exists: " + Show(t.invoiceReference)))
    else
      match DeductAll(locations, st.stock, t.items.GetOr([]))
      case Err(e) => Err(e)
      case Ok(stock) =>
        var saved := SaveTransaction(st.transactions, st.nextId, t);
        Ok(Created(SaleState(saved.rows, saved.nextId, stock), saved.transaction))
  }

  // ------------------------------------------------------------ properties

  /** A repeated invoice reference is rejected before any stock is touched. */
  lemma DuplicateInvoiceRejected(st: SaleState, locations: map<int, Location>, t: CustomerTransaction, k: int)
    requires k in st.transactions && st.transactions[k].invoiceReference == t.invoiceReference
    ensures CreateTransactionSpec(st, locations, t)
            == Err(IllegalArgument("Invoice reference already exists: " + Show(t.invoiceReference)))
  {
  }

  /** A sale with no lines list records the sale and deducts nothing. */
  lemma NullItemsDeductNothing(st: SaleState, locations: map<int, Location>, t: CustomerTransaction)
    requires t.items.None? && !ExistsByInvoiceReference(st.transactions, t.invoiceReference)
    ensures CreateTransactionSpec(st, locations, t).Ok?
    ensures CreateTransactionSpec(st, locations, t).value.state.stock == st.stock
  {
  }

  /** The lines that deduct, in order. */
  function DeductingLines(lines: seq<Sold>): (r: seq<Sold>)
    ensures |r| <= |lines|
    ensures forall j :: 0 <= j < |r| ==> Deducts(r[j])
  {
    if lines == [] then []
    else if Deducts(lines[0]) then [lines[0]] + DeductingLines(lines[1..])
    else DeductingLines(lines[1..])
  }

  /** Skipped lines make no difference at all: the sale deducts exactly what
      its located lines deduct. */
  lemma {:induction false} SkippedLinesDeductNothing(locations: map<int, Location>, s: Stock, lines: seq<Sold>)
    ensures DeductAll(locations, s, lines) == DeductAll(locations, s, DeductingLines(lines))
    decreases |lines|
  {
    if lines != [] {
      if Deducts(lines[0]) {
        var rest := DeductingLines(lines[1..]);
        assert ([lines[0]] + rest)[0] == lines[0];
        assert ([lines[0]] + rest)[1..] == rest;
        match DeductLine(locations, s, lines[0])
        case Err(e) =>
        case Ok(s1) => SkippedLinesDeductNothing(locations, s1, lines[1..]);
      } else {
        SkippedLinesDeductNothing(locations, s, lines[1..]);
      }
    }
  }

  /** Each reason deductStock gives up for: an unknown location name, no row
      for the item at that location, and too little stock. */
  lemma DeductLineRejections(locations: map<int, Location>, s: Stock, line: Sold)
    ensures FindByLocationName(locations, line.location) == Ok(None)
            ==> DeductLine(locations, s, line) == Err(IllegalArgument("Location not found: " + Show(line.location)))
    ensures FindByLocationName(locations, line.location).Ok? && FindByLocationName(locations, line.location).value.Some?
            ==> var id := locations[FindByLocationName(locations, line.location).value.value].locationId;
                ((forall i :: 0 <= i < |s.itemLocs| ==> !(s.itemLocs[i].itemCode == line.itemId && s.itemLocs[i].locationId == id))
                 ==> DeductLine(locations, s, line)
                     == Err(IllegalArgument("Item " + Show(line.itemId) + " not found at location " + Show(line.location))))
                && (TargetRow(s.itemLocs, line.itemId, id).Some? && line.quantity.Some?
                    && s.itemLocs[TargetRow(s.itemLocs, line.itemId, id).value].quantity.Some?
                    && s.itemLocs[TargetRow(s.itemLocs, line.itemId, id).value].quantity.value < line.quantity.value
                    ==> DeductLine(locations, s, line)
                        == Err(IllegalArgument("Insufficient stock for item " + Show(line.itemDescription) + " at " + Show(line.location))))
  {
  }

  /** A successful line changes exactly one item-at-location row, the first
      one of the item at the named location, lowering it by the line quantity,
      and lowers the item's inventory total (null counting as 0) by the same
      quantity; with in-range values and a non-negative quantity no Java int
      wraps, so the row ends at `have - q >= 0` (0 when equal). */
  lemma DeductLineEffect(locations: map<int, Location>, s: Stock, line: Sold)
    requires DeductLine(locations, s, line).Ok?
    ensures var s1 := DeductLine(locations, s, line).value;
            var lk := FindByLocationName(locations, line.location).value.value;
            var i := TargetRow(s.itemLocs, line.itemId, locations[lk].locationId).value;
            var q := line.quantity.value;
            var have := s.itemLocs[i].quantity.value;
            var code := line.itemId.value;
            have >= q
            && s1.itemLocs == s.itemLocs[i := s.itemLocs[i].(quantity := Some(Wrap32(have - q)))]
            && s1.totals == s.totals[code := Some(Wrap32(TotalOf(s.totals, code) - q))]
            && (0 <= q && have <= MaxInt32 ==> s1.itemLocs[i].quantity == Some(have - q))
            && (IsInt32(TotalOf(s.totals, code) - q) ==> TotalOf(s1.totals, code) == TotalOf(s.totals, code) - q)
  {
  }

  // ------------------------------------------------------------ conservation

  /** The stock of `code` across all its item-at-location rows, a null
      quantity counting as 0. */
  function LedgerSum(rows: seq<ItemLoc>, code: string): int
    decreases |rows|
  {
    if rows == [] then 0
    else (if rows[0].itemCode == Some(code) then rows[0].quantity.GetOr(0) else 0) + LedgerSum(rows[1..], code)
  }

  /** Replacing one row changes the sum of its item by the quantity difference
      and no other item's sum. */
  lemma {:induction false} LedgerSumUpdate(rows: seq<ItemLoc>, i: nat, x: ItemLoc, code: string)
    requires i < |rows| && x.itemCode == rows[i].itemCode
    ensures LedgerSum(rows[i := x], code)
            == LedgerSum(rows, code)
               + (if x.itemCode == Some(code) then x.quantity.GetOr(0) - rows[i].quantity.GetOr(0) else 0)
    decreases |rows|
  {
    if i == 0 {
      assert rows[i := x][1..] == rows[1..];
    } else {
      assert rows[i := x][1..] == rows[1..][i - 1 := x];
      LedgerSumUpdate(rows[1..], i - 1, x, code);
    }
  }

  /** `a` and `b` are equal as Java ints. */
  predicate Congruent(a: int, b: int) {
    (a - b) % Modulus == 0
  }

  lemma CongruentSum(a: int, b: int, c: int, d: int)
    requires Congruent(a, b) && Congruent(c, d)
    ensures Congruent(a + c, b + d)
  {
    var m := (a - b) / Modulus;
    var n := (c - d) / Modulus;
    assert a - b == m * Modulus;
    assert c - d == n * Modulus;
    assert (a + c) - (b + d) == (m + n) * Modulus;
  }

  /** Lowering one row of `item` by `q` and its inventory total by `q` moves
      the ledger sum and the total of every item alike, as Java ints. */
  lemma RowDeductionConserves(s: Stock, s1: Stock, i: nat, item: string, q: int, code: string)
    requires i < |s.itemLocs| && s.itemLocs[i].itemCode == Some(item) && s.itemLocs[i].quantity.Some?
    requires s1.itemLocs == s.itemLocs[i := s.itemLocs[i].(quantity := Some(Wrap32(s.itemLocs[i].quantity.value - q)))]
    requires s1.totals == s.totals[item := Some(Wrap32(TotalOf(s.totals, item) - q))]
    ensures Congruent(LedgerSum(s1.itemLocs, code) - LedgerSum(s.itemLocs, code),
                      TotalOf(s1.totals, code) - TotalOf(s.totals, code))
  {
    var have := s.itemLocs[i].quantity.value;
    var total := TotalOf(s.totals, item);
    LedgerSumUpdate(s.itemLocs, i, s.itemLocs[i].(quantity := Some(Wrap32(have - q))), code);
    var ledgerMove := LedgerSum(s1.itemLocs, code) - LedgerSum(s.itemLocs, code);
    var totalMove := TotalOf(s1.totals, code) - TotalOf(s.totals, code);
    if item == code {
      assert ledgerMove == Wrap32(have - q) - have;
      assert totalMove == Wrap32(total - q) - total;
      var k1 := WrapDifference(have, q);
      var k2 := WrapDifference(total, q);
      MultipleIsCongruent(ledgerMove, totalMove, k1 - k2);
    } else {
      assert ledgerMove == 0 && totalMove == 0;
    }
  }

  /** Storing `have - q` as a Java int moves the stored value by `-q` plus
      some multiple of 2^32. */
  lemma WrapDifference(have: int, q: int) returns (k: int)
    ensures Wrap32(have - q) - have == -q + k * Modulus
  {
    var x := have - q;
    k := (Wrap32(x) - x) / Modulus;
    assert Wrap32(x) - x == k * Modulus;
  }

  lemma MultipleIsCongruent(a: int, b: int, k: int)
    requires a - b == k * Modulus
    ensures Congruent(a, b)
  {
  }

  /** What one line does to `code`: its ledger sum and its inventory total
      move by the same amount, as Java ints. */
  lemma DeductLineConserves(locations: map<int, Location>, s: Stock, line: Sold, code: string)
    requires DeductLine(locations, s, line).Ok?
    ensures var s1 := DeductLine(locations, s, line).value;
            Congruent(LedgerSum(s1.itemLocs, code) - LedgerSum(s.itemLocs, code),
                      TotalOf(s1.totals, code) - TotalOf(s.totals, code))
  {
    DeductLineEffect(locations, s, line);
    var lk := FindByLocationName(locations, line.location).value.value;
    var i := TargetRow(s.itemLocs, line.itemId, locations[lk].locationId).value;
    RowDeductionConserves(s, DeductLine(locations, s, line).value, i, line.itemId.value, line.quantity.value, code);
  }

  /** Conservation across a whole sale: for every item, the drop in its
      ledger sum equals the drop in its inventory total, as Java ints. */
  lemma {:induction false} DeductAllConserves(locations: map<int, Location>, s: Stock, lines: seq<Sold>, code: string)
    requires DeductAll(locations, s, lines).Ok?
    ensures var s1 := DeductAll(locations, s, lines).value;
            Congruent(LedgerSum(s1.itemLocs, code) - LedgerSum(s.itemLocs, code),
                      TotalOf(s1.totals, code) - TotalOf(s.totals, code))
    decreases |lines|
  {
    if lines != [] {
      if !Deducts(lines[0]) {
        DeductAllConserves(locations, s, lines[1..], code);
      } else {
        var s1 := DeductLine(locations, s, lines[0]).value;
        DeductLineConserves(locations, s, lines[0], code);
        DeductAllConserves(locations, s1, lines[1..], code);
        var s2 := DeductAll(locations, s1, lines[1..]).value;
        assert s2 == DeductAll(locations, s, lines).value;
        var l0, l1, l2 := LedgerSum(s.itemLocs, code), LedgerSum(s1.itemLocs, code), LedgerSum(s2.itemLocs, code);
        var t0, t1, t2 := TotalOf(s.totals, code), TotalOf(s1.totals, code), TotalOf(s2.totals, code);
        CongruentSum(l1 - l0, t1 - t0, l2 - l1, t2 - t1);
        assert (l1 - l0) + (l2 - l1) == l2 - l0 && (t1 - t0) + (t2 - t1) == t2 - t0;
      }
    }
  }

  /** Every stored item-at-location quantity is a non-negative Java int. */
  predicate LedgerNonNegative(rows: seq<ItemLoc>) {
    forall i :: 0 <= i < |rows| && rows[i].quantity.Some? ==> 0 <= rows[i].quantity.value <= MaxInt32
  }

  /** No line asks for a negative quantity. */
  predicate QuantitiesNonNegative(lines: seq<Sold>) {
    forall j :: 0 <= j < |lines| && lines[j].quantity.Some? ==> lines[j].quantity.value >= 0
  }

  /** A sale of non-negative quantities never drives a row below zero. */
  lemma {:induction false} DeductAllKeepsNonNegative(locations: map<int, Location>, s: Stock, lines: seq<Sold>)
    requires DeductAll(locations, s, lines).Ok?
    requires LedgerNonNegative(s.itemLocs) && QuantitiesNonNegative(lines)
    ensures LedgerNonNegative(DeductAll(locations, s, lines).value.itemLocs)
    decreases |lines|
  {
    if lines != [] {
      assert QuantitiesNonNegative(lines[1..]) by {
        forall j | 0 <= j < |lines[1..]| && lines[1..][j].quantity.Some? ensures lines[1..][j].quantity.value >= 0 {
          assert lines[1..][j] == lines[j + 1];
        }
      }
      if !Deducts(lines[0]) {
        DeductAllKeepsNonNegative(locations, s, lines[1..]);
      } else {
        DeductLineEffect(locations, s, lines[0]);
        var s1 := DeductLine(locations, s, lines[0]).value;
        DeductAllKeepsNonNegative(locations, s1, lines[1..]);
      }
    }
  }

  // ------------------------------------------------------------ the service

  class CustomerTransactionService {
    const repository: CustomerTransactionRepository
    const itemLocRepository: ItemLocRepository
    const inventoryRepository: InventoryTotalRepository
    const locationRepository: LocationRepository

    constructor(repository: CustomerTransactionRepository, itemLocRepository: ItemLocRepository,
                inventoryRepository: InventoryTotalRepository, locationRepository: LocationRepository)
      ensures this.repository == repository && this.itemLocRepository == itemLocRepository
      ensures this.inventoryRepository == inventoryRepository && this.locationRepository == locationRepository
    {
      this.repository := repository;
      this.itemLocRepository := itemLocRepository;
      this.inventoryRepository := inventoryRepository;
      this.locationRepository := locationRepository;
    }

    /** deductStock. On failure the inventory table is untouched, but the
        item-at-location row may already have been saved: the caller's
        transaction undoes it. */
    method DeductStock(line: Sold) returns (r: Result<()>)
      modifies itemLocRepository, inventoryRepository
      ensures match DeductLine(locationRepository.rows, Stock(old(itemLocRepository.rows), old(inventoryRepository.rows)), line)
              case Ok(s) => r == Ok(()) && itemLocRepository.rows == s.itemLocs && inventoryRepository.rows == s.totals
              case Err(e) => r == Err(e) && inventoryRepository.rows == old(inventoryRepository.rows)
    {
      var found := FindByLocationName(locationRepository.rows, line.location);
      if found.Err? {
        return Err(found.error);
      }
      if found.value.None? {
        return Err(IllegalArgument("Location not found: " + Show(line.location)));
      }
      var location := locationRepository.rows[found.value.value];
      var target := TargetRow(itemLocRepository.rows, line.itemId, location.locationId);
      if target.None? {
        return Err(IllegalArgument("Item " + Show(line.itemId) + " not found at location " + Show(line.location)));
      }
      var i := target.value;
      var have := itemLocRepository.rows[i].quantity;
      if have.None? || line.quantity.None? {
        return Err(NullPointer);
      }
      if have.value < line.quantity.value {
        return Err(IllegalArgument("Insufficient stock for item " + Show(line.itemDescription) + " at " + Show(line.location)));
      }
      itemLocRepository.rows := itemLocRepository.rows[i := itemLocRepository.rows[i].(quantity := Some(Wrap32(have.value - line.quantity.value)))];
      if line.itemId.None? {
        return Err(IllegalArgument("The given id must not be null"));
      }
      var code := line.itemId.value;
      if code !in inventoryRepository.rows {
        return Err(IllegalArgument("Inventory item not found: " + code));
      }
      var currentTotal := TotalOf(inventoryRepository.rows, code);
      inventoryRepository.rows := inventoryRepository.rows[code := Some(Wrap32(currentTotal - line.quantity.value))];
      return Ok(());
    }

    /** createTransaction: all or nothing. On success the stock tables hold
        what the deductions leave and the sale is saved; on failure every
        table is as it was. */
    method CreateTransaction(t: CustomerTransaction) returns (r: Result<CustomerTransaction>)
      modifies repository, itemLocRepository, inventoryRepository
      ensures var before := SaleState(old(repository.rows), old(repository.nextId),
                                       Stock(old(itemLocRepository.rows), old(inventoryRepository.rows)));
              var after := SaleState(repository.rows, repository.nextId,
                                      Stock(itemLocRepository.rows, inventoryRepository.rows));
              match CreateTransactionSpec(before, locationRepository.rows, t)
              case Ok(c) => r == Ok(c.saved) && after == c.state
              case Err(e) => r == Err(e) && after == before
    {
      var savedLocs, savedTotals := itemLocRepository.rows, inventoryRepository.rows;
      if ExistsByInvoiceReference(repository.rows, t.invoiceReference) {
        return Err(IllegalArgument("Invoice reference already exists: " + Show(t.invoiceReference)));
      }
      var lines := t.items.GetOr([]);
      var i := 0;
      while i < |lines|
        invariant 0 <= i <= |lines|
        invariant repository.rows == old(repository.rows) && repository.nextId == old(repository.nextId)
        invariant DeductAll(locationRepository.rows, Stock(savedLocs, savedTotals), lines)
                  == DeductAll(locationRepository.rows, Stock(itemLocRepository.rows, inventoryRepository.rows), lines[i..])
      {
        assert lines[i..][1..] == lines[i + 1..];
        if Deducts(lines[i]) {
          var step := DeductStock(lines[i]);
          if step.Err? {
            itemLocRepository.rows, inventoryRepository.rows := savedLocs, savedTotals;
            return Err(step.error);
          }
        }
        i := i + 1;
      }
      assert lines[i..] == [];
      var saved := SaveTransaction(repository.rows, repository.nextId, t);
      repository.rows, repository.nextId := saved.rows, saved.nextId;
      return Ok(saved.transaction);
    }

    /** deleteTransaction: removes the sale record only; no stock comes back. */
    method DeleteTransaction(id: int)
      modifies repository
      ensures repository.rows == old(repository.rows) - {id}
      ensures repository.nextId == old(repository.nextId)
    {
      repository.rows := repository.rows - {id};
    }
  }

  /** deleteTransaction on the tables' contents: repository.deleteById,
      which leaves the stock tables alone. */
  function DeleteTransactionSpec(st: SaleState, id: int): (r: SaleState)
    ensures r.transactions.Keys == st.transactions.Keys - {id}
    ensures forall k :: k in r.transactions ==> r.transactions[k] == st.transactions[k]
    ensures r.nextId == st.nextId && r.stock == st.stock
  {
    st.(transactions := st.transactions - {id})
  }

  /** Deleting a sale does not give its stock back: after a create and a
      delete of the created sale the stock is what the sale's deductions
      left. When the sale was new, the sale table is the one the create
      found. */
  lemma DeleteKeepsSaleDeductions(st: SaleState, locations: map<int, Location>, t: CustomerTransaction)
    requires CreateTransactionSpec(st, locations, t).Ok?
    ensures var c := CreateTransactionSpec(st, locations, t).value;
            var after := DeleteTransactionSpec(c.state, c.saved.transactionId.value);
            && DeductAll(locations, st.stock, t.items.GetOr([])) == Ok(after.stock)
            && c.saved.transactionId.value !in after.transactions
            && ((t.transactionId.None? || t.transactionId.value !in st.transactions) && st.nextId !in st.transactions
                ==> after.transactions == st.transactions)
  {
    var c := CreateTransactionSpec(st, locations, t).value;
    var after := DeleteTransactionSpec(c.state, c.saved.transactionId.value);
    if (t.transactionId.None? || t.transactionId.value !in st.transactions) && st.nextId !in st.transactions {
      assert c.saved.transactionId == Some(st.nextId);
      assert after.transactions.Keys == st.transactions.Keys;
    }
  }
}
