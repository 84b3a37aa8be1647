/** The Spring Data repositories, each a class holding its table's rows, and
    the queries the services call, as functions on those rows.

    Query semantics follow how Spring Data runs them: a derived query
    (`findByX`, `existsByX`, `deleteByX`) given a null argument looks for rows
    whose column IS NULL, so it compares with `Option` equality; a JPQL
    `@Query` comparing with `=` never matches a NULL. A query declared to
    return a single row fails with NonUniqueResult when several rows match. */
module Repositories {
  import opened Common
  import opened Strings
  import opened Entities
  import opened StockLocatorEntity

  // ---------------------------------------------------------------- queries

  lemma SingletonHasOneElement<K>(s: set<K>)
    requires |s| == 1
    ensures exists a :: a in s
    ensures forall a, b :: a in s && b in s ==> a == b
  {
    assert s != {};
    forall a, b | a in s && b in s ensures a == b {
      var rest := s - {a};
      assert s == rest + {a};
      assert |rest| == 0;
      assert b in rest || b == a;
    }
  }

  /** A set with more than one element holds two distinct values. */
  lemma ManyHasTwo<K>(s: set<K>) returns (a: K, b: K)
    requires |s| > 1
    ensures a in s && b in s && a != b
  {
    a :| a in s;
    assert |s - {a}| > 0;
    b :| b in s - {a};
  }

  /** A set holding two distinct values has more than one element. */
  lemma TwoMeansMany<K>(s: set<K>, a: K, b: K)
    requires a in s && b in s && a != b
    ensures |s| > 1
  {
    var rest := s - {a, b};
    assert s == rest + {a, b};
    assert |s| == |rest| + |{a, b}|;
  }

  /** A single-result query over the keys `ks` of the matching rows: no match
      is an empty result, one match is that row's key, several matches are an
      error. */
  function SingleResult<K>(ks: set<K>): (r: Result<Option<K>>)
    ensures r == Ok(None) <==> ks == {}
    ensures r.Ok? && r.value.Some? ==> ks == {r.value.value}
    ensures r.Err? <==> |ks| > 1
    ensures r.Err? ==> r.error == NonUniqueResult
  {
    if |ks| == 0 then
      Ok(None)
    else if |ks| == 1 then
      SingletonHasOneElement(ks);
      var k :| k in ks;
      assert ks == {k};
      Ok(Some(k))
    else
      Err(NonUniqueResult)
  }

  // ---------------------------------------------------- the stock ledger

  class StockLocatorRepository {
    var rows: map<string, StockLocator>

    constructor(rows: map<string, StockLocator>)
      ensures this.rows == rows
    {
      this.rows := rows;
    }
  }

  /** `LOWER(s.brand) = LOWER(:brand) AND LOWER(s.productDescription) =
      LOWER(:productDescription)`: a NULL on either side matches nothing. */
  predicate LocatorMatches(row: StockLocator, brand: Option<string>, productDescription: Option<string>) {
    brand.Some? && productDescription.Some? && row.brand.Some? && row.productDescription.Some?
    && Lower(row.brand.value) == Lower(brand.value)
    && Lower(row.productDescription.value) == Lower(productDescription.value)
  }

  /** The keys of the rows the ledger query matches. */
  function LocatorKeys(rows: map<string, StockLocator>, brand: Option<string>, productDescription: Option<string>): (ks: set<string>)
    ensures forall k :: k in ks <==> k in rows && LocatorMatches(rows[k], brand, productDescription)
  {
    set k | k in rows && LocatorMatches(rows[k], brand, productDescription)
  }

  /** findByBrandAndProductDescription: the key of the matching row. */
  function FindByBrandAndProductDescription(rows: map<string, StockLocator>, brand: Option<string>,
                                            productDescription: Option<string>): (r: Result<Option<string>>)
    ensures r == Ok(None) <==> forall k :: k in rows ==> !LocatorMatches(rows[k], brand, productDescription)
    ensures r.Ok? && r.value.Some? ==>
              r.value.value in rows && LocatorMatches(rows[r.value.value], brand, productDescription)
              && forall k :: k in rows && LocatorMatches(rows[k], brand, productDescription) ==> k == r.value.value
    ensures r.Err? <==> exists a, b :: a in rows && b in rows && a != b
                          && LocatorMatches(rows[a], brand, productDescription) && LocatorMatches(rows[b], brand, productDescription)
    ensures r.Err? ==> r.error == NonUniqueResult
  {
    var ks := LocatorKeys(rows, brand, productDescription);
    assert ks == {} <==> forall k :: k in rows ==> !(LocatorMatches(rows[k], brand, productDescription)) by {
      if forall k :: k in rows ==> !(LocatorMatches(rows[k], brand, productDescription)) {
        assert forall k :: k !in ks;
      } else {
        var k :| k in rows && LocatorMatches(rows[k], brand, productDescription);
        assert k in ks;
      }
    }
    assert |ks| > 1 <==> exists a, b :: a in rows && b in rows && a != b && LocatorMatches(rows[a], brand, productDescription) && LocatorMatches(rows[b], brand, productDescription) by {
      if exists a, b :: a in rows && b in rows && a != b && LocatorMatches(rows[a], brand, productDescription) && LocatorMatches(rows[b], brand, productDescription) {
        var a, b :| a in rows && b in rows && a != b && LocatorMatches(rows[a], brand, productDescription) && LocatorMatches(rows[b], brand, productDescription);
        TwoMeansMany(ks, a, b);
      }
      if |ks| > 1 {
        var a, b := ManyHasTwo(ks);
        assert a in rows && b in rows && LocatorMatches(rows[a], brand, productDescription) && LocatorMatches(rows[b], brand, productDescription);
      }
    }
    SingleResult(ks)
  }

  // --------------------------------------------------------------- brands

  /** The brand table and the next identity value the database hands out. */
  class BrandRepository {
    var rows: map<int, Brand>
    var nextId: int

    constructor(rows: map<int, Brand>, nextId: int)
      ensures this.rows == rows && this.nextId == nextId
    {
      this.rows := rows;
      this.nextId := nextId;
    }
  }

  /** Every row is stored under its own id, and every id is below the next
      identity value. */
  predicate BrandTableValid(rows: map<int, Brand>, nextId: int) {
    forall k :: k in rows ==> k < nextId && rows[k].brandId == Some(k)
  }

  /** Brand.brandName is a unique column: saving `b` would give its name to a
      second stored brand. A null name clashes with nothing. */
  predicate BrandNameClash(rows: map<int, Brand>, b: Brand) {
    b.brandName.Some? && exists k :: k in rows && rows[k].brandName == b.brandName && Some(k) != b.brandId
  }

  /** What the unique column guarantees: no two stored brands share a name. */
  predicate BrandNamesUnique(rows: map<int, Brand>) {
    forall a, b :: a in rows && b in rows && rows[a].brandName.Some? && rows[a].brandName == rows[b].brandName ==> a == b
  }

  datatype SavedBrand = SavedBrand(rows: map<int, Brand>, nextId: int, brand: Brand)

  /** brandRepository.save: a brand whose id is in the table replaces that
      row; any other brand is inserted under a fresh identity value. */
  function SaveBrand(rows: map<int, Brand>, nextId: int, b: Brand): (r: SavedBrand)
    ensures BrandTableValid(rows, nextId) ==> BrandTableValid(r.rows, r.nextId)
    ensures r.brand.brandId.Some? && r.brand.brandId.value in r.rows && r.rows[r.brand.brandId.value] == r.brand
    ensures r.brand == b.(brandId := r.brand.brandId)
    ensures r.rows.Keys == rows.Keys + {r.brand.brandId.value}
    ensures forall k :: k in rows && k != r.brand.brandId.value ==> r.rows[k] == rows[k]
    ensures BrandTableValid(rows, nextId) && b.brandId.None? ==> r.brand.brandId.value !in rows
  {
    if b.brandId.Some? && b.brandId.value in rows then
      SavedBrand(rows[b.brandId.value := b], nextId, b)
    else
      var saved := b.(brandId := Some(nextId));
      SavedBrand(rows[nextId := saved], nextId + 1, saved)
  }

  /** A save the unique column admits keeps the names unique, whether it
      replaces a row or inserts one. */
  lemma SaveBrandKeepsNamesUnique(rows: map<int, Brand>, nextId: int, b: Brand)
    requires BrandNamesUnique(rows) && !BrandNameClash(rows, b)
    ensures BrandNamesUnique(SaveBrand(rows, nextId, b).rows)
  {
    var r := SaveBrand(rows, nextId, b);
    var key := r.brand.brandId.value;
    forall x, y | x in r.rows && y in r.rows && r.rows[x].brandName.Some? && r.rows[x].brandName == r.rows[y].brandName
      ensures x == y
    {
      if x != key && y != key {
        assert rows[x] == r.rows[x] && rows[y] == r.rows[y];
      }
    }
  }

  /** The keys of the brands named `name`. */
  function BrandKeys(rows: map<int, Brand>, name: Option<string>): (ks: set<int>)
    ensures forall k :: k in ks <==> k in rows && rows[k].brandName == name
  {
    set k | k in rows && rows[k].brandName == name
  }

  /** findByBrandName, a derived query. */
  function FindByBrandName(rows: map<int, Brand>, name: Option<string>): (r: Result<Option<int>>)
    ensures r == Ok(None) <==> forall k :: k in rows ==> rows[k].brandName != name
    ensures r.Ok? && r.value.Some? ==>
              r.value.value in rows && rows[r.value.value].brandName == name
              && forall k :: k in rows && rows[k].brandName == name ==> k == r.value.value
    ensures r.Err? <==> exists a, b :: a in rows && b in rows && a != b && rows[a].brandName == name && rows[b].brandName == name
    ensures r.Err? ==> r.error == NonUniqueResult
  {
    var ks := BrandKeys(rows, name);
    assert ks == {} <==> forall k :: k in rows ==> !(rows[k].brandName == name) by {
      if forall k :: k in rows ==> !(rows[k].brandName == name) {
        assert forall k :: k !in ks;
      } else {
        var k :| k in rows && rows[k].brandName == name;
        assert k in ks;
      }
    }
    assert |ks| > 1 <==> exists a, b :: a in rows && b in rows && a != b && rows[a].brandName == name && rows[b].brandName == name by {
      if exists a, b :: a in rows && b in rows && a != b && rows[a].brandName == name && rows[b].brandName == name {
        var a, b :| a in rows && b in rows && a != b && rows[a].brandName == name && rows[b].brandName == name;
        TwoMeansMany(ks, a, b);
      }
      if |ks| > 1 {
        var a, b := ManyHasTwo(ks);
        assert a in rows && b in rows && rows[a].brandName == name && rows[b].brandName == name;
      }
    }
    SingleResult(ks)
  }

  // ------------------------------------------------------ purchase orders

  class PurchaseOrderRepository {
    var rows: map<string, PurchaseOrder>

    constructor(rows: map<string, PurchaseOrder>)
      ensures this.rows == rows
    {
      this.rows := rows;
    }
  }

  // ------------------------------------------------- transaction entries

  class TransactionEntryRepository {
    var rows: map<string, TransactionEntry>

    constructor(rows: map<string, TransactionEntry>)
      ensures this.rows == rows
    {
      this.rows := rows;
    }
  }

  /** The keys of the entries with item code `code`. */
  function EntryKeys(rows: map<string, TransactionEntry>, code: Option<string>): (ks: set<string>)
    ensures forall k :: k in ks <==> k in rows && rows[k].itemCode == code
  {
    set k | k in rows && rows[k].itemCode == code
  }

  /** findByItemCode, a derived query returning an Optional. */
  function FindEntryByItemCode(rows: map<string, TransactionEntry>, code: Option<string>): (r: Result<Option<string>>)
    ensures r == Ok(None) <==> forall k :: k in rows ==> rows[k].itemCode != code
    ensures r.Ok? && r.value.Some? ==>
              r.value.value in rows && rows[r.value.value].itemCode == code
              && forall k :: k in rows && rows[k].itemCode == code ==> k == r.value.value
    ensures r.Err? <==> exists a, b :: a in rows && b in rows && a != b && rows[a].itemCode == code && rows[b].itemCode == code
    ensures r.Err? ==> r.error == NonUniqueResult
  {
    var ks := EntryKeys(rows, code);
    assert ks == {} <==> forall k :: k in rows ==> !(rows[k].itemCode == code) by {
      if forall k :: k in rows ==> !(rows[k].itemCode == code) {
        assert forall k :: k !in ks;
      } else {
        var k :| k in rows && rows[k].itemCode == code;
        assert k in ks;
      }
    }
    assert |ks| > 1 <==> exists a, b :: a in rows && b in rows && a != b && rows[a].itemCode == code && rows[b].itemCode == code by {
      if exists a, b :: a in rows && b in rows && a != b && rows[a].itemCode == code && rows[b].itemCode == code {
        var a, b :| a in rows && b in rows && a != b && rows[a].itemCode == code && rows[b].itemCode == code;
        TwoMeansMany(ks, a, b);
      }
      if |ks| > 1 {
        var a, b := ManyHasTwo(ks);
        assert a in rows && b in rows && rows[a].itemCode == code && rows[b].itemCode == code;
      }
    }
    SingleResult(ks)
  }

  /** A derived deleteByItemCode query on a table whose rows carry an item
      code: every row with that code goes, every other row stays as it was. */
  function DeleteByItemCode<K(!new), V>(rows: map<K, V>, itemCode: V -> Option<string>, code: Option<string>): (r: map<K, V>)
    ensures forall k :: k in r <==> k in rows && itemCode(rows[k]) != code
    ensures forall k :: k in r ==> r[k] == rows[k]
  {
    map k | k in rows && itemCode(rows[k]) != code :: rows[k]
  }

  // ------------------------------------------------------------ inventory

  /** The inventory table and the next identity value. */
  class InventoryRepository {
    var rows: map<int, Inventory>
    var nextId: int

    constructor(rows: map<int, Inventory>, nextId: int)
      ensures this.rows == rows && this.nextId == nextId
    {
      this.rows := rows;
      this.nextId := nextId;
    }
  }

  predicate InventoryTableValid(rows: map<int, Inventory>, nextId: int) {
    forall k :: k in rows ==> k < nextId && rows[k].inventoryId == Some(k)
  }

  datatype SavedInventory = SavedInventory(rows: map<int, Inventory>, nextId: int, inventory: Inventory)

  /** inventoryRepository.save, with the same identity rule as brands. */
  function SaveInventory(rows: map<int, Inventory>, nextId: int, inv: Inventory): (r: SavedInventory)
    ensures InventoryTableValid(rows, nextId) ==> InventoryTableValid(r.rows, r.nextId)
    ensures r.inventory.inventoryId.Some? && r.inventory.inventoryId.value in r.rows
    ensures r.rows[r.inventory.inventoryId.value] == r.inventory
    ensures r.inventory == inv.(inventoryId := r.inventory.inventoryId)
    ensures r.rows.Keys == rows.Keys + {r.inventory.inventoryId.value}
    ensures forall k :: k in rows && k != r.inventory.inventoryId.value ==> r.rows[k] == rows[k]
    ensures InventoryTableValid(rows, nextId) && inv.inventoryId.None? ==> r.inventory.inventoryId.value !in rows
  {
    if inv.inventoryId.Some? && inv.inventoryId.value in rows then
      SavedInventory(rows[inv.inventoryId.value := inv], nextId, inv)
    else
      var saved := inv.(inventoryId := Some(nextId));
      SavedInventory(rows[nextId := saved], nextId + 1, saved)
  }

  /** The inventory table as CustomerTransactionService addresses it: looked
      up by the sale line's item id, holding the item's total quantity. */
  class InventoryTotalRepository {
    var rows: map<string, Option<int>>

    constructor(rows: map<string, Option<int>>)
      ensures this.rows == rows
    {
      this.rows := rows;
    }
  }

  // ---------------------------------------------------------------- items

  class ItemRepository {
    var rows: map<string, Item>

    constructor(rows: map<string, Item>)
      ensures this.rows == rows
    {
      this.rows := rows;
    }
  }

  // ------------------------------------------------------------ locations

  class LocationRepository {
    var rows: map<int, Location>

    constructor(rows: map<int, Location>)
      ensures this.rows == rows
    {
      this.rows := rows;
    }
  }

  /** The keys of the locations named `name`. */
  function LocationKeys(rows: map<int, Location>, name: Option<string>): (ks: set<int>)
    ensures forall k :: k in ks <==> k in rows && rows[k].locationName == name
  {
    set k | k in rows && rows[k].locationName == name
  }

  /** findByLocationName, a derived query: the exact name. */
  function FindByLocationName(rows: map<int, Location>, name: Option<string>): (r: Result<Option<int>>)
    ensures r == Ok(None) <==> forall k :: k in rows ==> rows[k].locationName != name
    ensures r.Ok? && r.value.Some? ==>
              r.value.value in rows && rows[r.value.value].locationName == name
              && forall k :: k in rows && rows[k].locationName == name ==> k == r.value.value
    ensures r.Err? <==> exists a, b :: a in rows && b in rows && a != b && rows[a].locationName == name && rows[b].locationName == name
    ensures r.Err? ==> r.error == NonUniqueResult
  {
    var ks := LocationKeys(rows, name);
    assert ks == {} <==> forall k :: k in rows ==> !(rows[k].locationName == name) by {
      if forall k :: k in rows ==> !(rows[k].locationName == name) {
        assert forall k :: k !in ks;
      } else {
        var k :| k in rows && rows[k].locationName == name;
        assert k in ks;
      }
    }
    assert |ks| > 1 <==> exists a, b :: a in rows && b in rows && a != b && rows[a].locationName == name && rows[b].locationName == name by {
      if exists a, b :: a in rows && b in rows && a != b && rows[a].locationName == name && rows[b].locationName == name {
        var a, b :| a in rows && b in rows && a != b && rows[a].locationName == name && rows[b].locationName == name;
        TwoMeansMany(ks, a, b);
      }
      if |ks| > 1 {
        var a, b := ManyHasTwo(ks);
        assert a in rows && b in rows && rows[a].locationName == name && rows[b].locationName == name;
      }
    }
    SingleResult(ks)
  }

  /** existsByLocationNameIgnoreCase. */
  predicate ExistsByLocationNameIgnoreCase(rows: map<int, Location>, name: string) {
    exists k :: k in rows && rows[k].locationName.Some? && EqualsIgnoreCase(rows[k].locationName.value, name)
  }

  /** The item-at-location table, in row order. */
  class ItemLocRepository {
    var rows: seq<ItemLoc>

    constructor(rows: seq<ItemLoc>)
      ensures this.rows == rows
    {
      this.rows := rows;
    }
  }

  /** findByItemCode: the positions of the item's rows, in row order. */
  function ItemLocPositions(rows: seq<ItemLoc>, code: Option<string>): (r: seq<nat>)
    ensures forall j :: 0 <= j < |r| ==> r[j] < |rows| && rows[r[j]].itemCode == code
    ensures forall i :: 0 <= i < |rows| && rows[i].itemCode == code ==> i in r
    ensures forall j, j' :: 0 <= j < j' < |r| ==> r[j] < r[j']
    decreases |rows|
  {
    if rows == [] then []
    else
      var tail := ItemLocPositions(rows[..|rows| - 1], code);
      if rows[|rows| - 1].itemCode == code then tail + [|rows| - 1] else tail
  }

  // ------------------------------------------------- customer transactions

  /** The customer-transaction table and the next identity value. */
  class CustomerTransactionRepository {
    var rows: map<int, CustomerTransaction>
    var nextId: int

    constructor(rows: map<int, CustomerTransaction>, nextId: int)
      ensures this.rows == rows && this.nextId == nextId
    {
      this.rows := rows;
      this.nextId := nextId;
    }
  }

  /** existsByInvoiceReference, a derived query. */
  predicate ExistsByInvoiceReference(rows: map<int, CustomerTransaction>, reference: Option<string>) {
    exists k :: k in rows && rows[k].invoiceReference == reference
  }

  datatype SavedTransaction = SavedTransaction(rows: map<int, CustomerTransaction>, nextId: int, transaction: CustomerTransaction)

  /** repository.save, with the same identity rule as brands. */
  function SaveTransaction(rows: map<int, CustomerTransaction>, nextId: int, t: CustomerTransaction): (r: SavedTransaction)
    ensures r.transaction.transactionId.Some? && r.transaction.transactionId.value in r.rows
    ensures r.rows[r.transaction.transactionId.value] == r.transaction
    ensures r.transaction == t.(transactionId := r.transaction.transactionId)
    ensures r.rows.Keys == rows.Keys + {r.transaction.transactionId.value}
    ensures forall k :: k in rows && k != r.transaction.transactionId.value ==> r.rows[k] == rows[k]
  {
    if t.transactionId.Some? && t.transactionId.value in rows then
      SavedTransaction(rows[t.transactionId.value := t], nextId, t)
    else
      var saved := t.(transactionId := Some(nextId));
      SavedTransaction(rows[nextId := saved], nextId + 1, saved)
  }
}
