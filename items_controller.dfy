/** ItemsController: the items of one brand, and the detail view of one
    item with its lot and the stock it has at each location. This controller
    reads the inventory table in the revision that carries a brand id, an
    item description, a lot number, an expiry date and a cost of sale. */
module ItemsController {
  import opened Common
  import opened Numbers
  import opened Calendar
  import opened Entities
  import opened Repositories

  /** An inventory row as this controller reads it, keyed by its item code.
      The lot number is held as the text its toString gives. */
  datatype CatalogItem = CatalogItem(
    itemCode: string,
    brandId: Option<int>,
    itemDescription: Option<string>,
    lotNum: Option<string>,
    expiry: Option<Date>,
    costOfSale: Option<Double>)

  /** One entry of getItemsForBrand's answer. */
  datatype ItemSummary = ItemSummary(itemId: string, itemDescription: Option<string>)

  /** The filter `brandId != null && brandId.equals(requested)`. */
  predicate OfBrand(item: CatalogItem, brandId: Option<int>) {
    item.brandId.Some? && item.brandId == brandId
  }

  /** The items of the brand, in store order. */
  function BrandItems(items: seq<CatalogItem>, brandId: Option<int>): (r: seq<CatalogItem>)
    ensures |r| <= |items|
    ensures forall x :: x in r <==> x in items && OfBrand(x, brandId)
    ensures multiset(r) <= multiset(items)
  {
    if items == [] then []
    else
      var rest := BrandItems(items[..|items| - 1], brandId);
      var last := items[|items| - 1];
      assert items == items[..|items| - 1] + [last];
      if OfBrand(last, brandId) then rest + [last] else rest
  }

  /** Filtering a concatenation filters each part: store order is kept. */
  lemma {:induction false} BrandItemsConcat(a: seq<CatalogItem>, b: seq<CatalogItem>, brandId: Option<int>)
    ensures BrandItems(a + b, brandId) == BrandItems(a, brandId) + BrandItems(b, brandId)
    decreases |b|
  {
    if b == [] {
      assert a + b == a;
    } else {
      var b' := b[..|b| - 1];
      assert (a + b)[..|a + b| - 1] == a + b';
      assert (a + b)[|a + b| - 1] == b[|b| - 1];
      BrandItemsConcat(a, b', brandId);
    }
  }

  /** getItemsForBrand: exactly the brand's items, each reduced to its code
      and description, in store order. */
  function ItemsForBrand(items: seq<CatalogItem>, brandId: Option<int>): (r: seq<ItemSummary>)
    ensures |r| == |BrandItems(items, brandId)|
    ensures forall j :: 0 <= j < |r| ==>
              r[j] == ItemSummary(BrandItems(items, brandId)[j].itemCode, BrandItems(items, brandId)[j].itemDescription)
  {
    var chosen := BrandItems(items, brandId);
    seq(|chosen|, j requires 0 <= j < |chosen| => ItemSummary(chosen[j].itemCode, chosen[j].itemDescription))
  }

  /** An entry is listed for a brand exactly when some item of that brand
      has that code and description. */
  lemma ListedIffOfBrand(items: seq<CatalogItem>, brandId: Option<int>, e: ItemSummary)
    ensures e in ItemsForBrand(items, brandId)
            <==> exists x :: x in items && OfBrand(x, brandId) && e == ItemSummary(x.itemCode, x.itemDescription)
  {
    var chosen := BrandItems(items, brandId);
    var r := ItemsForBrand(items, brandId);
    if e in r {
      var j :| 0 <= j < |r| && r[j] == e;
      assert chosen[j] in chosen;
    }
    if exists x :: x in items && OfBrand(x, brandId) && e == ItemSummary(x.itemCode, x.itemDescription) {
      var x :| x in items && OfBrand(x, brandId) && e == ItemSummary(x.itemCode, x.itemDescription);
      var j :| 0 <= j < |chosen| && chosen[j] == x;
      assert r[j] == e;
    }
  }

  datatype Lot = Lot(lotNumber: string, expiryDate: string, unitRetailPrice: Double)
  datatype LocationStock = LocationStock(locationName: string, availableStock: Option<int>)
  datatype ItemDetails = ItemDetails(itemId: string, itemDescription: Option<string>, lots: seq<Lot>,
                                     locations: seq<LocationStock>)

  /** 404 Not Found, or the detail view. */
  datatype DetailsResponse = ItemNotFound | Found(details: ItemDetails)

  /** A LocalDate is always a real calendar date. */
  predicate ValidExpiry(item: CatalogItem) {
    item.expiry.Some? ==> ValidDate(item.expiry.value)
  }

  lemma ExpiryRoundTrip(item: CatalogItem)
    requires ValidExpiry(item)
    ensures item.expiry.Some? && 0 <= item.expiry.value.year <= 9999 ==> ParseIsoDate(IsoDate(item.expiry.value)) == item.expiry
  {
    if item.expiry.Some? && 0 <= item.expiry.value.year <= 9999 {
      IsoDateRoundTrip(item.expiry.value);
    }
  }

  /** The single lot entry, with "N/A" and 0.0 for null fields; the expiry
      date is written in ISO form, which reads back as the same date. */
  function LotOf(item: CatalogItem): (r: Lot)
    requires ValidExpiry(item)
    ensures r.lotNumber == if item.lotNum.Some? then item.lotNum.value else "N/A"
    ensures item.expiry.Some? && 0 <= item.expiry.value.year <= 9999 ==> ParseIsoDate(r.expiryDate) == item.expiry
    ensures item.expiry.None? ==> r.expiryDate == "N/A"
    ensures r.unitRetailPrice == if item.costOfSale.Some? then item.costOfSale.value else ZeroDouble
  {
    ExpiryRoundTrip(item);
    Lot(item.lotNum.GetOr("N/A"), if item.expiry.Some? then IsoDate(item.expiry.value) else "N/A",
        item.costOfSale.GetOr(ZeroDouble))
  }

  /** `Collectors.toMap(getLocationId, getLocationName)`: a null name makes
      the collector throw. */
  function LocationNames(locations: map<int, Location>): (r: Result<map<int, string>>)
    ensures r.Err? <==> exists k :: k in locations && locations[k].locationName.None?
    ensures r.Err? ==> r.error == NullPointer
    ensures r.Ok? ==> r.value.Keys == locations.Keys
                      && forall k :: k in r.value ==> Some(r.value[k]) == locations[k].locationName
  {
    if exists k :: k in locations && locations[k].locationName.None? then Err(NullPointer)
    else Ok(map k | k in locations :: locations[k].locationName.value)
  }

  /** The location label of one ledger row. */
  function LocationLabel(names: map<int, string>, id: int): string {
    if id in names then names[id] else "Unknown ID: " + IntToString(id)
  }

  /** The location entries, one per ledger row of the item, in row order. */
  function LocationEntries(names: map<int, string>, ledger: seq<ItemLoc>): (r: seq<LocationStock>)
    ensures |r| == |ledger|
    ensures forall j :: 0 <= j < |r| ==>
              r[j].availableStock == ledger[j].quantity
              && (ledger[j].locationId in names ==> r[j].locationName == names[ledger[j].locationId])
              && (ledger[j].locationId !in names ==> r[j].locationName == "Unknown ID: " + IntToString(ledger[j].locationId))
  {
    seq(|ledger|, j requires 0 <= j < |ledger| => LocationStock(LocationLabel(names, ledger[j].locationId), ledger[j].quantity))
  }

  /** findByItemCode: the item's ledger rows, in row order. */
  function ItemLedger(rows: seq<ItemLoc>, code: string): (r: seq<ItemLoc>)
    ensures |r| == |ItemLocPositions(rows, Some(code))|
    ensures forall j :: 0 <= j < |r| ==> r[j] == rows[ItemLocPositions(rows, Some(code))[j]] && r[j].itemCode == Some(code)
  {
    var ps := ItemLocPositions(rows, Some(code));
    seq(|ps|, j requires 0 <= j < |ps| => rows[ps[j]])
  }

  /** getItemDetails. */
  function DetailsSpec(items: map<string, CatalogItem>, ledger: seq<ItemLoc>, locations: map<int, Location>,
                       itemId: string): (r: Result<DetailsResponse>)
    requires itemId in items ==> ValidExpiry(items[itemId])
    ensures itemId !in items ==> r == Ok(ItemNotFound)
    ensures itemId in items ==> (r.Err? <==> LocationNames(locations).Err?)
    ensures r.Ok? && itemId in items ==>
              var item := items[itemId];
              && r.value.Found?
              && r.value.details.itemId == item.itemCode
              && r.value.details.itemDescription == item.itemDescription
              && r.value.details.lots == [LotOf(item)]
              && r.value.details.locations == LocationEntries(LocationNames(locations).value, ItemLedger(ledger, itemId))
  {
    if itemId !in items then Ok(ItemNotFound)
    else
      var item := items[itemId];
      match LocationNames(locations)
      case Err(e) => Err(e)
      case Ok(names) => Ok(Found(ItemDetails(item.itemCode, item.itemDescription, [LotOf(item)],
                                             LocationEntries(names, ItemLedger(ledger, itemId)))))
  }

  /** Each ledger row of the item, and only those, gives a location entry in
      row order: its stock is the row's quantity and its name the location's
      or "Unknown ID: " and the id. */
  lemma DetailsListLedgerRows(items: map<string, CatalogItem>, ledger: seq<ItemLoc>, locations: map<int, Location>,
                              itemId: string, i: int)
    requires itemId in items && ValidExpiry(items[itemId]) && DetailsSpec(items, ledger, locations, itemId).Ok?
    requires 0 <= i < |ledger| && ledger[i].itemCode == Some(itemId)
    ensures var entries := DetailsSpec(items, ledger, locations, itemId).value.details.locations;
            exists j :: 0 <= j < |entries| && entries[j].availableStock == ledger[i].quantity
                        && (ledger[i].locationId in locations ==>
                              Some(entries[j].locationName) == locations[ledger[i].locationId].locationName)
                        && (ledger[i].locationId !in locations ==>
                              entries[j].locationName == "Unknown ID: " + IntToString(ledger[i].locationId))
  {
    var ps := ItemLocPositions(ledger, Some(itemId));
    var j :| 0 <= j < |ps| && ps[j] == i;
    var names := LocationNames(locations).value;
    var entries := LocationEntries(names, ItemLedger(ledger, itemId));
    assert ItemLedger(ledger, itemId)[j] == ledger[i];
    assert entries[j].availableStock == ledger[i].quantity;
  }

  /** The three tables the controller reads. */
  class ItemsController {
    const inventoryRepository: CatalogRepository
    const itemLocRepository: ItemLocRepository
    const locationRepository: LocationRepository

    constructor(inventoryRepository: CatalogRepository, itemLocRepository: ItemLocRepository,
                locationRepository: LocationRepository)
      ensures this.inventoryRepository == inventoryRepository
      ensures this.itemLocRepository == itemLocRepository
      ensures this.locationRepository == locationRepository
    {
      this.inventoryRepository := inventoryRepository;
      this.itemLocRepository := itemLocRepository;
      this.locationRepository := locationRepository;
    }

    /** getItemDetails, with the location loop. */
    method GetItemDetails(itemId: string) returns (r: Result<DetailsResponse>)
      requires itemId in inventoryRepository.rows ==> ValidExpiry(inventoryRepository.rows[itemId])
      ensures r == DetailsSpec(inventoryRepository.rows, itemLocRepository.rows, locationRepository.rows, itemId)
    {
      if itemId !in inventoryRepository.rows {
        return Ok(ItemNotFound);
      }
      var item := inventoryRepository.rows[itemId];
      var itemLocs := ItemLedger(itemLocRepository.rows, itemId);
      var names := LocationNames(locationRepository.rows);
      if names.Err? {
        return Err(names.error);
      }
      var locIdToName := names.value;
      var entries: seq<LocationStock> := [];
      var j := 0;
      while j < |itemLocs|
        invariant 0 <= j <= |itemLocs|
        invariant entries == LocationEntries(locIdToName, itemLocs[..j])
      {
        var il := itemLocs[j];
        var locName := if il.locationId in locIdToName then Some(locIdToName[il.locationId]) else None;
        var shownName := if locName.Some? then locName.value else "Unknown ID: " + IntToString(il.locationId);
        assert itemLocs[..j + 1] == itemLocs[..j] + [il];
        entries := entries + [LocationStock(shownName, il.quantity)];
        j := j + 1;
      }
      assert itemLocs[..j] == itemLocs;
      return Ok(Found(ItemDetails(item.itemCode, item.itemDescription, [LotOf(item)], entries)));
    }
  }

  /** The inventory table in this controller's revision, keyed by item code. */
  class CatalogRepository {
    var rows: map<string, CatalogItem>

    constructor(rows: map<string, CatalogItem>)
      ensures this.rows == rows
    {
      this.rows := rows;
    }
  }
}
