/** The fixed-column stock ledger row: one row per (brand, description) with
    a quantity column for each of the seven storage locations. */
module StockLocatorEntity {
  import opened Common
  import opened Calendar

  /** The seven storage locations a ledger row has a column for. */
  datatype Loc = LazcanoRef1 | LazcanoRef2 | GandiaColdStorage | GandiaRef1 | GandiaRef2 | Limbaga | Cebu

  /** The lower-case name that selects a location's column. */
  function LocName(l: Loc): string {
    match l
    case LazcanoRef1 => "lazcano ref 1"
    case LazcanoRef2 => "lazcano ref 2"
    case GandiaColdStorage => "gandia cold storage"
    case GandiaRef1 => "gandia ref 1"
    case GandiaRef2 => "gandia ref 2"
    case Limbaga => "limbaga"
    case Cebu => "cebu"
  }

  /** A ledger row (table stockLocator), keyed by itemCode. */
  datatype StockLocator = StockLocator(
    itemCode: string,
    brand: Option<string>,
    productDescription: Option<string>,
    lazcanoRef1: Option<int>,
    lazcanoRef2: Option<int>,
    gandiaColdStorage: Option<int>,
    gandiaRef1: Option<int>,
    gandiaRef2: Option<int>,
    limbaga: Option<int>,
    cebu: Option<int>,
    addedBy: Option<string>,
    dateTimeAdded: Option<DateTime>)
  {
    /** The quantity column of location `l`. */
    function Cell(l: Loc): Option<int> {
      match l
      case LazcanoRef1 => lazcanoRef1
      case LazcanoRef2 => lazcanoRef2
      case GandiaColdStorage => gandiaColdStorage
      case GandiaRef1 => gandiaRef1
      case GandiaRef2 => gandiaRef2
      case Limbaga => limbaga
      case Cebu => cebu
    }

    /** The setter of location `l`'s column: that column is `v`, every other
        field is as before. */
    function WithCell(l: Loc, v: Option<int>): (r: StockLocator)
      ensures r.Cell(l) == v
      ensures forall m :: m != l ==> r.Cell(m) == Cell(m)
      ensures r.itemCode == itemCode && r.brand == brand && r.productDescription == productDescription
      ensures r.addedBy == addedBy && r.dateTimeAdded == dateTimeAdded
    {
      match l
      case LazcanoRef1 => this.(lazcanoRef1 := v)
      case LazcanoRef2 => this.(lazcanoRef2 := v)
      case GandiaColdStorage => this.(gandiaColdStorage := v)
      case GandiaRef1 => this.(gandiaRef1 := v)
      case GandiaRef2 => this.(gandiaRef2 := v)
      case Limbaga => this.(limbaga := v)
      case Cebu => this.(cebu := v)
    }
  }

  /** new StockLocator(brand, productDescription): the given brand and
      description, the placeholder key, every location at 0 and no audit
      stamp. */
  function NewStockLocator(brand: Option<string>, productDescription: Option<string>): (r: StockLocator)
    ensures r.brand == brand && r.productDescription == productDescription
    ensures r.itemCode == "placeholder"
    ensures forall l :: r.Cell(l) == Some(0)
    ensures r.addedBy.None? && r.dateTimeAdded.None?
  {
    StockLocator("placeholder", brand, productDescription,
                 Some(0), Some(0), Some(0), Some(0), Some(0), Some(0), Some(0), None, None)
  }

  /** Two rows with the same key, brand, description, columns and stamp are
      the same row: the seven columns are all of the row's quantities. */
  lemma CellsDetermineRow(a: StockLocator, b: StockLocator)
    requires a.itemCode == b.itemCode && a.brand == b.brand && a.productDescription == b.productDescription
    requires a.addedBy == b.addedBy && a.dateTimeAdded == b.dateTimeAdded
    requires forall l :: a.Cell(l) == b.Cell(l)
    ensures a == b
  {
    assert a.Cell(LazcanoRef1) == b.Cell(LazcanoRef1);
    assert a.Cell(LazcanoRef2) == b.Cell(LazcanoRef2);
    assert a.Cell(GandiaColdStorage) == b.Cell(GandiaColdStorage);
    assert a.Cell(GandiaRef1) == b.Cell(GandiaRef1);
    assert a.Cell(GandiaRef2) == b.Cell(GandiaRef2);
    assert a.Cell(Limbaga) == b.Cell(Limbaga);
    assert a.Cell(Cebu) == b.Cell(Cebu);
  }
}
