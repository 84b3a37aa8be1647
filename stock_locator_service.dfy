/** StockLocatorService: moving one location column of a ledger row by a
    transaction's quantity, creating the row when the (brand, description)
    pair has none, and stamping the row with the acting user. */
module StockLocatorService {
  import opened Common
  import opened Strings
  import opened Int32
  import opened Audit
  import opened Entities
  import opened StockLocatorEntity
  import opened Repositories

  /** `switch (stockLocation.toLowerCase())`: the column a location name selects. */
  function MatchLoc(name: string): (r: Option<Loc>)
    ensures r.Some? ==> Lower(name) == LocName(r.value)
    ensures r.None? ==> forall l :: Lower(name) != LocName(l)
  {
    var n := Lower(name);
    if n == "lazcano ref 1" then Some(LazcanoRef1)
    else if n == "lazcano ref 2" then Some(LazcanoRef2)
    else if n == "gandia cold storage" then Some(GandiaColdStorage)
    else if n == "gandia ref 1" then Some(GandiaRef1)
    else if n == "gandia ref 2" then Some(GandiaRef2)
    else if n == "limbaga" then Some(Limbaga)
    else if n == "cebu" then Some(Cebu)
    else None
  }

  /** A string without upper-case ASCII letters is its own lower case. */
  lemma LowerOfLowerCase(s: string)
    requires forall i :: 0 <= i < |s| ==> !('A' <= s[i] <= 'Z')
    ensures Lower(s) == s
  {
  }

  /** The seven names are written in lower case. */
  lemma LocNameIsLowerCase(l: Loc)
    ensures Lower(LocName(l)) == LocName(l)
  {
    var s := LocName(l);
    forall i | 0 <= i < |s| ensures !('A' <= s[i] <= 'Z') {
      match l
      case LazcanoRef1 =>
      case LazcanoRef2 =>
      case GandiaColdStorage =>
      case GandiaRef1 =>
      case GandiaRef2 =>
      case Limbaga =>
      case Cebu =>
    }
    LowerOfLowerCase(s);
  }

  /** Each location is selected by its own name, in any letter case. */
  lemma MatchLocFindsEveryLocation(l: Loc, name: string)
    requires EqualsIgnoreCase(name, LocName(l))
    ensures MatchLoc(name) == Some(l)
  {
    LocNameIsLowerCase(l);
  }

  /** isAddition ? quantity : -quantity, on Java ints. */
  function QuantityChange(quantity: int, isAddition: bool): int {
    if isAddition then quantity else Wrap32(0 - quantity)
  }

  /** Math.max(0, cell + quantityChange), the sum wrapping as a Java int. */
  function Adjusted(cell: int, quantity: int, isAddition: bool): (r: int)
    ensures 0 <= r <= MaxInt32
    ensures 0 <= cell <= MaxInt32 && 0 <= quantity <= MaxInt32 && isAddition && cell + quantity <= MaxInt32
            ==> r == cell + quantity
    ensures 0 <= cell <= MaxInt32 && 0 <= quantity <= MaxInt32 && !isAddition
            ==> r == if cell - quantity < 0 then 0 else cell - quantity
  {
    var sum := Wrap32(cell + QuantityChange(quantity, isAddition));
    if sum < 0 then 0 else sum
  }

  /** The row a transaction updates: the matching row, or a fresh zeroed row
      for the brand and description when there is none. */
  function BaseRow(rows: map<string, StockLocator>, entry: TransactionEntry): (r: Result<StockLocator>)
    ensures r.Err? ==> r.error == NonUniqueResult
    ensures FindByBrandAndProductDescription(rows, entry.brand, entry.productDescription) == Ok(None)
            ==> r == Ok(NewStockLocator(entry.brand, entry.productDescription))
    ensures forall k :: FindByBrandAndProductDescription(rows, entry.brand, entry.productDescription) == Ok(Some(k))
                        ==> k in rows && r == Ok(rows[k])
  {
    match FindByBrandAndProductDescription(rows, entry.brand, entry.productDescription)
    case Err(e) => Err(e)
    case Ok(None) => Ok(NewStockLocator(entry.brand, entry.productDescription))
    case Ok(Some(k)) => Ok(rows[k])
  }

  /** updateStockFromTransaction on the table's rows: the rows after the
      save, or the exception thrown before it. */
  function StockUpdate(rows: map<string, StockLocator>, entry: TransactionEntry, isAddition: bool,
                       ctx: Context): Result<map<string, StockLocator>>
  {
    match BaseRow(rows, entry)
    case Err(e) => Err(e)
    case Ok(row) =>
      if entry.quantity.None? || entry.stockLocation.None? then Err(NullPointer)
      else match MatchLoc(entry.stockLocation.value)
        case None => Err(IllegalArgument("Invalid stock location: " + entry.stockLocation.value))
        case Some(l) =>
          if row.Cell(l).None? then Err(NullPointer)
          else
            var moved := row.WithCell(l, Some(Adjusted(row.Cell(l).value, entry.quantity.value, isAddition)));
            match StampName(ctx)
            case Err(e) => Err(e)
            case Ok(name) =>
              Ok(rows[moved.itemCode := moved.(addedBy := Some(name), dateTimeAdded := Some(ctx.now))])
  }

  /** A location name outside the seven is rejected before anything is saved. */
  lemma UnknownLocationRejected(rows: map<string, StockLocator>, entry: TransactionEntry, isAddition: bool, ctx: Context)
    requires BaseRow(rows, entry).Ok? && entry.quantity.Some? && entry.stockLocation.Some?
    requires forall l :: !EqualsIgnoreCase(entry.stockLocation.value, LocName(l))
    ensures StockUpdate(rows, entry, isAddition, ctx)
            == Err(IllegalArgument("Invalid stock location: " + entry.stockLocation.value))
  {
    forall l ensures Lower(LocName(l)) == LocName(l) {
      LocNameIsLowerCase(l);
    }
  }

  /** A successful update saves exactly one row, under the base row's key:
      the selected column becomes max(0, old + change), the other six
      columns, the key, the brand and the description are those of the base
      row, the row carries the actor's name and the call's time, and every
      other row is untouched. */
  lemma OnlySelectedCellChanges(rows: map<string, StockLocator>, entry: TransactionEntry, isAddition: bool, ctx: Context)
    requires StockUpdate(rows, entry, isAddition, ctx).Ok?
    ensures BaseRow(rows, entry).Ok? && entry.quantity.Some? && entry.stockLocation.Some?
    ensures MatchLoc(entry.stockLocation.value).Some? && StampName(ctx).Ok?
    ensures var base := BaseRow(rows, entry).value;
            var l := MatchLoc(entry.stockLocation.value).value;
            var after := StockUpdate(rows, entry, isAddition, ctx).value;
            base.Cell(l).Some?
            && after.Keys == rows.Keys + {base.itemCode}
            && (forall k :: k in rows && k != base.itemCode ==> after[k] == rows[k])
            && after[base.itemCode].Cell(l) == Some(Adjusted(base.Cell(l).value, entry.quantity.value, isAddition))
            && (forall m :: m != l ==> after[base.itemCode].Cell(m) == base.Cell(m))
            && after[base.itemCode].itemCode == base.itemCode
            && after[base.itemCode].brand == base.brand
            && after[base.itemCode].productDescription == base.productDescription
            && after[base.itemCode].addedBy == Some(StampName(ctx).value)
            && after[base.itemCode].dateTimeAdded == Some(ctx.now)
  {
  }

  /** A saved column is never negative. */
  lemma SavedCellNonNegative(rows: map<string, StockLocator>, entry: TransactionEntry, isAddition: bool, ctx: Context)
    requires StockUpdate(rows, entry, isAddition, ctx).Ok?
    ensures var after := StockUpdate(rows, entry, isAddition, ctx).value;
            var k := BaseRow(rows, entry).value.itemCode;
            var l := MatchLoc(entry.stockLocation.value).value;
            k in after && after[k].Cell(l).Some? && after[k].Cell(l).value >= 0
  {
    OnlySelectedCellChanges(rows, entry, isAddition, ctx);
  }

  /** Adding a non-negative quantity raises the column by exactly that
      quantity, as long as the Java int does not overflow. */
  lemma AdditionRaisesByQuantity(rows: map<string, StockLocator>, entry: TransactionEntry, ctx: Context)
    requires StockUpdate(rows, entry, true, ctx).Ok?
    requires var base := BaseRow(rows, entry).value;
             var l := MatchLoc(entry.stockLocation.value).value;
             var q := entry.quantity.value;
             0 <= q && 0 <= base.Cell(l).value && base.Cell(l).value + q <= MaxInt32
    ensures var base := BaseRow(rows, entry).value;
            var l := MatchLoc(entry.stockLocation.value).value;
            StockUpdate(rows, entry, true, ctx).value[base.itemCode].Cell(l).value
            == base.Cell(l).value + entry.quantity.value
  {
    OnlySelectedCellChanges(rows, entry, true, ctx);
  }

  /** With no matching row, even a deduction saves a fresh zeroed row under
      the placeholder key, its selected column clamped at 0. */
  lemma DeductionOnMissingRowSavesZeroRow(rows: map<string, StockLocator>, entry: TransactionEntry, ctx: Context)
    requires FindByBrandAndProductDescription(rows, entry.brand, entry.productDescription) == Ok(None)
    requires StockUpdate(rows, entry, false, ctx).Ok?
    requires 0 <= entry.quantity.value <= MaxInt32
    ensures var after := StockUpdate(rows, entry, false, ctx).value;
            "placeholder" in after
            && (forall l :: after["placeholder"].Cell(l) == Some(0))
            && after["placeholder"].brand == entry.brand
            && after["placeholder"].productDescription == entry.productDescription
  {
    OnlySelectedCellChanges(rows, entry, false, ctx);
  }

  /** The stamp applied by updateStockLocator: the caller's row with only
      addedBy and dateTimeAdded replaced. */
  function Restamped(row: StockLocator, ctx: Context): (r: Result<StockLocator>)
    ensures r.Ok? <==> StampName(ctx).Ok?
    ensures r.Err? ==> r.error == StampName(ctx).error
    ensures r.Ok? ==> r.value == row.(addedBy := Some(StampName(ctx).value), dateTimeAdded := Some(ctx.now))
    ensures r.Ok? ==> forall l :: r.value.Cell(l) == row.Cell(l)
  {
    match StampName(ctx)
    case Err(e) => Err(e)
    case Ok(name) => Ok(row.(addedBy := Some(name), dateTimeAdded := Some(ctx.now)))
  }

  class StockLocatorService {
    const stockLocatorRepository: StockLocatorRepository

    constructor(stockLocatorRepository: StockLocatorRepository)
      ensures this.stockLocatorRepository == stockLocatorRepository
    {
      this.stockLocatorRepository := stockLocatorRepository;
    }

    /** updateStockFromTransaction: find or create the row, move the selected
        column, stamp and save. Every exception is thrown before the save. */
    method UpdateStockFromTransaction(entry: TransactionEntry, isAddition: bool, ctx: Context) returns (r: Result<()>)
      modifies stockLocatorRepository
      ensures match StockUpdate(old(stockLocatorRepository.rows), entry, isAddition, ctx)
              case Ok(rows) => r == Ok(()) && stockLocatorRepository.rows == rows
              case Err(e) => r == Err(e) && stockLocatorRepository.rows == old(stockLocatorRepository.rows)
    {
      var existing := FindByBrandAndProductDescription(stockLocatorRepository.rows, entry.brand, entry.productDescription);
      if existing.Err? {
        return Err(existing.error);
      }
      var row: StockLocator;
      if existing.value.Some? {
        row := stockLocatorRepository.rows[existing.value.value];
      } else {
        row := NewStockLocator(entry.brand, entry.productDescription);
      }
      assert BaseRow(stockLocatorRepository.rows, entry) == Ok(row);
      if entry.quantity.None? {
        return Err(NullPointer);
      }
      var quantityChange := QuantityChange(entry.quantity.value, isAddition);
      if entry.stockLocation.None? {
        return Err(NullPointer);
      }
      var l := MatchLoc(entry.stockLocation.value);
      if l.None? {
        return Err(IllegalArgument("Invalid stock location: " + entry.stockLocation.value));
      }
      var cell := row.Cell(l.value);
      if cell.None? {
        return Err(NullPointer);
      }
      var sum := Wrap32(cell.value + quantityChange);
      assert (if sum < 0 then 0 else sum) == Adjusted(cell.value, entry.quantity.value, isAddition);
      row := row.WithCell(l.value, Some(if sum < 0 then 0 else sum));
      var name := StampName(ctx);
      if name.Err? {
        return Err(name.error);
      }
      row := row.(addedBy := Some(name.value), dateTimeAdded := Some(ctx.now));
      stockLocatorRepository.rows := stockLocatorRepository.rows[row.itemCode := row];
      return Ok(());
    }

    /** updateStockLocator: stamp the caller's row and save it as given. */
    method UpdateStockLocator(row: StockLocator, ctx: Context) returns (r: Result<StockLocator>)
      modifies stockLocatorRepository
      ensures r == Restamped(row, ctx)
      ensures r.Ok? ==> stockLocatorRepository.rows == old(stockLocatorRepository.rows)[row.itemCode := r.value]
      ensures r.Err? ==> stockLocatorRepository.rows == old(stockLocatorRepository.rows)
    {
      var name := StampName(ctx);
      if name.Err? {
        return Err(name.error);
      }
      var stamped := row.(addedBy := Some(name.value), dateTimeAdded := Some(ctx.now));
      stockLocatorRepository.rows := stockLocatorRepository.rows[stamped.itemCode := stamped];
      return Ok(stamped);
    }
  }
}
