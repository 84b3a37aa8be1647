/** TransactionEntryService: the legacy stock-in record. Creating an entry
    mints an item code for its brand and files, under that code, the entry,
    a stock-ledger addition, an inventory record and a purchase order;
    deleting one reverses the ledger movement and removes the order, the
    inventory and the entry. Create, update and delete run in one database
    transaction each: when any step fails, nothing they wrote remains. */
module TransactionEntryService {
  import opened Common
  import opened Strings
  import opened Audit
  import opened Entities
  import opened StockLocatorEntity
  import opened Repositories
  import opened CombinedTrnPOEntity
  import Int32
  import BrandService
  import StockLocatorService

  /** validateTransactionId: a null or whitespace-only id is refused; the id
      is otherwise used as given. */
  function ValidateTransactionId(id: Option<string>): (r: Result<string>)
    ensures r.Err? <==> id.None? || Trim(id.value) == []
    ensures r.Err? ==> r.error == IllegalArgument("Transaction ID cannot be null or empty")
    ensures r.Ok? ==> id == Some(r.value)
  {
    if id.None? || Trim(id.value) == [] then Err(IllegalArgument("Transaction ID cannot be null or empty"))
    else Ok(id.value)
  }

  /** existsById: false for an id the validator would refuse, without
      consulting the table. */
  predicate EntryExists(entries: map<string, TransactionEntry>, id: Option<string>) {
    ValidateTransactionId(id).Ok? && id.value in entries
  }

  /** existsById answers true exactly for a valid id that has an entry. */
  lemma ExistsByIdMeaning(entries: map<string, TransactionEntry>, id: Option<string>)
    ensures EntryExists(entries, id) <==> id.Some? && Trim(id.value) != [] && id.value in entries
  {
  }

  /** setAuditFields: the user's full name and the clock reading. */
  function WithAudit(entry: TransactionEntry, user: User, ctx: Context): (r: TransactionEntry)
    ensures r.addedBy == Some(PlusName(user)) && r.dateTimeAdded == Some(ctx.now)
    ensures r.(addedBy := entry.addedBy, dateTimeAdded := entry.dateTimeAdded) == entry
  {
    entry.(addedBy := Some(PlusName(user)), dateTimeAdded := Some(ctx.now))
  }

  /** The inventory record made for a new entry: its code, brand,
      description, lot, cost and expiry, with the entry's quantity on hand. */
  function InventoryFor(entry: TransactionEntry): (r: Inventory)
    ensures r.inventoryId.None? && r.itemCode == entry.itemCode && r.brand == entry.brand
    ensures r.productDescription == entry.productDescription && r.lotSerialNumber == entry.lotSerialNumber
    ensures r.cost == entry.cost && r.expiryDate == entry.expiryDate && r.quantityOnHand == entry.quantity
  {
    Inventory(None, entry.itemCode, entry.brand, entry.productDescription, entry.lotSerialNumber,
              entry.cost, entry.expiryDate, None, None, entry.quantity, None, None)
  }

  /** inventoryService.addInventory for a saved entry: the record is stamped
      with the acting user and saved under a fresh id. */
  function AddInventorySpec(rows: map<int, Inventory>, nextId: int, entry: TransactionEntry, ctx: Context): (r: Result<SavedInventory>)
    ensures r.Ok? <==> StampName(ctx).Ok?
    ensures r.Err? ==> r.error == StampName(ctx).error
    ensures r.Ok? ==> r.value == SaveInventory(rows, nextId, InventoryFor(entry).(addedBy := Some(StampName(ctx).value),
                                                                                 dateTimeAdded := Some(ctx.now)))
  {
    match StampName(ctx)
    case Err(e) => Err(e)
    case Ok(name) => Ok(SaveInventory(rows, nextId, InventoryFor(entry).(addedBy := Some(name), dateTimeAdded := Some(ctx.now))))
  }

  /** The five tables the service writes. */
  datatype Stores = Stores(
    entries: map<string, TransactionEntry>,
    stock: map<string, StockLocator>,
    inventory: map<int, Inventory>,
    inventoryNextId: int,
    brands: map<int, Brand>,
    brandNextId: int,
    orders: map<string, PurchaseOrder>)

  datatype Filed = Filed(stores: Stores, entry: TransactionEntry)

  /** What createTransactionEntry has established before its first write:
      the new id, the stamped entry and the brand it names. */
  datatype Prepared = Prepared(id: string, entry: TransactionEntry, brand: Brand)

  /** The checks of createTransactionEntry, none of which writes: a valid id
      not yet on file, an acting user, and a brand of the entry's name. */
  function PrepareCreate(s: Stores, form: CombinedTrnPO, ctx: Context): (r: Result<Prepared>)
    ensures r.Ok? ==> ValidateTransactionId(form.drSIReferenceNum) == Ok(r.value.id) && r.value.id !in s.entries
  {
    var entry := form.ToTransactionEntry(ctx.now);
    match ValidateTransactionId(entry.drSiReferenceNum)
    case Err(e) => Err(e)
    case Ok(id) =>
      if id in s.entries then Err(IllegalArgument("Transaction already exists with ID: " + id))
      else match CurrentUser(ctx)
        case Err(e) => Err(e)
        case Ok(user) =>
          var stamped := WithAudit(entry, user, ctx);
          match BrandService.BrandByName(s.brands, stamped.brand)
          case Err(e) => Err(e)
          case Ok(None) => Err(EntityNotFound(None))
          case Ok(Some(brand)) => Ok(Prepared(id, stamped, brand))
  }

  /** The writes of createTransactionEntry: mint the code, then file the
      entry under it. */
  function FileCreate(s: Stores, form: CombinedTrnPO, p: Prepared, ctx: Context): Result<Filed> {
    match BrandService.GenerateItemCodeSpec(s.brands, s.brandNextId, p.brand)
    case Err(e) => Err(e)
    case Ok(minted) => FileMinted(s.(brands := minted.saved.rows, brandNextId := minted.saved.nextId), form, p, minted.code, ctx)
  }

  /** The writes after the code is minted, in order: save the entry under
      the code, add it to the ledger, record the inventory, file the purchase
      order. */
  function FileMinted(s: Stores, form: CombinedTrnPO, p: Prepared, code: string, ctx: Context): Result<Filed> {
    var saved := p.entry.(itemCode := Some(code));
    match StockLocatorService.StockUpdate(s.stock, saved, true, ctx)
    case Err(e) => Err(e)
    case Ok(stock) =>
      match AddInventorySpec(s.inventory, s.inventoryNextId, saved, ctx)
      case Err(e) => Err(e)
      case Ok(inv) =>
        var order := form.ToPurchaseOrder().(itemCode := code, addedBy := saved.addedBy,
                                             dateTimeAdded := saved.dateTimeAdded);
        Ok(Filed(s.(entries := s.entries[p.id := saved], stock := stock, inventory := inv.rows,
                    inventoryNextId := inv.nextId, orders := s.orders[code := order]),
                 saved))
  }

  /** createTransactionEntry on the tables: the stores after the commit and
      the saved entry, or the exception that rolls everything back. */
  function CreateSpec(s: Stores, form: CombinedTrnPO, ctx: Context): Result<Filed> {
    match PrepareCreate(s, form, ctx)
    case Err(e) => Err(e)
    case Ok(p) => FileCreate(s, form, p, ctx)
  }

  /** A reference number already on file is refused before anything is
      written. */
  lemma CreateRejectsExistingId(s: Stores, form: CombinedTrnPO, ctx: Context)
    requires ValidateTransactionId(form.drSIReferenceNum).Ok? && form.drSIReferenceNum.value in s.entries
    ensures CreateSpec(s, form, ctx) == Err(IllegalArgument("Transaction already exists with ID: " + form.drSIReferenceNum.value))
  {
  }

  /** A brand name with no brand behind it is an EntityNotFoundException. */
  lemma CreateRejectsUnknownBrand(s: Stores, form: CombinedTrnPO, ctx: Context)
    requires ValidateTransactionId(form.drSIReferenceNum).Ok? && form.drSIReferenceNum.value !in s.entries
    requires CurrentUser(ctx).Ok?
    requires BrandService.BrandByName(s.brands, form.brand) == Ok(None)
    ensures CreateSpec(s, form, ctx) == Err(EntityNotFound(None))
  {
  }

  /** A successful create files everything under one freshly minted code:
      the entry carries it, the brand's sequence went up by one (as a Java
      int), the ledger received the entry as an addition, a new inventory
      record holds the code, and the purchase order under the code shares
      the entry's author and time. */
  lemma CreateFilesUnderOneCode(s: Stores, form: CombinedTrnPO, ctx: Context)
    requires BrandTableValid(s.brands, s.brandNextId) && InventoryTableValid(s.inventory, s.inventoryNextId)
    requires CreateSpec(s, form, ctx).Ok?
    ensures var f := CreateSpec(s, form, ctx).value;
            var brand := BrandService.BrandByName(s.brands, form.brand).value.value;
            && brand.brandId.Some? && brand.brandId.value in s.brands
            && FiledUnderOneCode(s, form.drSIReferenceNum.value, brand, ctx, f)
  {
    var p := PrepareCreate(s, form, ctx).value;
    assert p.brand == BrandService.BrandByName(s.brands, form.brand).value.value;
    var k :| k in s.brands && s.brands[k] == p.brand;
    FileCreateUnderOneCode(s, form, p, ctx);
  }

  /** What a successful create leaves behind, for the id `id` and the brand
      `brand` it named: the code generateItemCode minted for the brand (its
      current sequence plus one, as a Java int) carried by the entry, the
      brand saved with the new sequence, the ledger given the entry as an
      addition, a new inventory record with the code, and the purchase order
      under the code sharing the entry's author, time, brand and quantity. */
  predicate FiledUnderOneCode(s: Stores, id: string, brand: Brand, ctx: Context, f: Filed) {
    && brand.brandId.Some?
    && BrandService.GenerateItemCodeSpec(s.brands, s.brandNextId, brand).Ok?
    && var minted := BrandService.GenerateItemCodeSpec(s.brands, s.brandNextId, brand).value;
       && f.entry.itemCode == Some(minted.code)
       && f.stores.entries == s.entries[id := f.entry]
       && StockLocatorService.StockUpdate(s.stock, f.entry, true, ctx).Ok?
       && f.stores.stock == StockLocatorService.StockUpdate(s.stock, f.entry, true, ctx).value
       && minted.saved.brand.brandId == brand.brandId
       && f.stores.brands == minted.saved.rows
       && (exists k :: k in f.stores.inventory && k !in s.inventory && f.stores.inventory[k].itemCode == Some(minted.code))
       && minted.code in f.stores.orders
       && f.stores.orders[minted.code].addedBy == f.entry.addedBy
       && f.stores.orders[minted.code].dateTimeAdded == f.entry.dateTimeAdded
       && f.stores.orders[minted.code].brand == f.entry.brand
       && f.stores.orders[minted.code].quantity == f.entry.quantity
  }

  /** The writes of a create, for a brand taken from the table. */
  lemma FileCreateUnderOneCode(s: Stores, form: CombinedTrnPO, p: Prepared, ctx: Context)
    requires BrandTableValid(s.brands, s.brandNextId) && InventoryTableValid(s.inventory, s.inventoryNextId)
    requires p.brand.brandId.Some? && p.brand.brandId.value in s.brands
    requires p.entry.brand == form.brand && p.entry.quantity == form.quantity
    requires FileCreate(s, form, p, ctx).Ok?
    ensures FiledUnderOneCode(s, p.id, p.brand, ctx, FileCreate(s, form, p, ctx).value)
  {
    var f := FileCreate(s, form, p, ctx).value;
    var inv := AddInventorySpec(s.inventory, s.inventoryNextId, f.entry, ctx).value;
    var k := inv.inventory.inventoryId.value;
    assert k in f.stores.inventory && k !in s.inventory && f.stores.inventory[k].itemCode == f.entry.itemCode;
  }

  /** updateTransactionEntry on the tables. The ledger gets the NEW quantity,
      as an addition when the old quantity was larger and as a deduction
      otherwise. */
  function UpdateSpec(s: Stores, entry: TransactionEntry, ctx: Context): Result<Filed> {
    match ValidateTransactionId(entry.drSiReferenceNum)
    case Err(e) => Err(e)
    case Ok(id) =>
      if id !in s.entries then Err(IllegalArgument("Transaction not found with ID: " + id))
      else
        var previous := s.entries[id].quantity;
        match CurrentUser(ctx)
        case Err(e) => Err(e)
        case Ok(user) =>
          var saved := WithAudit(entry, user, ctx);
          if previous.None? || saved.quantity.None? then Err(NullPointer)
          else match StockLocatorService.StockUpdate(s.stock, saved, previous.value > saved.quantity.value, ctx)
            case Err(e) => Err(e)
            case Ok(stock) => Ok(Filed(s.(entries := s.entries[id := saved], stock := stock), saved))
  }

  /** Updating needs an entry on file. */
  lemma UpdateRequiresExistingId(s: Stores, entry: TransactionEntry, ctx: Context)
    requires ValidateTransactionId(entry.drSiReferenceNum).Ok? && entry.drSiReferenceNum.value !in s.entries
    ensures UpdateSpec(s, entry, ctx) == Err(IllegalArgument("Transaction not found with ID: " + entry.drSiReferenceNum.value))
  {
  }

  /** A successful update replaces the entry, moves the ledger by the new
      quantity in the direction the old/new comparison picks, and writes no
      other table. */
  lemma UpdateMovesByNewQuantity(s: Stores, entry: TransactionEntry, ctx: Context)
    requires UpdateSpec(s, entry, ctx).Ok?
    ensures var f := UpdateSpec(s, entry, ctx).value;
            var id := entry.drSiReferenceNum.value;
            && id in s.entries && s.entries[id].quantity.Some? && entry.quantity.Some?
            && f.entry == WithAudit(entry, CurrentUser(ctx).value, ctx)
            && f.stores.entries == s.entries[id := f.entry]
            && f.stores.stock == StockLocatorService.StockUpdate(s.stock, f.entry,
                                   s.entries[id].quantity.value > entry.quantity.value, ctx).value
            && f.stores.inventory == s.inventory && f.stores.brands == s.brands && f.stores.orders == s.orders
  {
  }

  /** deleteTransactionEntry on the tables: deduct the entry's quantity from
      the ledger, then remove the purchase order and the inventory under its
      code and the entry itself. */
  function DeleteSpec(s: Stores, id: Option<string>, ctx: Context): Result<Stores> {
    match ValidateTransactionId(id)
    case Err(e) => Err(e)
    case Ok(key) =>
      if key !in s.entries then Err(IllegalArgument("Transaction not found with ID: " + key))
      else
        var entry := s.entries[key];
        match StockLocatorService.StockUpdate(s.stock, entry, false, ctx)
        case Err(e) => Err(e)
        case Ok(stock) =>
          if entry.itemCode.None? then Err(IllegalArgument("The given id must not be null"))
          else Ok(s.(stock := stock, orders := s.orders - {entry.itemCode.value},
                     inventory := DeleteByItemCode(s.inventory, (i: Inventory) => i.itemCode, entry.itemCode),
                     entries := s.entries - {key}))
  }

  /** After a successful delete the entry, the order under its code and every
      inventory record with its code are gone, the ledger got the entry's
      quantity back as a deduction, and the brand table is untouched. */
  lemma DeleteRemovesEverythingUnderCode(s: Stores, id: Option<string>, ctx: Context)
    requires DeleteSpec(s, id, ctx).Ok?
    ensures var after := DeleteSpec(s, id, ctx).value;
            var entry := s.entries[id.value];
            && id.value in s.entries && entry.itemCode.Some?
            && id.value !in after.entries
            && (forall k :: k in after.entries ==> k in s.entries && after.entries[k] == s.entries[k])
            && entry.itemCode.value !in after.orders
            && (forall k :: k in after.inventory ==> after.inventory[k].itemCode != entry.itemCode)
            && after.stock == StockLocatorService.StockUpdate(s.stock, entry, false, ctx).value
            && after.brands == s.brands
  {
  }

  /** Once created, an entry exists; once deleted, it does not. */
  lemma CreateThenDeleteExistence(s: Stores, form: CombinedTrnPO, ctx: Context)
    requires CreateSpec(s, form, ctx).Ok?
    ensures EntryExists(CreateSpec(s, form, ctx).value.stores.entries, form.drSIReferenceNum)
    ensures var t := CreateSpec(s, form, ctx).value.stores;
            DeleteSpec(t, form.drSIReferenceNum, ctx).Ok? ==>
              !EntryExists(DeleteSpec(t, form.drSIReferenceNum, ctx).value.entries, form.drSIReferenceNum)
  {
    CreateSavesEntry(s, form, ctx);
    var t := CreateSpec(s, form, ctx).value.stores;
    if DeleteSpec(t, form.drSIReferenceNum, ctx).Ok? {
      DeleteRemovesEverythingUnderCode(t, form.drSIReferenceNum, ctx);
    }
  }

  /** A successful create stores the entry under its reference number. */
  lemma CreateSavesEntry(s: Stores, form: CombinedTrnPO, ctx: Context)
    requires CreateSpec(s, form, ctx).Ok?
    ensures ValidateTransactionId(form.drSIReferenceNum).Ok?
    ensures CreateSpec(s, form, ctx).value.stores.entries
            == s.entries[form.drSIReferenceNum.value := CreateSpec(s, form, ctx).value.entry]
  {
    var p := PrepareCreate(s, form, ctx).value;
    assert CreateSpec(s, form, ctx) == FileCreate(s, form, p, ctx);
    FileCreateSavesEntry(s, form, p, ctx);
  }

  lemma FileCreateSavesEntry(s: Stores, form: CombinedTrnPO, p: Prepared, ctx: Context)
    requires FileCreate(s, form, p, ctx).Ok?
    ensures FileCreate(s, form, p, ctx).value.stores.entries == s.entries[p.id := FileCreate(s, form, p, ctx).value.entry]
  {
  }

  /** deleteTransactionEntryByCode as it is meant to run, inside one
      transaction: look the entry up by its item code (Optional.get on no
      match), deduct its quantity, remove every entry with the code. */
  function DeleteByCodeSpec(s: Stores, code: Option<string>, ctx: Context): Result<Stores> {
    match ValidateTransactionId(code)
    case Err(e) => Err(e)
    case Ok(c) =>
      match FindEntryByItemCode(s.entries, Some(c))
      case Err(e) => Err(e)
      case Ok(None) => Err(NoSuchElement)
      case Ok(Some(key)) =>
        match StockLocatorService.StockUpdate(s.stock, s.entries[key], false, ctx)
        case Err(e) => Err(e)
        case Ok(stock) => Ok(s.(stock := stock, entries := DeleteByItemCode(s.entries, (e: TransactionEntry) => e.itemCode, Some(c))))
  }

  /** A code no entry carries fails with NoSuchElementException; a
      successful delete deducts the found entry's quantity, leaves no entry
      with the code and touches only the ledger and the entries. */
  lemma DeleteByCodeMeaning(s: Stores, code: Option<string>, ctx: Context)
    ensures ValidateTransactionId(code).Ok? && (forall k :: k in s.entries ==> s.entries[k].itemCode != code)
            ==> DeleteByCodeSpec(s, code, ctx) == Err(NoSuchElement)
    ensures DeleteByCodeSpec(s, code, ctx).Ok? ==>
              var after := DeleteByCodeSpec(s, code, ctx).value;
              var key := FindEntryByItemCode(s.entries, code).value.value;
              && key in s.entries && s.entries[key].itemCode == code
              && after.stock == StockLocatorService.StockUpdate(s.stock, s.entries[key], false, ctx).value
              && (forall k :: k in after.entries ==> after.entries[k].itemCode != code)
              && (forall k :: k in s.entries && s.entries[k].itemCode != code ==> k in after.entries)
              && after.inventory == s.inventory && after.orders == s.orders && after.brands == s.brands
  {
  }

  /** Once a delete by code has succeeded, repeating it fails with
      NoSuchElementException: the quantity is deducted once. */
  lemma DeleteByCodeRetryRefused(s: Stores, code: Option<string>, ctx: Context)
    requires DeleteByCodeSpec(s, code, ctx).Ok?
    ensures DeleteByCodeSpec(DeleteByCodeSpec(s, code, ctx).value, code, ctx) == Err(NoSuchElement)
  {
    DeleteByCodeMeaning(s, code, ctx);
    DeleteByCodeMeaning(DeleteByCodeSpec(s, code, ctx).value, code, ctx);
  }

  /** What a call that is not transactional leaves written, and how it ends. */
  datatype Attempt = Attempt(stores: Stores, result: Result<()>)

  /** deleteTransactionEntryByCode as written: the method is not
      @Transactional, so the ledger save commits on its own, and the derived
      deleteByItemCode query, which needs a transaction, then throws. */
  function DeleteByCodeAsWritten(s: Stores, code: Option<string>, ctx: Context): (r: Attempt)
    ensures r.result.Err?
    ensures r.stores == s.(stock := r.stores.stock)
    ensures r.stores.stock != s.stock ==> r.result == Err(TransactionRequired)
  {
    match ValidateTransactionId(code)
    case Err(e) => Attempt(s, Err(e))
    case Ok(c) =>
      match FindEntryByItemCode(s.entries, Some(c))
      case Err(e) => Attempt(s, Err(e))
      case Ok(None) => Attempt(s, Err(NoSuchElement))
      case Ok(Some(key)) =>
        match StockLocatorService.StockUpdate(s.stock, s.entries[key], false, ctx)
        case Err(e) => Attempt(s, Err(e))
        case Ok(stock) => Attempt(s.(stock := stock), Err(TransactionRequired))
  }

  /** Where the intended delete succeeds, the call as written fails after
      the deduction: the ledger is the intended one, the entries are not. */
  lemma AsWrittenKeepsDeduction(s: Stores, code: Option<string>, ctx: Context)
    requires DeleteByCodeSpec(s, code, ctx).Ok?
    ensures var a := DeleteByCodeAsWritten(s, code, ctx);
            a.result == Err(TransactionRequired)
            && a.stores.stock == DeleteByCodeSpec(s, code, ctx).value.stock
            && a.stores.entries == s.entries
  {
  }

  /** A retry of the call as written finds the same entry and deducts its
      quantity a second time. */
  lemma AsWrittenRetryDeductsAgain(s: Stores, code: Option<string>, ctx: Context)
    requires DeleteByCodeSpec(s, code, ctx).Ok?
    ensures var t := DeleteByCodeAsWritten(s, code, ctx).stores;
            var entry := s.entries[FindEntryByItemCode(s.entries, code).value.value];
            StockLocatorService.StockUpdate(t.stock, entry, false, ctx).Ok? ==>
              DeleteByCodeAsWritten(t, code, ctx)
              == Attempt(t.(stock := StockLocatorService.StockUpdate(t.stock, entry, false, ctx).value), Err(TransactionRequired))
  {
    AsWrittenKeepsDeduction(s, code, ctx);
  }

  class TransactionEntryService {
    const transactionEntryRepository: TransactionEntryRepository
    const stockLocatorService: StockLocatorService.StockLocatorService
    const inventoryRepository: InventoryRepository
    const brandService: BrandService.BrandService
    const purchaseOrderRepository: PurchaseOrderRepository

    constructor(transactionEntryRepository: TransactionEntryRepository,
                stockLocatorService: StockLocatorService.StockLocatorService,
                inventoryRepository: InventoryRepository,
                brandService: BrandService.BrandService,
                purchaseOrderRepository: PurchaseOrderRepository)
      ensures this.transactionEntryRepository == transactionEntryRepository
      ensures this.stockLocatorService == stockLocatorService
      ensures this.inventoryRepository == inventoryRepository
      ensures this.brandService == brandService
      ensures this.purchaseOrderRepository == purchaseOrderRepository
    {
      this.transactionEntryRepository := transactionEntryRepository;
      this.stockLocatorService := stockLocatorService;
      this.inventoryRepository := inventoryRepository;
      this.brandService := brandService;
      this.purchaseOrderRepository := purchaseOrderRepository;
    }

    /** The contents of the five tables. */
    function Tables(): Stores
      reads transactionEntryRepository, stockLocatorService.stockLocatorRepository, inventoryRepository,
            brandService.brandRepository, purchaseOrderRepository
    {
      Stores(transactionEntryRepository.rows, stockLocatorService.stockLocatorRepository.rows,
             inventoryRepository.rows, inventoryRepository.nextId,
             brandService.brandRepository.rows, brandService.brandRepository.nextId,
             purchaseOrderRepository.rows)
    }

    /** Roll back: put every table back as it was at the start. */
    method Restore(saved: Stores)
      modifies transactionEntryRepository, stockLocatorService.stockLocatorRepository, inventoryRepository,
               brandService.brandRepository, purchaseOrderRepository
      ensures Tables() == saved
    {
      transactionEntryRepository.rows := saved.entries;
      stockLocatorService.stockLocatorRepository.rows := saved.stock;
      inventoryRepository.rows, inventoryRepository.nextId := saved.inventory, saved.inventoryNextId;
      brandService.brandRepository.rows, brandService.brandRepository.nextId := saved.brands, saved.brandNextId;
      purchaseOrderRepository.rows := saved.orders;
    }

    /** createTransactionEntry: the checks, then the writes. */
    method CreateTransactionEntry(form: CombinedTrnPO, ctx: Context) returns (r: Result<TransactionEntry>)
      modifies transactionEntryRepository, stockLocatorService.stockLocatorRepository, inventoryRepository,
               brandService.brandRepository, purchaseOrderRepository
      ensures match CreateSpec(old(Tables()), form, ctx)
              case Ok(f) => r == Ok(f.entry) && Tables() == f.stores
              case Err(e) => r == Err(e) && Tables() == old(Tables())
    {
      var entry := form.ToTransactionEntry(ctx.now);
      var id := ValidateTransactionId(entry.drSiReferenceNum);
      if id.Err? {
        return Err(id.error);
      }
      if id.value in transactionEntryRepository.rows {
        return Err(IllegalArgument("Transaction already exists with ID: " + id.value));
      }
      var user := CurrentUser(ctx);
      if user.Err? {
        return Err(user.error);
      }
      entry := WithAudit(entry, user.value, ctx);
      var brand := BrandService.BrandByName(brandService.brandRepository.rows, entry.brand);
      if brand.Err? {
        return Err(brand.error);
      }
      if brand.value.None? {
        return Err(EntityNotFound(None));
      }
      assert PrepareCreate(Tables(), form, ctx) == Ok(Prepared(id.value, entry, brand.value.value));
      r := FileEntry(form, Prepared(id.value, entry, brand.value.value), ctx);
    }

    /** The writes of createTransactionEntry, undone together when one of
        them fails. */
    method FileEntry(form: CombinedTrnPO, p: Prepared, ctx: Context) returns (r: Result<TransactionEntry>)
      modifies transactionEntryRepository, stockLocatorService.stockLocatorRepository, inventoryRepository,
               brandService.brandRepository, purchaseOrderRepository
      ensures match FileCreate(old(Tables()), form, p, ctx)
              case Ok(f) => r == Ok(f.entry) && Tables() == f.stores
              case Err(e) => r == Err(e) && Tables() == old(Tables())
    {
      var start := Tables();
      var minted := brandService.GenerateItemCode(p.brand);
      if minted.Err? {
        return Err(minted.error);
      }
      r := FileUnderCode(form, p, minted.value.1, ctx, start);
    }

    /** The writes after the code is minted; a failure restores `start`. */
    method FileUnderCode(form: CombinedTrnPO, p: Prepared, code: string, ctx: Context, start: Stores)
      returns (r: Result<TransactionEntry>)
      modifies transactionEntryRepository, stockLocatorService.stockLocatorRepository, inventoryRepository,
               brandService.brandRepository, purchaseOrderRepository
      ensures match FileMinted(old(Tables()), form, p, code, ctx)
              case Ok(f) => r == Ok(f.entry) && Tables() == f.stores
              case Err(e) => r == Err(e) && Tables() == start
    {
      var entry := p.entry.(itemCode := Some(code));
      transactionEntryRepository.rows := transactionEntryRepository.rows[p.id := entry];
      var moved := stockLocatorService.UpdateStockFromTransaction(entry, true, ctx);
      if moved.Err? {
        Restore(start);
        return Err(moved.error);
      }
      var inv := AddInventorySpec(inventoryRepository.rows, inventoryRepository.nextId, entry, ctx);
      if inv.Err? {
        Restore(start);
        return Err(inv.error);
      }
      inventoryRepository.rows, inventoryRepository.nextId := inv.value.rows, inv.value.nextId;
      var order := form.ToPurchaseOrder().(itemCode := code, addedBy := entry.addedBy, dateTimeAdded := entry.dateTimeAdded);
      purchaseOrderRepository.rows := purchaseOrderRepository.rows[code := order];
      return Ok(entry);
    }

    /** updateTransactionEntry. */
    method UpdateTransactionEntry(entry: TransactionEntry, ctx: Context) returns (r: Result<TransactionEntry>)
      modifies transactionEntryRepository, stockLocatorService.stockLocatorRepository
      ensures match UpdateSpec(old(Tables()), entry, ctx)
              case Ok(f) => r == Ok(f.entry) && Tables() == f.stores
              case Err(e) => r == Err(e) && Tables() == old(Tables())
    {
      var id := ValidateTransactionId(entry.drSiReferenceNum);
      if id.Err? {
        return Err(id.error);
      }
      if id.value !in transactionEntryRepository.rows {
        return Err(IllegalArgument("Transaction not found with ID: " + id.value));
      }
      var previous := transactionEntryRepository.rows[id.value].quantity;
      var user := CurrentUser(ctx);
      if user.Err? {
        return Err(user.error);
      }
      var saved := WithAudit(entry, user.value, ctx);
      var entries := transactionEntryRepository.rows;
      transactionEntryRepository.rows := entries[id.value := saved];
      if previous.None? || saved.quantity.None? {
        transactionEntryRepository.rows := entries;
        return Err(NullPointer);
      }
      var moved := stockLocatorService.UpdateStockFromTransaction(saved, previous.value > saved.quantity.value, ctx);
      if moved.Err? {
        transactionEntryRepository.rows := entries;
        return Err(moved.error);
      }
      return Ok(saved);
    }

    /** deleteTransactionEntry. */
    method DeleteTransactionEntry(id: Option<string>, ctx: Context) returns (r: Result<()>)
      modifies stockLocatorService.stockLocatorRepository, purchaseOrderRepository, inventoryRepository,
               transactionEntryRepository
      ensures match DeleteSpec(old(Tables()), id, ctx)
              case Ok(after) => r == Ok(()) && Tables() == after
              case Err(e) => r == Err(e) && Tables() == old(Tables())
    {
      var key := ValidateTransactionId(id);
      if key.Err? {
        return Err(key.error);
      }
      if key.value !in transactionEntryRepository.rows {
        return Err(IllegalArgument("Transaction not found with ID: " + key.value));
      }
      var entry := transactionEntryRepository.rows[key.value];
      var stock := stockLocatorService.stockLocatorRepository.rows;
      var moved := stockLocatorService.UpdateStockFromTransaction(entry, false, ctx);
      if moved.Err? {
        return Err(moved.error);
      }
      if entry.itemCode.None? {
        stockLocatorService.stockLocatorRepository.rows := stock;
        return Err(IllegalArgument("The given id must not be null"));
      }
      purchaseOrderRepository.rows := purchaseOrderRepository.rows - {entry.itemCode.value};
      inventoryRepository.rows := DeleteByItemCode(inventoryRepository.rows, (i: Inventory) => i.itemCode, entry.itemCode);
      transactionEntryRepository.rows := transactionEntryRepository.rows - {key.value};
      return Ok(());
    }

    /** deleteTransactionEntryByCode run inside a transaction, the corrected
        form of DeleteByCodeAsWritten: on failure nothing stays written. */
    method DeleteTransactionEntryByCode(code: Option<string>, ctx: Context) returns (r: Result<()>)
      modifies stockLocatorService.stockLocatorRepository, transactionEntryRepository
      ensures match DeleteByCodeSpec(old(Tables()), code, ctx)
              case Ok(after) => r == Ok(()) && Tables() == after
              case Err(e) => r == Err(e) && Tables() == old(Tables())
    {
      var c := ValidateTransactionId(code);
      if c.Err? {
        return Err(c.error);
      }
      var found := FindEntryByItemCode(transactionEntryRepository.rows, Some(c.value));
      if found.Err? {
        return Err(found.error);
      }
      if found.value.None? {
        return Err(NoSuchElement);
      }
      var moved := stockLocatorService.UpdateStockFromTransaction(transactionEntryRepository.rows[found.value.value], false, ctx);
      if moved.Err? {
        return Err(moved.error);
      }
      transactionEntryRepository.rows := DeleteByItemCode(transactionEntryRepository.rows, (e: TransactionEntry) => e.itemCode, Some(c.value));
      return Ok(());
    }

    /** existsById. */
    method ExistsById(id: Option<string>) returns (r: bool)
      ensures r == EntryExists(transactionEntryRepository.rows, id)
    {
      if id.None? || Trim(id.value) == [] {
        return false;
      }
      return id.value in transactionEntryRepository.rows;
    }
  }
}
