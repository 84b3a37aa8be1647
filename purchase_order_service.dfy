/** PurchaseOrderService: purchase orders filed under an item code built from
    the brand's abbreviation and its current sequence number, stamped with the
    acting user and the time. */
module PurchaseOrderService {
  import opened Common
  import opened Numbers
  import opened Audit
  import opened Entities
  import opened Repositories
  import BrandService

  /** addPurchaseOrder as a function of the brand table: the user is looked
      up first, then the brand by the order's brand name; the order gets the
      code of the brand's CURRENT sequence (the sequence is not advanced), the
      acting user's name and the clock reading. The result is the order as
      saved. */
  function AddPurchaseOrderSpec(brands: map<int, Brand>, order: PurchaseOrder, ctx: Context): (r: Result<PurchaseOrder>)
    ensures ActorId(ctx).None? ==> r == Err(NumberFormat(Show(ctx.authName)))
    ensures ActorId(ctx).Some? ==>
              (BrandService.BrandByName(brands, order.brand).Err? ==> r == Err(BrandService.BrandByName(brands, order.brand).error))
    ensures ActorId(ctx).Some? && BrandService.BrandByName(brands, order.brand) == Ok(None) ==> r == Err(NullPointer)
    ensures r.Ok? <==> StampName(ctx).Ok? && BrandService.BrandByName(brands, order.brand).Ok?
                       && BrandService.BrandByName(brands, order.brand).value.Some?
    ensures r.Ok? ==> var b := BrandService.BrandByName(brands, order.brand).value.value;
                      r.value == order.(itemCode := BrandService.ItemCode(b.abbreviation, b.latestSequence),
                                        addedBy := Some(StampName(ctx).value), dateTimeAdded := Some(ctx.now))
  {
    match LookUpUser(ctx)
    case Err(e) => Err(e)
    case Ok(_) =>
      match BrandService.BrandByName(brands, order.brand)
      case Err(e) => Err(e)
      case Ok(None) => Err(NullPointer)
      case Ok(Some(b)) =>
        match StampName(ctx)
        case Err(e) => Err(e)
        case Ok(name) =>
          Ok(order.(itemCode := BrandService.ItemCode(b.abbreviation, b.latestSequence),
                    addedBy := Some(name), dateTimeAdded := Some(ctx.now)))
  }

  /** The test's brand: abbreviation "TST" at sequence 1 files its orders
      under "TST0001". */
  lemma TestBrandCode()
    ensures BrandService.ItemCode(Some("TST"), Some(1)) == "TST0001"
  {
    assert Digits(1) == "1";
    assert Zeros(3) == "000";
    assert Format04(1) == "0001";
  }

  /** Two addPurchaseOrder calls against the same brand table, for orders of
      the same brand, file them under the same item code: the sequence is
      read, never advanced. */
  lemma AddsForOneBrandShareCode(brands: map<int, Brand>, first: PurchaseOrder, second: PurchaseOrder,
                                 ctx1: Context, ctx2: Context)
    requires first.brand == second.brand
    requires AddPurchaseOrderSpec(brands, first, ctx1).Ok? && AddPurchaseOrderSpec(brands, second, ctx2).Ok?
    ensures AddPurchaseOrderSpec(brands, first, ctx1).value.itemCode == AddPurchaseOrderSpec(brands, second, ctx2).value.itemCode
  {
  }

  /** The code of an added order is the one generateItemCode RETURNED for the
      brand's current sequence: adding after generating reuses the last
      generated code. */
  lemma AddReusesLastGeneratedCode(rows: map<int, Brand>, nextId: int, brand: Brand, order: PurchaseOrder, ctx: Context)
    requires BrandTableValid(rows, nextId)
    requires BrandService.GenerateItemCodeSpec(rows, nextId, brand).Ok?
    requires var minted := BrandService.GenerateItemCodeSpec(rows, nextId, brand).value;
             BrandService.BrandByName(minted.saved.rows, order.brand) == Ok(Some(minted.saved.brand))
    requires StampName(ctx).Ok?
    ensures var minted := BrandService.GenerateItemCodeSpec(rows, nextId, brand).value;
            AddPurchaseOrderSpec(minted.saved.rows, order, ctx).Ok?
            && AddPurchaseOrderSpec(minted.saved.rows, order, ctx).value.itemCode == minted.code
  {
  }

  /** updatePurchaseOrder: no existence check; only the audit stamp changes
      before the order is saved. */
  function UpdatePurchaseOrderSpec(order: PurchaseOrder, ctx: Context): (r: Result<PurchaseOrder>)
    ensures r.Ok? <==> StampName(ctx).Ok?
    ensures r.Err? ==> r.error == StampName(ctx).error
    ensures r.Ok? ==> r.value.addedBy == Some(StampName(ctx).value) && r.value.dateTimeAdded == Some(ctx.now)
    ensures r.Ok? ==> r.value.(addedBy := order.addedBy, dateTimeAdded := order.dateTimeAdded) == order
  {
    match StampName(ctx)
    case Err(e) => Err(e)
    case Ok(name) => Ok(order.(addedBy := Some(name), dateTimeAdded := Some(ctx.now)))
  }

  /** getPurchaseOrderByCode: empty exactly when there is no order under the
      code. */
  function PurchaseOrderByCode(rows: map<string, PurchaseOrder>, code: string): (r: Option<PurchaseOrder>)
    ensures r.None? <==> code !in rows
    ensures r.Some? ==> r.value == rows[code]
  {
    if code in rows then Some(rows[code]) else None
  }

  class PurchaseOrderService {
    const purchaseOrderRepository: PurchaseOrderRepository
    const brandService: BrandService.BrandService

    constructor(purchaseOrderRepository: PurchaseOrderRepository, brandService: BrandService.BrandService)
      ensures this.purchaseOrderRepository == purchaseOrderRepository && this.brandService == brandService
    {
      this.purchaseOrderRepository := purchaseOrderRepository;
      this.brandService := brandService;
    }

    /** addPurchaseOrder. The brand table is only read. */
    method AddPurchaseOrder(order: PurchaseOrder, ctx: Context) returns (r: Result<PurchaseOrder>)
      modifies purchaseOrderRepository
      ensures r == AddPurchaseOrderSpec(brandService.brandRepository.rows, order, ctx)
      ensures r.Ok? ==> purchaseOrderRepository.rows == old(purchaseOrderRepository.rows)[r.value.itemCode := r.value]
      ensures r.Err? ==> purchaseOrderRepository.rows == old(purchaseOrderRepository.rows)
    {
      var user := LookUpUser(ctx);
      if user.Err? {
        return Err(user.error);
      }
      var brand := BrandService.BrandByName(brandService.brandRepository.rows, order.brand);
      if brand.Err? {
        return Err(brand.error);
      }
      if brand.value.None? {
        return Err(NullPointer);
      }
      var b := brand.value.value;
      var filed := order.(itemCode := BrandService.ItemCode(b.abbreviation, b.latestSequence));
      var name := StampName(ctx);
      if name.Err? {
        return Err(name.error);
      }
      filed := filed.(addedBy := Some(name.value), dateTimeAdded := Some(ctx.now));
      purchaseOrderRepository.rows := purchaseOrderRepository.rows[filed.itemCode := filed];
      return Ok(filed);
    }

    /** updatePurchaseOrder: stamp and save, replacing any order under the
        same code and inserting one otherwise. */
    method UpdatePurchaseOrder(order: PurchaseOrder, ctx: Context) returns (r: Result<PurchaseOrder>)
      modifies purchaseOrderRepository
      ensures r == UpdatePurchaseOrderSpec(order, ctx)
      ensures r.Ok? ==> purchaseOrderRepository.rows == old(purchaseOrderRepository.rows)[order.itemCode := r.value]
      ensures r.Err? ==> purchaseOrderRepository.rows == old(purchaseOrderRepository.rows)
    {
      var name := StampName(ctx);
      if name.Err? {
        return Err(name.error);
      }
      var stamped := order.(addedBy := Some(name.value), dateTimeAdded := Some(ctx.now));
      purchaseOrderRepository.rows := purchaseOrderRepository.rows[stamped.itemCode := stamped];
      return Ok(stamped);
    }

    /** getPurchaseOrderByCode. */
    method GetPurchaseOrderByCode(code: string) returns (r: Option<PurchaseOrder>)
      ensures r == PurchaseOrderByCode(purchaseOrderRepository.rows, code)
    {
      if code in purchaseOrderRepository.rows {
        r := Some(purchaseOrderRepository.rows[code]);
      } else {
        r := None;
      }
    }

    /** deletePurchaseOrder: deleteById, which ignores an unknown code. */
    method DeletePurchaseOrder(code: string)
      modifies purchaseOrderRepository
      ensures purchaseOrderRepository.rows == old(purchaseOrderRepository.rows) - {code}
    {
      purchaseOrderRepository.rows := purchaseOrderRepository.rows - {code};
    }
  }
}
