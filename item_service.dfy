/** ItemService: items keyed by their code, and the inventory record an added
    item is merged into. None of its operations is transactional, so a
    failure after the inventory write leaves that write in place. */
module ItemService {
  import opened Common
  import opened Int32
  import opened Audit
  import opened Entities
  import opened Repositories

  /** The two tables the service writes. */
  datatype ItemStores = ItemStores(items: map<string, Item>, inventory: map<int, Inventory>, inventoryNextId: int)

  /** What a non-transactional call leaves behind: the stores, and what it
      returned or threw. */
  datatype Outcome<T> = Outcome(stores: ItemStores, result: Result<T>)

  /** The message Hibernate gives when an entity with an assigned id is saved
      without one. */
  const ManualIdMessage := "ids for this class must be manually assigned before calling save()"

  /** Adding two `Integer`s: unboxing a null throws, and the sum wraps. */
  function BoxedSum(a: Option<int>, b: Option<int>): (r: Result<int>)
    ensures r.Ok? <==> a.Some? && b.Some?
    ensures r.Err? ==> r.error == NullPointer
    ensures r.Ok? ==> IsInt32(r.value) && (r.value - (a.value + b.value)) % Modulus == 0
    ensures r.Ok? && IsInt32(a.value + b.value) ==> r.value == a.value + b.value
  {
    if a.None? || b.None? then Err(NullPointer) else Ok(Wrap32(a.value + b.value))
  }

  /** The placeholder inventory record addItem fills from the stamped item. */
  function Placeholder(item: Item, quantity: int): Inventory {
    Inventory(None, item.itemCode, item.brand, None, None, None, None, None, None, Some(quantity),
              item.addedBy, item.dateTimeAdded)
  }

  /** The record addItem writes, given what inventoryExists answered: a new
      record holding the item's stock for 0, otherwise that record's id with
      the item's stock added to itself. */
  function MergedInventory(item: Item, total: int, inventoryId: int): (r: Inventory)
    ensures r.itemCode == item.itemCode && r.brand == item.brand
    ensures r.addedBy == item.addedBy && r.dateTimeAdded == item.dateTimeAdded
    ensures inventoryId == 0 ==> r.inventoryId.None? && r.quantityOnHand == Some(total)
    ensures inventoryId != 0 ==> r.inventoryId == Some(inventoryId) && r.quantityOnHand.Some?
                                 && IsInt32(r.quantityOnHand.value)
                                 && (r.quantityOnHand.value - 2 * total) % Modulus == 0
  {
    if inventoryId == 0 then Placeholder(item, total)
    else Placeholder(item, Wrap32(total + total)).(inventoryId := Some(inventoryId))
  }

  /** The item as addItem and updateItem stamp it. */
  function Stamped(item: Item, name: string, ctx: Context): Item {
    item.(addedBy := Some(name), dateTimeAdded := Some(ctx.now))
  }

  /** addItem. `inventoryId` is what inventoryService.inventoryExists returns
      for the placeholder (that method is not part of this model; null
      unboxes to a NullPointerException). addInventory and updateInventory
      stamp the record again with the same user and clock reading, so their
      stamp is the item's. */
  function AddItemSpec(s: ItemStores, item: Item, inventoryId: Option<int>, ctx: Context): (r: Outcome<Item>)
    ensures StampName(ctx).Err? ==> r == Outcome(s, Err(StampName(ctx).error))
    ensures r.result.Ok? <==> (StampName(ctx).Ok? && item.stocksCebu.Some? && item.stocksManila.Some?
                               && inventoryId.Some? && item.itemCode.Some?)
    ensures r.result.Ok? ==> (r.result.value == Stamped(item, StampName(ctx).value, ctx)
                              && r.stores.items == s.items[item.itemCode.value := r.result.value])
  {
    match StampName(ctx)
    case Err(e) => Outcome(s, Err(e))
    case Ok(name) =>
      var stamped := Stamped(item, name, ctx);
      match BoxedSum(stamped.stocksCebu, stamped.stocksManila)
      case Err(e) => Outcome(s, Err(e))
      case Ok(total) =>
        if inventoryId.None? then Outcome(s, Err(NullPointer))
        else
          var saved := SaveInventory(s.inventory, s.inventoryNextId, MergedInventory(stamped, total, inventoryId.value));
          var merged := s.(inventory := saved.rows, inventoryNextId := saved.nextId);
          if stamped.itemCode.None? then Outcome(merged, Err(Persistence(ManualIdMessage)))
          else Outcome(merged.(items := merged.items[stamped.itemCode.value := stamped]), Ok(stamped))
  }

  /** The inventory written by addItem carries the item's code, brand and
      stamp, and holds cebu + manila for a new record or twice that for an
      existing one, as a Java int. */
  lemma AddItemMergesInventory(s: ItemStores, item: Item, inventoryId: Option<int>, ctx: Context)
    requires InventoryTableValid(s.inventory, s.inventoryNextId)
    requires StampName(ctx).Ok? && item.stocksCebu.Some? && item.stocksManila.Some? && inventoryId.Some?
    ensures var r := AddItemSpec(s, item, inventoryId, ctx);
            var stock := item.stocksCebu.value + item.stocksManila.value;
            exists k :: k in r.stores.inventory
                        && r.stores.inventory[k].itemCode == item.itemCode
                        && r.stores.inventory[k].brand == item.brand
                        && r.stores.inventory[k].addedBy == Some(StampName(ctx).value)
                        && r.stores.inventory[k].dateTimeAdded == Some(ctx.now)
                        && r.stores.inventory[k].quantityOnHand
                           == Some(if inventoryId.value == 0 then Wrap32(stock) else Wrap32(2 * stock))
                        && (inventoryId.value == 0 ==> k !in s.inventory)
                        && (inventoryId.value != 0 && inventoryId.value in s.inventory ==> k == inventoryId.value)
  {
    var stamped := Stamped(item, StampName(ctx).value, ctx);
    var stock := item.stocksCebu.value + item.stocksManila.value;
    var total := Wrap32(stock);
    var inv := MergedInventory(stamped, total, inventoryId.value);
    var saved := SaveInventory(s.inventory, s.inventoryNextId, inv);
    assert AddItemSpec(s, item, inventoryId, ctx).stores.inventory == saved.rows;
    if inventoryId.value != 0 {
      WrapAbsorbs(stock, total);
      WrapAbsorbs(stock, stock);
      assert total + stock == stock + total;
      assert inv.quantityOnHand == Some(Wrap32(2 * stock));
    }
    var k := saved.inventory.inventoryId.value;
    assert saved.rows[k] == saved.inventory;
  }

  /** addItem never reads the stored quantity of the record it updates:
      once it reaches the inventory step, two tables that differ only there
      end up the same. */
  lemma AddItemIgnoresStoredQuantity(s: ItemStores, item: Item, id: int, ctx: Context, q: Option<int>)
    requires id != 0 && id in s.inventory
    requires StampName(ctx).Ok? && item.stocksCebu.Some? && item.stocksManila.Some?
    ensures var s2 := s.(inventory := s.inventory[id := s.inventory[id].(quantityOnHand := q)]);
            AddItemSpec(s2, item, Some(id), ctx) == AddItemSpec(s, item, Some(id), ctx)
  {
    var s2 := s.(inventory := s.inventory[id := s.inventory[id].(quantityOnHand := q)]);
    var stamped := Stamped(item, StampName(ctx).value, ctx);
    var inv := MergedInventory(stamped, BoxedSum(stamped.stocksCebu, stamped.stocksManila).value, id);
    assert s2.inventory[id := inv] == s.inventory[id := inv];
    assert SaveInventory(s2.inventory, s2.inventoryNextId, inv) == SaveInventory(s.inventory, s.inventoryNextId, inv);
  }

  /** Each failure of addItem, and what it leaves: a failure before the
      inventory step changes nothing, while a null item code fails after the
      inventory has been written. */
  lemma AddItemFailures(s: ItemStores, item: Item, inventoryId: Option<int>, ctx: Context)
    ensures var r := AddItemSpec(s, item, inventoryId, ctx);
            && (StampName(ctx).Ok? && (item.stocksCebu.None? || item.stocksManila.None? || inventoryId.None?)
                ==> r == Outcome(s, Err(NullPointer)))
            && (StampName(ctx).Ok? && item.stocksCebu.Some? && item.stocksManila.Some? && inventoryId.Some?
                && item.itemCode.None?
                ==> r.result == Err(Persistence(ManualIdMessage)) && r.stores.items == s.items
                    && r.stores.inventory
                       == SaveInventory(s.inventory, s.inventoryNextId,
                                        MergedInventory(Stamped(item, StampName(ctx).value, ctx),
                                                        Wrap32(item.stocksCebu.value + item.stocksManila.value),
                                                        inventoryId.value)).rows)
  {
  }

  /** findItemByItemCode: a null code matches no item. */
  function FindItem(items: map<string, Item>, code: Option<string>): (r: Option<Item>)
    ensures r.Some? <==> code.Some? && code.value in items
    ensures r.Some? ==> r.value == items[code.value]
  {
    if code.Some? && code.value in items then Some(items[code.value]) else None
  }

  /** getItem. */
  function GetItemSpec(items: map<string, Item>, code: Option<string>): (r: Result<Item>)
    ensures r.Ok? <==> code.Some? && code.value in items
    ensures r.Ok? ==> r.value == items[code.value]
    ensures r.Err? ==> r.error == NotFound("Item not found with code: " + Show(code))
  {
    match FindItem(items, code)
    case None => Err(NotFound("Item not found with code: " + Show(code)))
    case Some(item) => Ok(item)
  }

  /** deleteItem: the new item table, or NOT_FOUND with the table kept. */
  function DeleteItemSpec(items: map<string, Item>, code: Option<string>): (r: Result<map<string, Item>>)
    ensures r.Ok? <==> code.Some? && code.value in items
    ensures r.Ok? ==> r.value.Keys == items.Keys - {code.value}
                      && forall k :: k in r.value ==> r.value[k] == items[k]
    ensures r.Err? ==> r.error == NotFound("Item not found with code: " + Show(code) + " for deletion.")
  {
    match FindItem(items, code)
    case None => Err(NotFound("Item not found with code: " + Show(code) + " for deletion."))
    case Some(_) => Ok(items - {code.value})
  }

  /** The nine fields updateItem copies from the incoming item. */
  function CopyFields(existing: Item, item: Item): Item {
    existing.(brand := item.brand, productDescription := item.productDescription,
              lotSerialNumber := item.lotSerialNumber, expiryDate := item.expiryDate,
              stocksManila := item.stocksManila, stocksCebu := item.stocksCebu,
              purchaseOrderReferenceNumber := item.purchaseOrderReferenceNumber,
              supplierPackingList := item.supplierPackingList,
              drsiReferenceNumber := item.drsiReferenceNumber)
  }

  /** updateItem: the item it saves. The user id is parsed first, the item is
      looked up next, and the user's name is read only after that. */
  function UpdateItemSpec(items: map<string, Item>, item: Item, ctx: Context): (r: Result<Item>)
    ensures LookUpUser(ctx).Err? ==> r == Err(LookUpUser(ctx).error)
    ensures LookUpUser(ctx).Ok? && FindItem(items, item.itemCode).None?
            ==> r == Err(NotFound("Item not found for update with code: " + Show(item.itemCode)))
    ensures r.Ok? <==> StampName(ctx).Ok? && FindItem(items, item.itemCode).Some?
    ensures r.Ok? ==> r.value.itemCode == items[item.itemCode.value].itemCode
                      && r.value.addedBy == Some(StampName(ctx).value)
                      && r.value.dateTimeAdded == Some(ctx.now)
                      && r.value.(itemCode := item.itemCode, addedBy := item.addedBy, dateTimeAdded := item.dateTimeAdded) == item
  {
    match LookUpUser(ctx)
    case Err(e) => Err(e)
    case Ok(user) =>
      match FindItem(items, item.itemCode)
      case None => Err(NotFound("Item not found for update with code: " + Show(item.itemCode)))
      case Some(existing) =>
        if user.None? then Err(NullPointer)
        else
          match ConcatName(user.value)
          case Err(e) => Err(e)
          case Ok(name) => Ok(Stamped(CopyFields(existing, item), name, ctx))
  }

  /** Every item is stored under its own code. */
  predicate ItemTableValid(items: map<string, Item>) {
    forall k :: k in items ==> items[k].itemCode == Some(k)
  }

  /** Saving the updated item replaces the row it was found under and keeps
      every item stored under its own code. */
  lemma UpdateKeepsItemTableValid(items: map<string, Item>, item: Item, ctx: Context)
    requires ItemTableValid(items) && UpdateItemSpec(items, item, ctx).Ok?
    ensures var r := UpdateItemSpec(items, item, ctx).value;
            r.itemCode == item.itemCode && ItemTableValid(items[item.itemCode.value := r])
  {
  }

  /** Updating twice with the same item and context saves the same item as
      updating once. */
  lemma UpdateIdempotent(items: map<string, Item>, item: Item, ctx: Context)
    requires UpdateItemSpec(items, item, ctx).Ok?
    ensures var r := UpdateItemSpec(items, item, ctx).value;
            UpdateItemSpec(items[item.itemCode.value := r], item, ctx) == Ok(r)
  {
  }

  class ItemService {
    const itemRepository: ItemRepository
    const inventoryRepository: InventoryRepository

    constructor(itemRepository: ItemRepository, inventoryRepository: InventoryRepository)
      ensures this.itemRepository == itemRepository && this.inventoryRepository == inventoryRepository
    {
      this.itemRepository := itemRepository;
      this.inventoryRepository := inventoryRepository;
    }

    function Tables(): ItemStores
      reads itemRepository, inventoryRepository
    {
      ItemStores(itemRepository.rows, inventoryRepository.rows, inventoryRepository.nextId)
    }

    /** addItem, with inventoryExists's answer as a parameter. */
    method AddItem(item: Item, inventoryId: Option<int>, ctx: Context) returns (r: Result<Item>)
      modifies itemRepository, inventoryRepository
      ensures var o := AddItemSpec(old(Tables()), item, inventoryId, ctx);
              r == o.result && Tables() == o.stores
    {
      var name := StampName(ctx);
      if name.Err? {
        return Err(name.error);
      }
      var stamped := item.(addedBy := Some(name.value), dateTimeAdded := Some(ctx.now));
      if stamped.stocksCebu.None? || stamped.stocksManila.None? {
        return Err(NullPointer);
      }
      var totalQuantity := Wrap32(stamped.stocksCebu.value + stamped.stocksManila.value);
      var placeholder := Placeholder(stamped, totalQuantity);
      if inventoryId.None? {
        return Err(NullPointer);
      }
      if inventoryId.value != 0 {
        placeholder := placeholder.(inventoryId := inventoryId);
        totalQuantity := Wrap32(totalQuantity + placeholder.quantityOnHand.value);
        placeholder := placeholder.(quantityOnHand := Some(totalQuantity));
      }
      var saved := SaveInventory(inventoryRepository.rows, inventoryRepository.nextId, placeholder);
      inventoryRepository.rows, inventoryRepository.nextId := saved.rows, saved.nextId;
      if stamped.itemCode.None? {
        return Err(Persistence(ManualIdMessage));
      }
      itemRepository.rows := itemRepository.rows[stamped.itemCode.value := stamped];
      return Ok(stamped);
    }

    /** getItem. */
    method GetItem(code: Option<string>) returns (r: Result<Item>)
      ensures r == GetItemSpec(itemRepository.rows, code)
    {
      if code.None? || code.value !in itemRepository.rows {
        return Err(NotFound("Item not found with code: " + Show(code)));
      }
      return Ok(itemRepository.rows[code.value]);
    }

    /** deleteItem. */
    method DeleteItem(code: Option<string>) returns (r: Result<()>)
      modifies itemRepository
      ensures match DeleteItemSpec(old(itemRepository.rows), code)
              case Ok(rows) => r == Ok(()) && itemRepository.rows == rows
              case Err(e) => r == Err(e) && itemRepository.rows == old(itemRepository.rows)
    {
      var found := FindItem(itemRepository.rows, code);
      if found.None? {
        return Err(NotFound("Item not found with code: " + Show(code) + " for deletion."));
      }
      itemRepository.rows := itemRepository.rows - {code.value};
      return Ok(());
    }

    /** updateItem: on success the found row is overwritten. */
    method UpdateItem(item: Item, ctx: Context) returns (r: Result<Item>)
      modifies itemRepository
      ensures r == UpdateItemSpec(old(itemRepository.rows), item, ctx)
      ensures r.Ok? ==> itemRepository.rows == old(itemRepository.rows)[item.itemCode.value := r.value]
      ensures r.Err? ==> itemRepository.rows == old(itemRepository.rows)
    {
      var user := LookUpUser(ctx);
      if user.Err? {
        return Err(user.error);
      }
      var found := FindItem(itemRepository.rows, item.itemCode);
      if found.None? {
        return Err(NotFound("Item not found for update with code: " + Show(item.itemCode)));
      }
      if user.value.None? {
        return Err(NullPointer);
      }
      var name := ConcatName(user.value.value);
      if name.Err? {
        return Err(name.error);
      }
      var existing := CopyFields(found.value, item);
      existing := existing.(addedBy := Some(name.value), dateTimeAdded := Some(ctx.now));
      itemRepository.rows := itemRepository.rows[item.itemCode.value := existing];
      return Ok(existing);
    }
  }
}
