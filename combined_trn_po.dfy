/** The combined stock-in form: one record carrying both a legacy transaction
    entry and a purchase order, with the attached documents. */
module CombinedTrnPOEntity {
  import opened Common
  import opened Calendar
  import opened Entities

  datatype CombinedTrnPO = CombinedTrnPO(
    drSIReferenceNum: Option<string>,
    transactionDate: Option<Date>,
    itemCode: Option<string>,
    brand: Option<string>,
    productDescription: Option<string>,
    lotSerialNumber: Option<string>,
    expiryDate: Option<Date>,
    cost: Option<Double>,
    packSize: Option<Double>,
    quantity: Option<int>,
    unitCost: Option<Double>,
    totalCost: Option<Double>,
    poPIreference: Option<string>,
    stockLocation: Option<string>,
    purchaseOrderFileName: Option<string>,
    suppliersPackingListName: Option<string>,
    inventoryOfDeliveredItemsName: Option<string>,
    purchaseOrderFile: Option<seq<bv8>>,
    suppliersPackingList: Option<seq<bv8>>,
    inventoryOfDeliveredItems: Option<seq<bv8>>)
  {
    /** toTransactionEntry: the nine entry fields are copied, the item code
        and the author are the placeholder "error" until the service fills
        them in, and the time is the clock reading `now`. */
    function ToTransactionEntry(now: DateTime): (e: TransactionEntry)
      ensures e.drSiReferenceNum == drSIReferenceNum && e.transactionDate == transactionDate
      ensures e.brand == brand && e.productDescription == productDescription
      ensures e.lotSerialNumber == lotSerialNumber && e.expiryDate == expiryDate
      ensures e.cost == cost && e.quantity == quantity && e.stockLocation == stockLocation
      ensures e.itemCode == Some("error") && e.addedBy == Some("error") && e.dateTimeAdded == Some(now)
    {
      TransactionEntry(drSIReferenceNum, transactionDate, Some("error"), brand, productDescription,
                       lotSerialNumber, expiryDate, cost, quantity, stockLocation, Some("error"), Some(now))
    }

    /** toPurchaseOrder: seven order fields are copied, the item code is the
        placeholder "error", and no author or time is set. */
    function ToPurchaseOrder(): (p: PurchaseOrder)
      ensures p.itemCode == "error"
      ensures p.brand == brand && p.productDescription == productDescription && p.packSize == packSize
      ensures p.quantity == quantity && p.unitCost == unitCost && p.totalCost == totalCost
      ensures p.poPIreference == poPIreference
      ensures p.addedBy.None? && p.dateTimeAdded.None?
    {
      PurchaseOrder("error", brand, productDescription, packSize, quantity, unitCost, totalCost,
                    poPIreference, None, None)
    }
  }

  /** The form with its attached documents and their names removed. */
  function WithoutAttachments(c: CombinedTrnPO): (r: CombinedTrnPO)
    ensures r.purchaseOrderFileName.None? && r.suppliersPackingListName.None? && r.inventoryOfDeliveredItemsName.None?
    ensures r.purchaseOrderFile.None? && r.suppliersPackingList.None? && r.inventoryOfDeliveredItems.None?
  {
    c.(purchaseOrderFileName := None, suppliersPackingListName := None, inventoryOfDeliveredItemsName := None,
       purchaseOrderFile := None, suppliersPackingList := None, inventoryOfDeliveredItems := None)
  }

  /** The entry and the order made from one form agree on what was received:
      brand, description and quantity. */
  lemma ConversionsAgree(c: CombinedTrnPO, now: DateTime)
    ensures c.ToTransactionEntry(now).brand == c.ToPurchaseOrder().brand
    ensures c.ToTransactionEntry(now).productDescription == c.ToPurchaseOrder().productDescription
    ensures c.ToTransactionEntry(now).quantity == c.ToPurchaseOrder().quantity
  {
  }

  /** Neither conversion carries the attachments: forms that differ only in
      their documents convert alike. */
  lemma AttachmentsNotCarried(c: CombinedTrnPO, d: CombinedTrnPO, now: DateTime)
    requires WithoutAttachments(c) == WithoutAttachments(d)
    ensures c.ToPurchaseOrder() == d.ToPurchaseOrder()
    ensures c.ToTransactionEntry(now) == d.ToTransactionEntry(now)
  {
    assert c.brand == WithoutAttachments(c).brand;
    assert d.brand == WithoutAttachments(d).brand;
  }
}
