/** The persisted records the services read and write, with the fields the
    services use. A Java reference field that may be null is an `Option`;
    the @Id field of a table whose keys the application assigns is a plain
    value. */
module Entities {
  import opened Common
  import opened Calendar

  /** A legacy stock-in record (table Transaction_Entry), keyed by its DR/SI
      reference number. */
  datatype TransactionEntry = TransactionEntry(
    drSiReferenceNum: Option<string>,
    transactionDate: Option<Date>,
    itemCode: Option<string>,
    brand: Option<string>,
    productDescription: Option<string>,
    lotSerialNumber: Option<string>,
    expiryDate: Option<Date>,
    cost: Option<Double>,
    quantity: Option<int>,
    stockLocation: Option<string>,
    addedBy: Option<string>,
    dateTimeAdded: Option<DateTime>)

  /** A purchase order (table purchase_order), keyed by its item code. */
  datatype PurchaseOrder = PurchaseOrder(
    itemCode: string,
    brand: Option<string>,
    productDescription: Option<string>,
    packSize: Option<Double>,
    quantity: Option<int>,
    unitCost: Option<Double>,
    totalCost: Option<Double>,
    poPIreference: Option<string>,
    addedBy: Option<string>,
    dateTimeAdded: Option<DateTime>)

  /** A brand (table brand); brandId is generated by the database. */
  datatype Brand = Brand(
    brandId: Option<int>,
    brandName: Option<string>,
    abbreviation: Option<string>,
    latestSequence: Option<int>)

  /** An inventory record (table inventory); inventoryId is generated. */
  datatype Inventory = Inventory(
    inventoryId: Option<int>,
    itemCode: Option<string>,
    brand: Option<string>,
    productDescription: Option<string>,
    lotSerialNumber: Option<string>,
    cost: Option<Double>,
    expiryDate: Option<Date>,
    stocksManila: Option<int>,
    stocksCebu: Option<int>,
    quantityOnHand: Option<int>,
    addedBy: Option<string>,
    dateTimeAdded: Option<DateTime>)

  /** An item (table itemList), keyed by its item code, which the caller
      assigns (it may be null on an incoming item). */
  datatype Item = Item(
    itemCode: Option<string>,
    brand: Option<string>,
    productDescription: Option<string>,
    lotSerialNumber: Option<string>,
    expiryDate: Option<Date>,
    stocksManila: Option<int>,
    stocksCebu: Option<int>,
    purchaseOrderReferenceNumber: Option<string>,
    supplierPackingList: Option<string>,
    drsiReferenceNumber: Option<string>,
    addedBy: Option<string>,
    dateTimeAdded: Option<DateTime>)

  /** A storage location, keyed by its id. */
  datatype Location = Location(locationId: int, locationName: Option<string>)

  /** The quantity of one item held at one location (table itemLoc). */
  datatype ItemLoc = ItemLoc(locationId: int, itemCode: Option<string>, quantity: Option<int>)

  /** One line of a customer sale (table sold_items). */
  datatype Sold = Sold(
    id: Option<int>,
    itemId: Option<string>,
    lotNumber: Option<string>,
    quantity: Option<int>,
    unitRetailPrice: Option<Double>,
    brandName: Option<string>,
    itemDescription: Option<string>,
    location: Option<string>,
    transactionId: Option<int>)

  /** A customer sale (table customer_transaction); transactionId is
      generated. A null list of lines is `None`. */
  datatype CustomerTransaction = CustomerTransaction(
    transactionId: Option<int>,
    invoiceReference: Option<string>,
    transactionDate: Option<DateTime>,
    customerId: Option<string>,
    customerName: Option<string>,
    totalRetailPrice: Option<Double>,
    items: Option<seq<Sold>>)
}
