# Stock reconciliation in the lis inventory system

This project is a Dafny model of the stock-reconciliation core of `lis`, a
Spring Boot laboratory-inventory back end. It covers the service layer and
two controller routines.

**Stock ledger.**
- The fixed-column stock ledger: `StockLocatorService` and the zeroed
  `StockLocator` row.
- Multi-line sales that deduct item-at-location rows and inventory totals
  (`CustomerTransactionService`).

**Codes and legacy transactions.**
- Brand abbreviations and item-code minting (`BrandService`,
  `PurchaseOrderService`).
- The legacy transaction orchestration (`TransactionEntryService` with the
  `CombinedTrnPO` conversions).

**Dashboard and smaller services.**
- The dashboard's period aggregation (`DashboardService`).
- Locations (`LocationService`) and items with their inventory merge
  (`ItemService`).

**Controllers.**
- The flatten-and-sort of `TransactionEntryController.getAllTransactions`.
- The brand filter and the lot and location mapping of `ItemsController`.

Services that update their repositories are classes. Each holds `const`
references to repository objects, and each repository is a class with a
`rows` field: a map keyed by the entity's identifier, or a sequence in row
order for the item-at-location table.

Every method is proved against a specification function on the tables'
contents. The properties the services promise are proved as lemmas about
those functions:
- clamping at zero, and "only the selected column changes";
- conservation between ledger rows and inventory totals;
- all-or-nothing transactions;
- injective zero-padded codes;
- inclusive calendar ranges with Gregorian month lengths;
- case-insensitive uniqueness of location names;
- a sorted permutation for the transaction listing.

Some inputs are parameters rather than ambient state:
- the authenticated principal's name, the user table and the clock reading
  are an explicit `Audit.Context`;
- "today" is a `Calendar.Date`;
- the dashboard's parser results are given as values.

Java `int` arithmetic wraps explicitly (`Int32.Wrap32`) wherever the source
adds or subtracts `Integer`s.

Module layout, one file per source unit:
- `common.dfy`: `Option`, `Result`, the exception kinds and opaque doubles.
- `strings.dfy`: Java `trim`, and ASCII `toLowerCase` / `equalsIgnoreCase`.
- `int32.dfy`: two's-complement wrap-around.
- `numbers.dfy`: `String.format("%04d")`, `Long.parseLong` and
  `String.valueOf`.
- `calendar.dfy`: dates, month lengths and ISO 8601 calendar-date text
  (`yyyy-MM-dd`, `yyyy-MM`, `yyyy`).
- `audit.dfy`: the acting user and the `addedBy` stamp.
- `entities.dfy`, `stock_locator.dfy`, `combined_trn_po.dfy`: the records.
- `repositories.dfy`: the Spring Data repositories and their derived
  queries.
- One file per service or controller.

## Model

| member | source | states |
|---|---|---|
| StockLocatorEntity.StockLocator.WithCell | lis/src/main/java/com/biotech/lis/Entity/StockLocator.java:31-50 | setting one location's column changes that column only; the key, brand, description, the other six columns and the audit fields are kept |
| StockLocatorEntity.NewStockLocator | lis/src/main/java/com/biotech/lis/Entity/StockLocator.java:58-69 | the two-argument constructor keeps brand and description, sets the key to "placeholder" and all seven columns to 0, and leaves addedBy and dateTimeAdded unset |
| StockLocatorEntity.CellsDetermineRow | lis/src/main/java/com/biotech/lis/Entity/StockLocator.java:21-56 | the seven columns are all of a row's quantities: rows agreeing on key, brand, description, stamp and every column are equal |
| StockLocatorService.MatchLoc | lis/src/main/java/com/biotech/lis/Service/StockLocatorService.java:51-75 | the lower-cased location name selects a column exactly when it equals that column's name; any other name selects none |
| StockLocatorService.MatchLocFindsEveryLocation | lis/src/main/java/com/biotech/lis/Service/StockLocatorService.java:51-72 | each of the seven names, in any letter case, selects its own column |
| StockLocatorService.Adjusted | lis/src/main/java/com/biotech/lis/Service/StockLocatorService.java:49-71 | the new cell is max(0, cell ± quantity) in Java ints: never negative, exactly cell + q for an in-range addition, and max(0, cell − q) for a deduction |
| StockLocatorService.BaseRow | lis/src/main/java/com/biotech/lis/Service/StockLocatorService.java:40-47 | when the case-insensitive query finds no row, the row updated is a fresh zeroed row for the brand and description; when it finds one row, it is that row; the only failure is a non-unique query result |
| StockLocatorService.UnknownLocationRejected | lis/src/main/java/com/biotech/lis/Service/StockLocatorService.java:73-75 | a name outside the seven fails with IllegalArgumentException("Invalid stock location: " + name), so nothing is saved |
| StockLocatorService.OnlySelectedCellChanges | lis/src/main/java/com/biotech/lis/Service/StockLocatorService.java:40-81 | on success, only the selected column of the base row takes the clamped value; the other columns, key, brand and description are kept; the row is stamped with the actor's name and the clock reading; other rows are untouched |
| StockLocatorService.SavedCellNonNegative | lis/src/main/java/com/biotech/lis/Service/StockLocatorService.java:53-71 | the saved column is never negative |
| StockLocatorService.AdditionRaisesByQuantity | lis/src/main/java/com/biotech/lis/Service/StockLocatorService.java:49-53 | an addition of a non-negative quantity without overflow raises the column by exactly that quantity |
| StockLocatorService.DeductionOnMissingRowSavesZeroRow | lis/src/main/java/com/biotech/lis/Service/StockLocatorService.java:40-47 | a deduction with no matching row saves a zeroed row under "placeholder" with the entry's brand and description |
| StockLocatorService.Restamped | lis/src/main/java/com/biotech/lis/Service/StockLocatorService.java:84-91 | updateStockLocator replaces only addedBy and dateTimeAdded; each column is the caller's |
| StockLocatorService.StockLocatorService.UpdateStockFromTransaction | lis/src/main/java/com/biotech/lis/Service/StockLocatorService.java:34-82 | the table becomes the specified rows on success; on any exception it is unchanged |
| StockLocatorService.StockLocatorService.UpdateStockLocator | lis/src/main/java/com/biotech/lis/Service/StockLocatorService.java:84-91 | the stamped row is saved under its key; on failure, nothing is saved |
| Repositories.FindByBrandAndProductDescription | lis/src/main/java/com/biotech/lis/Repository/StockLocatorRepository.java:16-17 | the case-insensitive ledger query: empty iff no row matches; the matching row's key when exactly one matches; a non-unique error iff two do |
| Repositories.SaveBrand | lis/src/main/java/com/biotech/lis/Entity/Brand.java:19-21 | save with identity keys: an id in the table replaces its row; a brand without an id gets a fresh key; the other rows are kept and the table stays valid |
| Repositories.SaveBrandKeepsNamesUnique | lis/src/main/java/com/biotech/lis/Entity/Brand.java:22 | a save that the unique name column admits (no other stored brand has the name) keeps brand names unique, whether it replaces a row or inserts one |
| Repositories.FindByBrandName | lis/src/main/java/com/biotech/lis/Repository/BrandRepository.java:12 | the exact-name derived query: empty iff no brand has the name; a non-unique error iff two do |
| Repositories.FindEntryByItemCode | lis/src/main/java/com/biotech/lis/Repository/TransactionEntryRepository.java:48 | the entry carrying an item code: empty iff none; a non-unique error iff two |
| Repositories.DeleteByItemCode | lis/src/main/java/com/biotech/lis/Repository/TransactionEntryRepository.java:46 | a derived deleteByItemCode on any table whose rows carry an item code (transaction entries and inventory records): exactly the rows with the code are removed; the rest are kept unchanged |
| Repositories.SaveInventory | lis/src/main/java/com/biotech/lis/Entity/Inventory.java:25-27 | the inventory save with a generated id keeps the table valid, replaces or inserts one row, and keeps the others |
| Repositories.FindByLocationName | lis/src/main/java/com/biotech/lis/Repository/LocationRepository.java:12 | exact-name lookup: empty iff no location has the name; a non-unique error iff two do |
| Repositories.ItemLocPositions | lis/src/main/java/com/biotech/lis/Repository/ItemLocRepository.java:10 | findByItemCode returns every row of the item, and only those, in increasing row order |
| Repositories.SaveTransaction | lis/src/main/java/com/biotech/lis/Entity/CustomerTransaction.java:11-13 | the sale is saved under a generated id; the other sales are kept |
| CustomerTransactionService.FirstAtLocation | lis/src/main/java/com/biotech/lis/Service/CustomerTransactionService.java:64-66 | filter + findFirst: a found row is at the location, and none means no listed row is |
| CustomerTransactionService.TargetRow | lis/src/main/java/com/biotech/lis/Service/CustomerTransactionService.java:63-67 | the row deducted has the item's code and the location's id; there is none iff no row has both |
| CustomerTransactionService.DuplicateInvoiceRejected | lis/src/main/java/com/biotech/lis/Service/CustomerTransactionService.java:41-43 | an invoice reference already on file is rejected before any stock is touched |
| CustomerTransactionService.NullItemsDeductNothing | lis/src/main/java/com/biotech/lis/Service/CustomerTransactionService.java:46-53 | a sale with a null items list is saved and leaves the stock as it was |
| CustomerTransactionService.DeductingLines | lis/src/main/java/com/biotech/lis/Service/CustomerTransactionService.java:48 | the lines kept all have a non-null, non-empty location |
| CustomerTransactionService.SkippedLinesDeductNothing | lis/src/main/java/com/biotech/lis/Service/CustomerTransactionService.java:46-51 | lines with a null or empty location make no difference: the sale deducts exactly what its located lines deduct |
| CustomerTransactionService.DeductLineRejections | lis/src/main/java/com/biotech/lis/Service/CustomerTransactionService.java:58-72 | unknown location name, no row for the item at that location, and row quantity below the request each fail with their IllegalArgumentException |
| CustomerTransactionService.DeductLineEffect | lis/src/main/java/com/biotech/lis/Service/CustomerTransactionService.java:70-83 | a successful line needs row quantity ≥ request, lowers that one row by the quantity and the item's total (null as 0) by the same, and changes nothing else |
| CustomerTransactionService.LedgerSumUpdate | lis/src/main/java/com/biotech/lis/Service/CustomerTransactionService.java:73 | replacing one row changes its item's ledger sum by the quantity difference and no other item's sum |
| CustomerTransactionService.RowDeductionConserves | lis/src/main/java/com/biotech/lis/Service/CustomerTransactionService.java:73-82 | lowering a row and the item's total by the same quantity moves every item's ledger sum and total alike, as Java ints |
| CustomerTransactionService.DeductLineConserves | lis/src/main/java/com/biotech/lis/Service/CustomerTransactionService.java:56-84 | one deducted line moves each item's ledger sum and inventory total by the same amount |
| CustomerTransactionService.DeductAllConserves | lis/src/main/java/com/biotech/lis/Service/CustomerTransactionService.java:46-52 | across a whole sale, the drop in each item's ledger sum equals the drop in its total, as Java ints |
| CustomerTransactionService.DeductAllKeepsNonNegative | lis/src/main/java/com/biotech/lis/Service/CustomerTransactionService.java:70-73 | a sale of non-negative quantities never drives a ledger row below zero |
| CustomerTransactionService.CustomerTransactionService.DeductStock | lis/src/main/java/com/biotech/lis/Service/CustomerTransactionService.java:56-84 | on success both stock tables hold the specified deduction; on failure the inventory table is untouched |
| CustomerTransactionService.CustomerTransactionService.CreateTransaction | lis/src/main/java/com/biotech/lis/Service/CustomerTransactionService.java:38-54 | all or nothing: on success the tables hold the deductions and the saved sale; on any failure every table is as before |
| CustomerTransactionService.CustomerTransactionService.DeleteTransaction | lis/src/main/java/com/biotech/lis/Service/CustomerTransactionService.java:90-92 | removes only the sale record under the id |
| CustomerTransactionService.DeleteTransactionSpec | lis/src/main/java/com/biotech/lis/Service/CustomerTransactionService.java:90-92 | deleteById removes only the sale under the id and leaves the stock tables alone |
| CustomerTransactionService.DeleteKeepsSaleDeductions | lis/src/main/java/com/biotech/lis/Service/CustomerTransactionService.java:37-92 | a sale created and then deleted leaves its deductions in place; for a new sale the sale table is the one the create found |
| BrandService.Abbreviation | lis/src/main/java/com/biotech/lis/Service/BrandService.java:19-20 | the first and last characters of the trimmed name (the same character twice for a one-character name); an empty trimmed name fails with an index error |
| BrandService.AbbreviationIgnoresPadding | lis/src/main/java/com/biotech/lis/Service/BrandService.java:19 | surrounding whitespace does not change the abbreviation |
| BrandService.ItemCodeInjective | lis/src/main/java/com/biotech/lis/Service/BrandService.java:30 | two codes of one abbreviation are equal only when their sequences are |
| BrandService.AddBrandSpec | lis/src/main/java/com/biotech/lis/Service/BrandService.java:18-24 | fails iff the name is null or blank, or another stored brand already has it; the last case, and only it, is the unique column's DataIntegrityViolationException; otherwise the brand is saved with its abbreviation and latestSequence 0 |
| BrandService.AddBrandRejectsTakenName | lis/src/main/java/com/biotech/lis/Entity/Brand.java:22 | adding a non-blank name another stored brand holds fails with DataIntegrityViolationException |
| BrandService.AddBrandKeepsNamesUnique | lis/src/main/java/com/biotech/lis/Service/BrandService.java:18-24 | a successful addBrand keeps brand names unique |
| BrandService.GenerateItemCodeSpec | lis/src/main/java/com/biotech/lis/Service/BrandService.java:26-33 | the sequence goes up by one as a Java int and the brand is saved first; the code is the abbreviation plus the new sequence |
| BrandService.FirstCodeOfNewBrand | lis/src/main/java/com/biotech/lis/Service/BrandService.java:22-30 | the first code of a freshly added brand ends in "0001" |
| BrandService.CodeRun | lis/src/main/java/com/biotech/lis/Service/BrandService.java:30 | the run of codes for consecutive sequences has one code per sequence |
| BrandService.CodeRunAt | lis/src/main/java/com/biotech/lis/Service/BrandService.java:30 | the j-th code of a run carries sequence from + j |
| BrandService.MintSequenceCodes | lis/src/main/java/com/biotech/lis/Service/BrandService.java:26-33 | n successive generateItemCode calls return the codes of s+1, …, s+n |
| BrandService.GenerateStep | lis/src/main/java/com/biotech/lis/Service/BrandService.java:27-30 | below the int limit, one call raises the sequence by one and keeps the abbreviation |
| BrandService.SuccessiveCodesDistinct | lis/src/main/java/com/biotech/lis/Service/BrandService.java:27-30 | successive calls on one brand return pairwise distinct codes as long as the sequence does not overflow |
| BrandService.SequenceOfItemCode | lis/src/main/java/com/biotech/lis/Service/BrandService.java:30 | the sequence read back from a code is the one it was made from |
| BrandService.BrandByName | lis/src/main/java/com/biotech/lis/Service/BrandService.java:43-48 | a null or blank name fails with EntityNotFoundException; any other name is looked up trimmed and exactly: null iff no brand has it, the brand when exactly one has it, NonUniqueResult iff two have it |
| BrandService.UpdateBrandRejectsTakenName | lis/src/main/java/com/biotech/lis/Service/BrandService.java:51-54 | a name held by a different brand id is refused with "Brand name already exists." |
| BrandService.UpdateBrandNameCheckSuffices | lis/src/main/java/com/biotech/lis/Service/BrandService.java:51-60 | on a table whose rows sit under their own ids, the name check refuses every rename the unique column would refuse, so the save never fails on it |
| BrandService.UpdateBrandKeepsNamesUnique | lis/src/main/java/com/biotech/lis/Service/BrandService.java:50-61 | a successful updateBrand keeps brand names unique |
| BrandService.GenerateKeepsNamesUnique | lis/src/main/java/com/biotech/lis/Service/BrandService.java:26-28 | for a brand as stored, the unique column cannot refuse generateItemCode's save, and names stay unique |
| BrandService.UpdateBrandOnlyRenames | lis/src/main/java/com/biotech/lis/Service/BrandService.java:55-60 | otherwise only the stored brand's name changes; its id, abbreviation, sequence and every other brand are kept |
| BrandService.BrandService.Save | lis/src/main/java/com/biotech/lis/Service/BrandService.java:23 | brandRepository.save on the table |
| BrandService.BrandService.AddBrand | lis/src/main/java/com/biotech/lis/Service/BrandService.java:18-24 | the table becomes the specified one and the saved brand is returned; on failure, nothing is saved |
| BrandService.BrandService.GenerateItemCode | lis/src/main/java/com/biotech/lis/Service/BrandService.java:26-33 | the brand is saved with the new sequence and the code is returned |
| BrandService.BrandService.UpdateBrand | lis/src/main/java/com/biotech/lis/Service/BrandService.java:50-61 | the table becomes the specified one on success and is unchanged on failure |
| PurchaseOrderService.AddPurchaseOrderSpec | lis/src/main/java/com/biotech/lis/Service/PurchaseOrderService.java:28-41 | the actor is resolved first, then the brand; the code uses the brand's current sequence without advancing it; the order is stamped |
| PurchaseOrderService.TestBrandCode | lis/src/test/java/com/biotech/lis/Service/PurchaseOrderServiceTest.java:59-82 | abbreviation "TST" with sequence 1 gives "TST0001" |
| PurchaseOrderService.AddsForOneBrandShareCode | lis/src/main/java/com/biotech/lis/Service/PurchaseOrderService.java:33-35 | two adds against the same brand table mint the same code |
| PurchaseOrderService.AddReusesLastGeneratedCode | lis/src/main/java/com/biotech/lis/Service/PurchaseOrderService.java:33-35 | after generateItemCode, an add files the order under the code that call returned |
| PurchaseOrderService.UpdatePurchaseOrderSpec | lis/src/main/java/com/biotech/lis/Service/PurchaseOrderService.java:51-59 | no existence check: only addedBy and dateTimeAdded change |
| PurchaseOrderService.PurchaseOrderByCode | lis/src/main/java/com/biotech/lis/Service/PurchaseOrderService.java:43-45 | empty exactly when no order has the code |
| PurchaseOrderService.PurchaseOrderService.AddPurchaseOrder | lis/src/main/java/com/biotech/lis/Service/PurchaseOrderService.java:28-41 | the order is saved under its minted code; the brand table is only read |
| PurchaseOrderService.PurchaseOrderService.UpdatePurchaseOrder | lis/src/main/java/com/biotech/lis/Service/PurchaseOrderService.java:51-59 | stamp and save, replacing or inserting under the code |
| PurchaseOrderService.PurchaseOrderService.GetPurchaseOrderByCode | lis/src/main/java/com/biotech/lis/Service/PurchaseOrderService.java:43-45 | the lookup on the current table |
| PurchaseOrderService.PurchaseOrderService.DeletePurchaseOrder | lis/src/main/java/com/biotech/lis/Service/PurchaseOrderService.java:61-63 | removes only the order keyed by the code |
| CombinedTrnPOEntity.CombinedTrnPO.ToTransactionEntry | lis/src/main/java/com/biotech/lis/Entity/CombinedTrnPO.java:33-49 | the nine fields are copied unchanged; itemCode and addedBy are "error"; the time is the clock reading |
| CombinedTrnPOEntity.CombinedTrnPO.ToPurchaseOrder | lis/src/main/java/com/biotech/lis/Entity/CombinedTrnPO.java:51-75 | the seven fields are copied; itemCode is "error"; author and time are not set |
| CombinedTrnPOEntity.WithoutAttachments | lis/src/main/java/com/biotech/lis/Entity/CombinedTrnPO.java:26-31 | the form with its documents and their names cleared |
| CombinedTrnPOEntity.ConversionsAgree | lis/src/main/java/com/biotech/lis/Entity/CombinedTrnPO.java:37-57 | the entry and the order agree on brand, product description and quantity |
| CombinedTrnPOEntity.AttachmentsNotCarried | lis/src/main/java/com/biotech/lis/Entity/CombinedTrnPO.java:62-72 | forms that differ only in their attachments convert identically |
| Audit.Show | lis/src/main/java/com/biotech/lis/Service/CustomerTransactionService.java:42 | a null string prints as "null" in a concatenation |
| Audit.StampName | lis/src/main/java/com/biotech/lis/Service/StockLocatorService.java:76-79 | addedBy is firstName.concat(" " + lastName); a non-numeric principal fails with NumberFormatException, and an unknown user or null first name with NullPointerException |
| Audit.CurrentUser | lis/src/main/java/com/biotech/lis/Service/TransactionEntryService.java:170-188 | every failure is an IllegalArgumentException naming the cause: no principal, an unknown user, or a bad id format |
| Audit.PlusName | lis/src/main/java/com/biotech/lis/Service/TransactionEntryService.java:190-194 | firstName + " " + lastName agrees with the concat form whenever firstName is non-null |
| Audit.ActorResolutionAgrees | lis/src/main/java/com/biotech/lis/Service/TransactionEntryService.java:179-184 | getCurrentUser succeeds exactly when the services' user look-up finds a user, and returns that user |
| TransactionEntryService.ValidateTransactionId | lis/src/main/java/com/biotech/lis/Service/TransactionEntryService.java:163-167 | a null or whitespace-only id is refused with its message; any other id passes unchanged |
| TransactionEntryService.ExistsByIdMeaning | lis/src/main/java/com/biotech/lis/Service/TransactionEntryService.java:145-150 | existsById is true exactly for a non-blank id with an entry |
| TransactionEntryService.WithAudit | lis/src/main/java/com/biotech/lis/Service/TransactionEntryService.java:190-194 | only addedBy (the full name) and dateTimeAdded (the clock) change |
| TransactionEntryService.InventoryFor | lis/src/main/java/com/biotech/lis/Service/TransactionEntryService.java:72 | the inventory record of a new entry carries its code, brand, description, lot, cost, expiry and quantity |
| TransactionEntryService.AddInventorySpec | lis/src/main/java/com/biotech/lis/Service/InventoryService.java:25-32 | the record is stamped with the actor and clock and saved under a fresh id; the stamp's failure is the only failure |
| TransactionEntryService.PrepareCreate | lis/src/main/java/com/biotech/lis/Service/TransactionEntryService.java:50-66 | the checks that create makes before any write: a valid id not yet on file |
| TransactionEntryService.CreateRejectsExistingId | lis/src/main/java/com/biotech/lis/Service/TransactionEntryService.java:56-58 | a reference number already on file fails with "Transaction already exists with ID: …" before any write |
| TransactionEntryService.CreateRejectsUnknownBrand | lis/src/main/java/com/biotech/lis/Service/TransactionEntryService.java:63-66 | no brand of that name: EntityNotFoundException, nothing written |
| TransactionEntryService.CreateFilesUnderOneCode | lis/src/main/java/com/biotech/lis/Service/TransactionEntryService.java:63-81 | a successful create uses one freshly minted code for the entry, a new inventory record and the purchase order; the brand's sequence rises by one; the ledger gets an addition; the order shares the entry's author, time and brand |
| TransactionEntryService.FileCreateUnderOneCode | lis/src/main/java/com/biotech/lis/Service/TransactionEntryService.java:68-79 | the same facts for the write stage, from a brand found in the table |
| TransactionEntryService.UpdateRequiresExistingId | lis/src/main/java/com/biotech/lis/Service/TransactionEntryService.java:104-106 | updating an id not on file fails with "Transaction not found with ID: …" |
| TransactionEntryService.UpdateMovesByNewQuantity | lis/src/main/java/com/biotech/lis/Service/TransactionEntryService.java:108-117 | the entry is replaced and stamped; the ledger takes the NEW quantity, as an addition iff the old quantity is greater and as a deduction otherwise; no other table changes |
| TransactionEntryService.DeleteRemovesEverythingUnderCode | lis/src/main/java/com/biotech/lis/Service/TransactionEntryService.java:125-137 | the entry, its purchase order and every inventory record with its code are gone; the ledger gets a deduction of its quantity; brands and other entries are untouched |
| TransactionEntryService.CreateThenDeleteExistence | lis/src/main/java/com/biotech/lis/Service/TransactionEntryService.java:49-150 | after a create the id exists; after a delete of it, it does not |
| TransactionEntryService.CreateSavesEntry | lis/src/main/java/com/biotech/lis/Service/TransactionEntryService.java:69 | a successful create stores the entry under its reference number and changes no other entry |
| TransactionEntryService.FileCreateSavesEntry | lis/src/main/java/com/biotech/lis/Service/TransactionEntryService.java:68-69 | the write stage stores the entry under the validated id |
| TransactionEntryService.DeleteByCodeMeaning | lis/src/main/java/com/biotech/lis/Service/TransactionEntryService.java:139-143 | a code that no entry carries fails with NoSuchElementException; success deducts the found entry's quantity from the ledger, removes every entry with the code, keeps the others, and touches only the ledger and the entries |
| TransactionEntryService.DeleteByCodeRetryRefused | lis/src/main/java/com/biotech/lis/Service/TransactionEntryService.java:139-143 | run as one transaction, a repeated delete by code fails with NoSuchElementException, so the quantity is deducted once |
| TransactionEntryService.DeleteByCodeAsWritten | lis/src/main/java/com/biotech/lis/Service/TransactionEntryService.java:139-143 | the method as written, outside a transaction: it never succeeds, only the ledger can change, and a changed ledger comes with the TransactionRequired failure of the derived delete |
| TransactionEntryService.AsWrittenKeepsDeduction | lis/src/main/java/com/biotech/lis/Service/TransactionEntryService.java:140-142 | where the transactional delete succeeds, the call as written fails after the deduction: the ledger is deducted and every entry is still on file |
| TransactionEntryService.AsWrittenRetryDeductsAgain | lis/src/main/java/com/biotech/lis/Service/TransactionEntryService.java:140-142 | a retry of the call as written finds the same entry and deducts its quantity again |
| TransactionEntryService.TransactionEntryService.Restore | lis/src/main/java/com/biotech/lis/Service/TransactionEntryService.java:48 | the rollback puts all five tables back as they were |
| TransactionEntryService.TransactionEntryService.CreateTransactionEntry | lis/src/main/java/com/biotech/lis/Service/TransactionEntryService.java:48-82 | the tables become the specified ones on success; on any failure all five are unchanged |
| TransactionEntryService.TransactionEntryService.FileEntry | lis/src/main/java/com/biotech/lis/Service/TransactionEntryService.java:68-81 | the write stage, undone together on failure |
| TransactionEntryService.TransactionEntryService.FileUnderCode | lis/src/main/java/com/biotech/lis/Service/TransactionEntryService.java:69-79 | the writes after minting; a failure restores the starting tables |
| TransactionEntryService.TransactionEntryService.UpdateTransactionEntry | lis/src/main/java/com/biotech/lis/Service/TransactionEntryService.java:98-122 | all or nothing against the update specification |
| TransactionEntryService.TransactionEntryService.DeleteTransactionEntry | lis/src/main/java/com/biotech/lis/Service/TransactionEntryService.java:124-137 | all or nothing against the delete specification |
| TransactionEntryService.TransactionEntryService.DeleteTransactionEntryByCode | lis/src/main/java/com/biotech/lis/Service/TransactionEntryService.java:139-143 | the corrected, transactional delete by code (see Findings): the tables become the specified ones on success and are unchanged on failure |
| TransactionEntryService.TransactionEntryService.ExistsById | lis/src/main/java/com/biotech/lis/Service/TransactionEntryService.java:145-150 | existsById on the current table |
| DashboardService.ParseInt | lis/src/main/java/com/biotech/lis/Service/DashboardService.java:56 | Integer.parseInt: the Long.parseLong syntax restricted to the int range, else NumberFormatException |
| DashboardService.PeriodRange | lis/src/main/java/com/biotech/lis/Service/DashboardService.java:26-67 | a null period is an NPE; a period other than daily, monthly or yearly (any case) is an IllegalArgumentException; otherwise it yields a valid start ≤ end |
| DashboardService.PeriodNamesIgnoreCase | lis/src/main/java/com/biotech/lis/Service/DashboardService.java:26 | the period's letter case makes no difference |
| DashboardService.DailyRange | lis/src/main/java/com/biotech/lis/Service/DashboardService.java:27-37 | start = end = the parsed date (today when the date is null or empty), labelled yyyy-MM-dd |
| DashboardService.MonthlyRange | lis/src/main/java/com/biotech/lis/Service/DashboardService.java:39-51 | day 1 to the month's Gregorian last day, labelled yyyy-MM; a date is in range iff it lies in that month |
| DashboardService.YearlyRange | lis/src/main/java/com/biotech/lis/Service/DashboardService.java:53-63 | January 1 to December 31, labelled with the year's digits; a date is in range iff it has that year |
| DashboardService.Filtered | lis/src/main/java/com/biotech/lis/Service/DashboardService.java:73-79 | a transaction is kept iff it has a date with start ≤ date ≤ end |
| DashboardService.FilteredCounts | lis/src/main/java/com/biotech/lis/Service/DashboardService.java:73-79 | each in-range transaction is kept as often as it occurs, and no other |
| DashboardService.FilteredConcat | lis/src/main/java/com/biotech/lis/Service/DashboardService.java:73-79 | filtering keeps list order |
| DashboardService.LineQuantities | lis/src/main/java/com/biotech/lis/Service/DashboardService.java:87 | one quantity per line, null as 0 |
| DashboardService.AllQuantities | lis/src/main/java/com/biotech/lis/Service/DashboardService.java:85-87 | flatMap fails with NPE iff some kept transaction has a null list of lines |
| DashboardService.JavaSumWraps | lis/src/main/java/com/biotech/lis/Service/DashboardService.java:88 | IntStream.sum, wrapping step by step, is the mathematical sum wrapped once |
| DashboardService.TotalQuantity | lis/src/main/java/com/biotech/lis/Service/DashboardService.java:85-88 | the quantity total is the Java-int sum of all line quantities of the filtered transactions |
| DashboardService.DashboardStats | lis/src/main/java/com/biotech/lis/Service/DashboardService.java:21-102 | the count is the size of the filtered list, the quantity is its total, and period and label are echoed; a range error propagates; for a valid range the stats succeed exactly when every kept sale has a non-null items list, and the only other outcome is an NPE |
| DashboardService.NullLinesOnlyMatterInRange | lis/src/main/java/com/biotech/lis/Service/DashboardService.java:73-88 | a null list of lines fails the sum only when its transaction is in range |
| DashboardService.AbsentDateIgnoresParsers | lis/src/main/java/com/biotech/lis/Service/DashboardService.java:28-55 | with a null date no parser result is consulted |
| DashboardService.ShortcutsTakeNoDate | lis/src/main/java/com/biotech/lis/Service/DashboardService.java:105-115 | each shortcut equals getDashboardStats(period, null) |
| DashboardService.TodayRange | lis/src/main/java/com/biotech/lis/Service/DashboardService.java:105-107 | getTodayStats is labelled with today's ISO date |
| DashboardService.CurrentMonthRange | lis/src/main/java/com/biotech/lis/Service/DashboardService.java:109-111 | getCurrentMonthStats covers this month |
| DashboardService.CurrentYearRange | lis/src/main/java/com/biotech/lis/Service/DashboardService.java:113-115 | getCurrentYearStats covers this year |
| LocationService.SaveLocation | lis/src/main/java/com/biotech/lis/Service/LocationService.java:25-51 | save stores the location under its id, keeping the table valid |
| LocationService.AddLocationAsWritten | lis/src/main/java/com/biotech/lis/Service/LocationService.java:18-26 | as written: a null name is an NPE, and a trimmed name that exists ignoring case is refused; otherwise the location is saved with its name as given |
| LocationService.AsWrittenAdmitsDuplicate | lis/src/main/java/com/biotech/lis/Service/LocationService.java:19-25 | with "Cebu " stored, adding "Cebu " again passes the check, and the names are no longer unique |
| LocationService.AddLocationSpec | lis/src/main/java/com/biotech/lis/Service/LocationService.java:18-26 | corrected: succeeds iff the name is non-null and its trimmed form is new ignoring case; the trimmed name is what is saved |
| LocationService.AddKeepsNamesUnique | lis/src/main/java/com/biotech/lis/Service/LocationService.java:19-25 | the corrected add keeps names unique ignoring case |
| LocationService.LocationByName | lis/src/main/java/com/biotech/lis/Service/LocationService.java:32-37 | exact-name lookup: fails with "Location not found with name: " + name iff no location has the name, returns the location when exactly one has it, and fails with NonUniqueResult iff two have it |
| LocationService.UpdateLocationSpec | lis/src/main/java/com/biotech/lis/Service/LocationService.java:39-54 | a lookup failure propagates, and a null new name is an NPE; for a found location and a non-null name it succeeds iff it is not a rename to a name taken ignoring case; a rename to a free name stores the trimmed name; otherwise the found location is kept |
| LocationService.UpdateKeepsNameUnlessRenamed | lis/src/test/java/com/biotech/lis/Service/LocationServiceTest.java:176-195 | a blank new name, or one equal to the current name ignoring case, leaves the location as found (it is still saved) |
| LocationService.UpdateRejectsTakenName | lis/src/main/java/com/biotech/lis/Service/LocationService.java:43-46 | a rename to a name another location holds (ignoring case) fails with "Location name '…' already exists." |
| LocationService.UpdateKeepsNamesUnique | lis/src/main/java/com/biotech/lis/Service/LocationService.java:43-51 | saving the updated location keeps names unique ignoring case |
| LocationService.LocationService.AddLocation | lis/src/main/java/com/biotech/lis/Service/LocationService.java:18-26 | the corrected add on the table; on failure, nothing is saved |
| LocationService.LocationService.GetLocationByName | lis/src/main/java/com/biotech/lis/Service/LocationService.java:32-37 | the lookup on the current table |
| LocationService.LocationService.UpdateLocation | lis/src/main/java/com/biotech/lis/Service/LocationService.java:39-54 | on success the result is saved; on failure, nothing is |
| LocationService.LocationService.DeleteLocation | lis/src/test/java/com/biotech/lis/Service/LocationServiceTest.java:209-220 | deleting an absent id is a silent no-op, and a null id is refused |
| ItemService.BoxedSum | lis/src/main/java/com/biotech/lis/Service/ItemService.java:58 | Integer + Integer: a null operand is an NPE; the sum wraps as a Java int and is exact without overflow |
| ItemService.MergedInventory | lis/src/main/java/com/biotech/lis/Service/ItemService.java:56-71 | the placeholder carries the item's code, brand and stamp; for id 0 it is new with quantity total; otherwise it has that id and total + total |
| ItemService.AddItemSpec | lis/src/main/java/com/biotech/lis/Service/ItemService.java:45-74 | the item is stamped first; success depends on the stamp, both stocks, a non-null id answer and the item code; the item saved is the stamped one |
| ItemService.AddItemMergesInventory | lis/src/main/java/com/biotech/lis/Service/ItemService.java:56-71 | the written record has the code, brand and stamp; quantity is stocksCebu + stocksManila for a new record and twice that for an existing id |
| ItemService.AddItemIgnoresStoredQuantity | lis/src/main/java/com/biotech/lis/Service/ItemService.java:66-70 | the stored quantity of the updated record is never read |
| ItemService.AddItemFailures | lis/src/main/java/com/biotech/lis/Service/ItemService.java:47-73 | a failure before the inventory step leaves both tables as they were; a missing item code fails after the inventory is written |
| ItemService.FindItem | lis/src/main/java/com/biotech/lis/Repository/ItemRepository.java:13 | findItemByItemCode: a null code matches nothing |
| ItemService.GetItemSpec | lis/src/main/java/com/biotech/lis/Service/ItemService.java:76-82 | the stored item, or NOT_FOUND "Item not found with code: …" |
| ItemService.DeleteItemSpec | lis/src/main/java/com/biotech/lis/Service/ItemService.java:88-96 | an unknown code gives NOT_FOUND "… for deletion." and removes nothing; otherwise exactly that item goes |
| ItemService.UpdateItemSpec | lis/src/main/java/com/biotech/lis/Service/ItemService.java:98-123 | the user is parsed first, and an unknown code is NOT_FOUND; success copies the nine fields onto the found item, keeping its code, and restamps it |
| ItemService.UpdateKeepsItemTableValid | lis/src/main/java/com/biotech/lis/Service/ItemService.java:122 | saving the updated item replaces the found row and keeps every item under its own code |
| ItemService.UpdateIdempotent | lis/src/main/java/com/biotech/lis/Service/ItemService.java:109-120 | updating twice with the same item and context saves the same item as updating once |
| ItemService.ItemService.AddItem | lis/src/main/java/com/biotech/lis/Service/ItemService.java:45-74 | the tables and the result are those of the specification, including the inventory write kept when the item save fails |
| ItemService.ItemService.GetItem | lis/src/main/java/com/biotech/lis/Service/ItemService.java:76-82 | getItem on the current table |
| ItemService.ItemService.DeleteItem | lis/src/main/java/com/biotech/lis/Service/ItemService.java:88-96 | the table becomes the specified one, or is unchanged on NOT_FOUND |
| ItemService.ItemService.UpdateItem | lis/src/main/java/com/biotech/lis/Service/ItemService.java:98-123 | on success the found row is overwritten; on failure, nothing is written |
| TransactionEntryController.MappedRowDefaults | lis/src/main/java/com/biotech/lis/Controller/TransactionEntryController.java:78-91 | each null source field becomes "N/A", 0, 0.0 or today; the expiry is always today and addedBy always null |
| TransactionEntryController.Lines | lis/src/main/java/com/biotech/lis/Controller/TransactionEntryController.java:76-95 | one row per line of the sale; none for a null list |
| TransactionEntryController.FlatLinesCount | lis/src/main/java/com/biotech/lis/Controller/TransactionEntryController.java:75-96 | exactly one row per sale line |
| TransactionEntryController.EveryLineListed | lis/src/main/java/com/biotech/lis/Controller/TransactionEntryController.java:75-96 | every line of every sale with a non-null list appears |
| TransactionEntryController.FlatLinesDated | lis/src/main/java/com/biotech/lis/Controller/TransactionEntryController.java:80 | every mapped row has a date |
| TransactionEntryController.CompareAgrees | lis/src/main/java/com/biotech/lis/Controller/TransactionEntryController.java:99-103 | where a date is present, compare ≤ 0 iff newest-first/nulls-last order; two null dates compare as 1 both ways |
| TransactionEntryController.InOrderTransitive | lis/src/main/java/com/biotech/lis/Controller/TransactionEntryController.java:99-103 | the intended order is transitive |
| TransactionEntryController.InOrderTotal | lis/src/main/java/com/biotech/lis/Controller/TransactionEntryController.java:99-103 | any two rows are ordered one way or the other |
| TransactionEntryController.SortedMeaning | lis/src/main/java/com/biotech/lis/Controller/TransactionEntryController.java:98-103 | in a sorted list, dated rows come first in non-increasing date order, and null-dated rows last |
| TransactionEntryController.SortByDate | lis/src/main/java/com/biotech/lis/Controller/TransactionEntryController.java:99-103 | the array ends sorted newest first with nulls last, and is a permutation of its contents |
| TransactionEntryController.SwapBack | lis/src/main/java/com/biotech/lis/Controller/TransactionEntryController.java:99 | exchanging two neighbours keeps the multiset |
| TransactionEntryController.InsertingStart | lis/src/main/java/com/biotech/lis/Controller/TransactionEntryController.java:99 | a sorted prefix starts an insertion |
| TransactionEntryController.InsertingStep | lis/src/main/java/com/biotech/lis/Controller/TransactionEntryController.java:99 | one swap keeps the insertion invariant one place further left |
| TransactionEntryController.InsertingDone | lis/src/main/java/com/biotech/lis/Controller/TransactionEntryController.java:99 | a finished insertion leaves the prefix sorted |
| TransactionEntryController.InsertAt | lis/src/main/java/com/biotech/lis/Controller/TransactionEntryController.java:99 | moves one row left until the prefix is sorted, keeping the multiset |
| TransactionEntryController.AppendLines | lis/src/main/java/com/biotech/lis/Controller/TransactionEntryController.java:76-95 | the inner loop appends exactly the sale's rows |
| TransactionEntryController.CollectRows | lis/src/main/java/com/biotech/lis/Controller/TransactionEntryController.java:69-96 | the legacy records, then each sale's rows in turn |
| TransactionEntryController.GetAllTransactions | lis/src/main/java/com/biotech/lis/Controller/TransactionEntryController.java:65-110 | the response is a permutation of the legacy rows plus the mapped sale rows, sorted newest first with null dates last |
| TransactionEntryController.TransactionExists | lis/src/main/java/com/biotech/lis/Controller/TransactionEntryController.java:59-63 | the endpoint answers false for every id |
| ItemsController.BrandItems | lis/src/main/java/com/biotech/lis/Controller/ItemsController.java:34-36 | an item is kept iff its brand id is non-null and equals the request; a sub-multiset of the store |
| ItemsController.BrandItemsConcat | lis/src/main/java/com/biotech/lis/Controller/ItemsController.java:34-36 | the filter keeps store order |
| ItemsController.ItemsForBrand | lis/src/main/java/com/biotech/lis/Controller/ItemsController.java:33-46 | one code-and-description entry per kept item, in order |
| ItemsController.ListedIffOfBrand | lis/src/main/java/com/biotech/lis/Controller/ItemsController.java:33-46 | an entry is listed iff some item of the brand has that code and description |
| ItemsController.ExpiryRoundTrip | lis/src/main/java/com/biotech/lis/Controller/ItemsController.java:63 | the expiry's ISO text reads back as the same date |
| ItemsController.LotOf | lis/src/main/java/com/biotech/lis/Controller/ItemsController.java:60-66 | the single lot has "N/A" for a null lot or expiry and 0.0 for a null cost; the expiry text is the date's ISO form |
| ItemsController.LocationNames | lis/src/main/java/com/biotech/lis/Controller/ItemsController.java:74-75 | toMap fails with NPE iff some location has a null name; otherwise it covers every location id |
| ItemsController.LocationEntries | lis/src/main/java/com/biotech/lis/Controller/ItemsController.java:77-83 | one entry per ledger row in order: the location's name, or "Unknown ID: " + id, with the row's stock |
| ItemsController.ItemLedger | lis/src/main/java/com/biotech/lis/Controller/ItemsController.java:70 | findByItemCode: the item's ledger rows in row order |
| ItemsController.DetailsSpec | lis/src/main/java/com/biotech/lis/Controller/ItemsController.java:48-87 | an unknown item is not found; otherwise the response holds the item's code, description, its lot and its locations, unless the location map fails |
| ItemsController.DetailsListLedgerRows | lis/src/main/java/com/biotech/lis/Controller/ItemsController.java:70-83 | each ledger row of the item, and only those, gives a location entry in order, labelled by name or "Unknown ID: " + id |
| ItemsController.ItemsController.GetItemDetails | lis/src/main/java/com/biotech/lis/Controller/ItemsController.java:48-87 | the loop's response equals the specification |
| Strings.Trim | lis/src/main/java/com/biotech/lis/Service/BrandService.java:19 | Java trim: the result is the infix of the input left after removing its leading and trailing characters ≤ ' ', and it neither starts nor ends with such a character |
| Strings.TrimOfTrimmed | lis/src/main/java/com/biotech/lis/Service/BrandService.java:44-47 | a string without padding at either end is its own trim |
| Strings.Lower | lis/src/main/java/com/biotech/lis/Service/StockLocatorService.java:51 | toLowerCase maps each character on its own, keeps the length and leaves no ASCII capital |
| Strings.LowerIdempotent | lis/src/main/java/com/biotech/lis/Service/DashboardService.java:26 | lower-casing twice is lower-casing once |
| Int32.Wrap32 | lis/src/main/java/com/biotech/lis/Service/CustomerTransactionService.java:82 | Java int arithmetic: the result is in range and congruent modulo 2^32 |
| Numbers.Format04 | lis/src/main/java/com/biotech/lis/Service/BrandService.java:30 | "%04d": at least four digits, zero-padded |
| Numbers.Format04Injective | lis/src/main/java/com/biotech/lis/Service/BrandService.java:30 | different numbers format differently |
| Numbers.ParseLongFormat04 | lis/src/main/java/com/biotech/lis/Service/BrandService.java:30 | a padded number parses back to itself |
| Numbers.ParseLongIntToString | lis/src/main/java/com/biotech/lis/Service/DashboardService.java:62 | String.valueOf(year) parses back to the year |
| Calendar.MonthLength | lis/src/main/java/com/biotech/lis/Service/DashboardService.java:43 | the Gregorian month length: 28 to 31, and 29 in February of a leap year |
| Calendar.IsoDateRoundTrip | lis/src/main/java/com/biotech/lis/Service/DashboardService.java:31 | the yyyy-MM-dd text of a valid date parses back to it |

## Left out

- **Clock, principal and parsing.** `LocalDateTime.now()`, `LocalDate.now()`, the security context and `LocalDate.parse` / `YearMonth.parse` are parameters (`Audit.Context`, `today`, `DashboardService.Parsed`). The model takes one clock reading per call, so every stamp of one call carries the same time. `getAllTransactions` reads the clock again for every sale line in Java, so its rows could carry different times there; the model gives them all the same `today` and `now`.
- **The user look-up.** The shown `UserService` has no `getUserById`. It is modelled as a look-up in a user map that answers null for an unknown id.
- **A null authentication object.** `getCurrentUser` dereferences the authentication object before its null check, so a null object is an NPE in Java. The model represents only a null principal name, which yields "No authenticated user found".
- **Floating point.** Costs, prices and `totalTransactionValue` are opaque `Double` payloads. The dashboard's floating-point order value is not modelled.
- **Letter case.** Case mapping is ASCII only. That is exact for the seven location names and for the period names.
- **Database behaviour.**
  - Query results in `findAll` order are given as sequences.
  - Generated ids come from a `nextId` counter.
  - `LOWER(...)` in the ledger query uses the same ASCII mapping.
  - Collation (such as MySQL's PAD SPACE) is not modelled. The unique brand name column compares names exactly, where a case-insensitive collation would also refuse names that differ only in case.
- **Transactions.** JPA rollback on `@Transactional` methods is modelled as a snapshot of the tables that is restored on failure. Concurrency and isolation are not modelled.
- **Item-code lookups for inventory.** The repository's schema revisions disagree: `CustomerTransactionService` looks inventory up by item code via `InventoryRepository`, which is keyed by `Integer`. The sale model uses a separate table of totals keyed by item code (`InventoryTotalRepository`).
- **`inventoryService.addInventory(savedEntry)` in createTransactionEntry.** The shown `InventoryService` has only `addInventory(Inventory)`. The call is modelled as building an inventory record from the entry's fields (`TransactionEntryService.InventoryFor`), then stamping and saving it.
- **The inventory side of updateTransactionEntry.** `updateInventoryTrns` is not part of this model, so an update leaves the inventory table as it was.
- **`ItemService.inventoryExists`.** This is not part of this model. Its answer is a parameter of `ItemService.AddItem`.
- **The re-stamp inside addInventory/updateInventory.** These re-stamp the record with the same user and clock reading as the item, so the model keeps the item's stamp.
- **ItemService.UpdateItemSpec** and `Entities.Item` leave out the `@ManyToOne inventory` relation of `Item`. `updateItem` keeps the found item's relation and ignores the caller's, so "every other field is the caller's" holds in the model only because the field is absent.
- **Catalogue revision.** `ItemsController` reads `Inventory` fields (`brandId`, `itemDescription`, `lotNum`, `expiry`, `costOfSale`) that the shown `Inventory` entity lacks. It is modelled over a `CatalogItem` record with those fields, keyed by item code.
- **`toMap` keys.** The location map is keyed by the table's key, which equals `locationId`.
- **Lot numbers** are text, so `lotNum.toString()` is the text itself.
- **TransactionEntryController.SortByDate.**
  - The Java comparator breaks the comparator contract when both dates are null: it returns 1 both ways.
  - `List.sort` (TimSort) may then throw or order such rows arbitrarily, and TimSort is not modelled.
  - The model sorts by the evident intent: newest first, null dates last, with null-dated rows free to stand in any order among themselves.
  - Stability is not proved.
- **The catch in getAllTransactions.** The only exception it could catch here is the comparator's, so the INTERNAL_SERVER_ERROR path is not modelled.
- **BrandService.GenerateItemCodeSpec** does not check the unique brand name column. `GenerateKeepsNamesUnique` shows the column cannot refuse its save for a brand as stored, which is how `createTransactionEntry` passes it.
- **Numbers.ParseLong** reads ASCII digits only. `Long.parseLong` accepts any Unicode decimal digit through `Character.digit`, so "٢٠٢٤" is 2024 in Java and a NumberFormatException in the model. This affects `Audit.ActorId` and `Audit.CurrentUser`.
- **DashboardService.ParseInt** reads ASCII digits only, where `Integer.parseInt` accepts any Unicode decimal digit: a yearly request whose date uses other decimal digits gets a year in Java and a NumberFormatException here.
- **Null sale lines.** A `seq<Sold>` cannot hold a null element. A null `Sold` in a sale's items is an NPE in Java (`CustomerTransactionService.DeductAll`, `TransactionEntryController.Lines`, `TransactionEntryController.AppendLines`) and is not represented. A null items list is modelled.
- **TransactionEntryService.TransactionEntryService.DeleteTransactionEntryByCode** is the corrected, transactional form. The code as written is `DeleteByCodeAsWritten` (see Findings). Its derived delete needs a transaction that the method does not open.
- **Other code.**
  - `getAllExpiringItems`: `Date` and `ZoneId` conversions.
  - The read-only pass-through getters: `getAllStockLocations`, `getBrands`, `getItems` and similar.
  - `deleteStockLocator`, `deleteBrand` and `getBrandById`.
  - The deprecated endpoints that return GONE.
  - The other controllers.
  - User, customer and supplier management.
- **TransactionEntryService.PrepareCreate.** It names only the id facts its callers need. The brand and user checks are stated by `CreateRejectsUnknownBrand` and `CreateFilesUnderOneCode`.
- **Repositories.SaveBrand.** It, `SaveInventory` and `SaveTransaction` model `JpaRepository.save` with generated identity keys. The cited lines are the entities' `@Id` declarations, because the save itself is framework code.

## Findings

| source | as written | input that shows it | evidently intended | confidence | as-written member | corrected member |
|---|---|---|---|---|---|---|
| lis/src/main/java/com/biotech/lis/Service/LocationService.java:18-26 | the duplicate check uses the trimmed name, but the location is saved with the untrimmed name | a table holding "Cebu " (id 1); adding a location named "Cebu " (id 2) passes the check, because "Cebu" is not stored ignoring case, and leaves two locations named "Cebu " | save the trimmed name that was checked, so names stay unique ignoring case | not executed; a database collation that ignores trailing spaces would hide it | LocationService.AsWrittenAdmitsDuplicate | LocationService.AddKeepsNamesUnique |
| lis/src/main/java/com/biotech/lis/Service/TransactionEntryService.java:139-143 | the method is not `@Transactional`: the ledger deduction is saved by its own committed save, then the derived `deleteByItemCode` query, which Spring Data runs only inside a transaction, throws `InvalidDataAccessApiUsageException` (TransactionRequired) | one entry carrying code "AB0001" with its ledger row; deleting by "AB0001" deducts the quantity, fails, keeps the entry, and a retry deducts it again | deduct and remove in one transaction, as `deleteTransactionEntry` does, so a retry finds nothing to deduct | not executed; rests on Spring Data JPA giving derived delete queries no transaction of their own; a transactional caller would hide it | TransactionEntryService.AsWrittenRetryDeductsAgain | TransactionEntryService.DeleteByCodeRetryRefused |
