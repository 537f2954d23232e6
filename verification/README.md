# Stock management: a Dafny model of its logic

The application is a stock management front end for a medical distributor. Its screens list and edit customers, suppliers and products. This project models the parts that compute something:

- **Inventory aggregation.** `getInventory` turns every product, loaded with its category, unit and stock records, into an inventory item. The item carries the total quantity, a three-way stock status (`IN_STOCK`, `LOW_STOCK`, `OUT_OF_STOCK`) and one line per stock record. Missing relations become `'N/A'`.
- **The inventory table.** This covers the expanded-rows toggle, the name/SKU search, the status badge label and the red/green expiry warning on a lot. A lot is flagged when its expiry date is before now plus three calendar months.
- **The customer and supplier tables.** Each has a search over name, code and optional email.
- **The server actions.** These are `createProduct`, plus create, update and delete for customers and suppliers. Each checks the required fields, fills in defaults and writes to a database table. Database errors become fixed French messages, and a unique-constraint violation (`P2002`) becomes "code already exists".

## Layout

One module per source file, plus four supporting modules:

- `Js` (`js.dfy`): the JavaScript built-ins the code relies on, written out. These are `null` as `Option`, the truthiness behind `a || b`, `toLowerCase`, `includes` and `filter`, with lemmas about them. The lemmas cover `includes` against a positional definition, and `filter` as an order-preserving subsequence that keeps every accepted element with its multiplicity.
- `Calendar` (`calendar.dfy`): dates as `getFullYear`/`getMonth`/`getDate` see them (`ValidDate` holds the normalised ones a `Date` can show), with `Date.prototype.setMonth` written out. A month index past 11 carries into the year. A day the target month lacks runs over into the next month.
- `Store` (`store.dfy`): a Prisma table as a class `Table<R>`. It holds a map from id to record, one unique column (`code` or `sku`) and the ids other tables refer to. Its `Create`, `Update` and `Delete` raise the Prisma error codes `P1001`, `P2002`, `P2003` and `P2025`, each specified by a pure function of the old table. The module also defines `ActionResult`, the `{ success, error }` object, and `Outcome`, a result paired with the table an action leaves.
- `Parties` (`parties.dfy`): the pass-through text fields and constants shared by customers and suppliers.
- `Inventory`, `Products` (`app/actions/inventory.ts`), `InventoryTable`, `Customers`, `CustomersTable`, `Suppliers` and `SuppliersTable`.

Each server action is a method over its `Table`. Its `ensures` clause equates the returned result and the new rows with a pure `...Outcome` function of the old rows. The lemmas and contracts about those functions state what the actions promise.

Inputs the code reads from its environment are parameters:
- `now` stands for `new Date()`.
- `newId` is the id the database generates.
- `connected: bool` says whether the database answers.
- `categories` and `units` are the ids the product's foreign keys must name.
- Each table's `linked` set holds the ids that sales or purchases refer to.

## Model

| member | source | states |
|---|---|---|
| `Inventory.TotalStock` | app/actions/inventory.ts:45 | The `reduce` total, a fold from the left, is exactly the sum of the quantities of that product's stock records taken from the first on. An empty list gives 0. |
| `Inventory.TotalStockAppend` | app/actions/inventory.ts:45 | The total of two runs of records is the sum of their totals. |
| `Inventory.TotalStockZero` | app/actions/inventory.ts:45 | With no negative quantity, the total is at least 0. It is 0 exactly when every record has quantity 0. |
| `Inventory.Classify` | app/actions/inventory.ts:47-49 | OUT_OF_STOCK exactly when the total is 0, whatever the threshold. LOW_STOCK exactly when the total is non-zero and at most `minStock`. IN_STOCK exactly when it is non-zero and above `minStock`. |
| `Inventory.ViewOf` | app/actions/inventory.ts:51-56 | A batch line copies the quantity and the warehouse name. The batch number is `'N/A'` exactly when there is no batch or its number is empty (or is itself `'N/A'`); otherwise it is the batch's number. The expiry date is present exactly when there is a batch with a date, and is then that date. |
| `Inventory.ToItem` | app/actions/inventory.ts:44-69 | `id`, `sku`, `name`, `minStock` and `hasExpiry` are copied. `totalStock` is the sum of the quantities, and the status follows it as in `Classify`. The category and unit are `'N/A'` exactly when missing or empty, and are otherwise the linked name or symbol. There is one batch line per stock record, in order. |
| `Inventory.GetInventory` | app/actions/inventory.ts:44-70 | One item per product, in input order, each built from its own product only. |
| `Inventory.InventoryAppend` | app/actions/inventory.ts:44 | The inventory of a concatenation of product lists is the concatenation of their inventories. |
| `Inventory.OutOfStockIffAllEmpty` | app/actions/inventory.ts:45-48 | With no negative quantity, a product is out of stock exactly when all its stock records are empty. |
| `Products.MinStockOf` | app/actions/inventory.ts:90 | The threshold read from the form, with its fallback of 10, is never 0. It is 10 exactly when the field does not parse or reads 0 or 10, and otherwise it is the parsed value. |
| `Products.TvaOf` | app/actions/inventory.ts:91 | An unreadable VAT rate becomes 0; any parsed rate is kept. |
| `Products.NewProduct` | app/actions/inventory.ts:86-110 | The written product carries the submitted name, SKU, category, unit and description, and origin Algérie. Its threshold is 10 when none parses or 0 is given, and the parsed value otherwise. Its VAT rate is 0 when none parses. |
| `Products.CreateOutcome` | app/actions/inventory.ts:85-117 | A missing or empty name, SKU, category or unit gives the required-fields message with the table untouched. Success happens exactly when those are filled, the database answers, the id and SKU are unused, and the category and unit exist. The new row is then added. Every other failure gives the single duplicate-SKU message with the table untouched. |
| `Products.CreateProduct` | app/actions/inventory.ts:85-117 | The method's result and new table are those of `CreateOutcome`, and the table's unique-SKU invariant holds. |
| `Products.StoredProduct` | app/actions/inventory.ts:99-110 | A stored product carries the submitted name, SKU, category, unit and description, with origin Algérie. A `minStock` of 0, or one that does not parse, is stored as 10, and the stored threshold is positive exactly when the submitted one is not negative. |
| `Products.DuplicateSkuRefused` | app/actions/inventory.ts:114-116 | After a product is created, a second product with the same SKU is refused with the fixed message and the table is unchanged. |
| `InventoryTable.StatusLabel` | components/inventory/InventoryTable.tsx:206-229 | 'En stock' exactly for `IN_STOCK`, 'Stock faible' exactly for `LOW_STOCK`, 'Rupture' for every other status string. |
| `InventoryTable.BadgeOfItem` | components/inventory/InventoryTable.tsx:127 | An item's badge reads 'Rupture' exactly when its total is 0. It reads 'Stock faible' exactly when the total is non-zero and at most the threshold, and 'En stock' exactly when the total is above the threshold. |
| `InventoryTable.ItemMatches` | components/inventory/InventoryTable.tsx:36-39 | An item matches exactly when the lower-cased search occurs at some position of its lower-cased name or SKU. |
| `InventoryTable.FilteredItems` | components/inventory/InventoryTable.tsx:36-39 | The result is an order-preserving subsequence of the items, no longer than them. An item is kept exactly when it matches, and a matching item keeps all its copies, a non-matching one none. |
| `InventoryTable.EmptySearchKeepsAllItems` | components/inventory/InventoryTable.tsx:36-39 | An empty search keeps every item, in order. |
| `InventoryTable.ToggleRow` | components/inventory/InventoryTable.tsx:30-34 | Membership of the id flips. If the id was present, every copy is removed and every other id keeps its count and order. If it was absent, it is appended after the unchanged list. |
| `InventoryTable.ToggleTwiceRestores` | components/inventory/InventoryTable.tsx:30-34 | Toggling an absent id twice gives back the original list. |
| `InventoryTable.ToggleTwiceMovesToEnd` | components/inventory/InventoryTable.tsx:30-34 | Toggling a present id twice leaves the other ids in order and the id once, at the end. |
| `InventoryTable.IsApproachingExpiry` | components/inventory/InventoryTable.tsx:254-258 | Every expiry date in a month before the third month from now is flagged. No date from the fifth month on is, nor from the fourth month when the third month has the day of now. In the third month, when it has that day, exactly the dates before the same day and time are flagged. |
| `InventoryTable.ExpiredIsFlagged` | components/inventory/InventoryTable.tsx:254-258 | A date at or before now is always flagged as approaching expiry. |
| `InventoryTable.ExpiryFlag` | components/inventory/InventoryTable.tsx:171-174 | A lot shows an expiry warning exactly when it has an expiry date. The warning is red exactly when that date is strictly before now plus three months. |
| `InventoryTable.NoBatchNoWarning` | app/actions/inventory.ts:53 | A stock record without a batch gets no expiry warning. |
| `Calendar.SetMonth` | components/inventory/InventoryTable.tsx:256 | `setMonth` keeps the time of day and gives a valid date. When the target month (the month index carried into the year) has the day, the date is that day of the target month. Otherwise it is the month after, on the day minus the target month's length, which is at most 3. |
| `Calendar.ThreeMonthsFrom` | components/inventory/InventoryTable.tsx:255-256 | The horizon is a valid date at the same time of day. It is the same day three months on when that month has the day, and otherwise the overflow day of the fourth month. |
| `Calendar.ThreeMonthsFromIsLater` | components/inventory/InventoryTable.tsx:255-256 | The horizon is strictly after now. |
| `Calendar.JanuaryThirtyFirstRunsOver` | components/inventory/InventoryTable.tsx:256 | January 31 plus three months is May 1. |
| `Calendar.ThreeMonthsFromNotMonotone` | components/inventory/InventoryTable.tsx:254-258 | The horizon of November 30 (March 2) is later than that of December 1 (March 1). A lot expiring on March 1 is flagged on November 30 and not on December 1. |
| `Customers.CreateMessage` | app/actions/customers.ts:67-73 | A failed create reports 'Ce code client existe déjà.' exactly for `P2002`, and 'Erreur lors de la création du client.' for every other code. |
| `Customers.UpdateMessage` | app/actions/customers.ts:126-132 | A failed update reports 'Ce code client existe déjà.' exactly for `P2002`, and 'Erreur lors de la modification.' for every other code. |
| `Customers.CreatedRecord` | app/actions/customers.ts:19-63 | The created customer carries the submitted code, name, email, type and text fields. A balance or credit limit that does not parse is 0. Its country is never empty: the submitted one when given, Algérie otherwise. |
| `Customers.UpdatedRecord` | app/actions/customers.ts:76-122 | The updated customer is the created record with the country as submitted. The two are equal exactly when a country is given. |
| `Customers.CreateOutcome` | app/actions/customers.ts:19-74 | An empty or missing code or name gives the required-fields message with the table untouched. Success happens exactly when the database answers and the id and code are unused; the new record is then added. The duplicate-code message comes exactly when the id or code is taken. Every other failure gives the generic create message. No failure changes the table. |
| `Customers.UpdateOutcome` | app/actions/customers.ts:76-133 | The same guard. Success happens exactly when the database answers, the id exists and no other customer has the code; the record is then replaced. The duplicate-code message comes exactly when another customer has the code. Every other failure gives 'Erreur lors de la modification.' and leaves the table untouched. |
| `Customers.DeleteOutcome` | app/actions/customers.ts:135-144 | Success, with the row removed, happens exactly when the database answers, the customer exists and no sale refers to it. Any failure gives the fixed "lié à des ventes" message and changes nothing. |
| `Customers.CreateCustomer` | app/actions/customers.ts:19-74 | The result and new table are those of `CreateOutcome`; unique codes and the linked set are kept. |
| `Customers.UpdateCustomer` | app/actions/customers.ts:76-133 | The result and new table are those of `UpdateOutcome`; unique codes and the linked set are kept. |
| `Customers.DeleteCustomer` | app/actions/customers.ts:135-144 | The result and new table are those of `DeleteOutcome`; unique codes and the linked set are kept. |
| `Customers.StoredFields` | app/actions/customers.ts:42-63 | A stored customer carries the submitted code, name, email, type and text fields. A balance or credit limit that does not parse becomes 0. The country defaults to Algérie when empty on create, and is stored as submitted on update. |
| `Customers.CreateThenCreateSameCode` | app/actions/customers.ts:67-70 | After a successful create, another create with the same code reports the duplicate code and leaves the table unchanged. |
| `Customers.CreateUpdateKeepCodesUnique` | app/actions/customers.ts:42-63 | Creates and updates never make two customers share a code. |
| `Customers.DeleteThenUpdate` | app/actions/customers.ts:126-131 | Updating a customer just deleted fails with 'Erreur lors de la modification.'. |
| `CustomersTable.Matches` | components/customers/CustomersTable.tsx:29-33 | A customer matches exactly when the lower-cased search occurs at some position of its lower-cased name or code, or of its email when it has one. |
| `CustomersTable.Filtered` | components/customers/CustomersTable.tsx:29-33 | The result is an order-preserving subsequence of `initialData`, no longer than it. A customer is kept exactly when it matches, and a matching customer keeps all its copies, a non-matching one none. |
| `CustomersTable.NullEmailNeverMatches` | components/customers/CustomersTable.tsx:32 | Without an email, a customer matches only on name or code. |
| `CustomersTable.EmptySearchKeepsAll` | components/customers/CustomersTable.tsx:29-33 | An empty search keeps every customer. |
| `Suppliers.CreateMessage` | app/actions/suppliers.ts:63-69 | A failed create reports 'Ce code fournisseur existe déjà.' exactly for `P2002`, and 'Erreur lors de la création du fournisseur.' otherwise. |
| `Suppliers.UpdateMessage` | app/actions/suppliers.ts:117-123 | A failed update reports 'Ce code fournisseur existe déjà.' exactly for `P2002`, and 'Erreur lors de la modification.' otherwise. |
| `Suppliers.CreatedRecord` | app/actions/suppliers.ts:19-59 | The created supplier carries the submitted code, name, email and text fields. A balance that does not parse is 0. Its country is never empty: the submitted one when given, Algérie otherwise. |
| `Suppliers.UpdatedRecord` | app/actions/suppliers.ts:72-113 | The updated supplier is the created record with the country as submitted. The two are equal exactly when a country is given. |
| `Suppliers.CreateOutcome` | app/actions/suppliers.ts:19-70 | The guard, success condition, messages and table effect of `createSupplier`, as for customers. |
| `Suppliers.UpdateOutcome` | app/actions/suppliers.ts:72-124 | The guard, success condition, messages and table effect of `updateSupplier`, as for customers. |
| `Suppliers.DeleteOutcome` | app/actions/suppliers.ts:126-135 | Success exactly when the database answers, the supplier exists and no purchase refers to it. Otherwise the fixed "lié à des achats" message, with nothing changed. |
| `Suppliers.CreateSupplier` | app/actions/suppliers.ts:19-70 | The result and new table are those of `CreateOutcome`; unique codes are kept. |
| `Suppliers.UpdateSupplier` | app/actions/suppliers.ts:72-124 | The result and new table are those of `UpdateOutcome`; unique codes are kept. |
| `Suppliers.DeleteSupplier` | app/actions/suppliers.ts:126-135 | The result and new table are those of `DeleteOutcome`. |
| `Suppliers.StoredFields` | app/actions/suppliers.ts:40-59 | A stored supplier carries the submitted fields; a balance that does not parse becomes 0. The country defaults to Algérie on create only. |
| `Suppliers.CreateThenCreateSameCode` | app/actions/suppliers.ts:63-66 | After a successful create, another create with the same code reports the duplicate code. |
| `Suppliers.CreateUpdateKeepCodesUnique` | app/actions/suppliers.ts:40-59 | Creates and updates never make two suppliers share a code. |
| `Suppliers.DeleteThenUpdate` | app/actions/suppliers.ts:117-122 | Updating a supplier just deleted fails with 'Erreur lors de la modification.'. |
| `SuppliersTable.Matches` | components/suppliers/SuppliersTable.tsx:29-33 | A supplier matches exactly when the lower-cased search occurs at some position of its lower-cased name or code, or of its email when it has one. |
| `SuppliersTable.Filtered` | components/suppliers/SuppliersTable.tsx:29-33 | The result is an order-preserving subsequence of `initialData`, no longer than it. A supplier is kept exactly when it matches, and a matching supplier keeps all its copies, a non-matching one none. |
| `SuppliersTable.NullEmailNeverMatches` | components/suppliers/SuppliersTable.tsx:32 | Without an email, a supplier matches only on name or code. |
| `SuppliersTable.EmptySearchKeepsAll` | components/suppliers/SuppliersTable.tsx:29-33 | An empty search keeps every supplier. |
| `Store.CreateError` | app/actions/customers.ts:43 | `create` raises `P2002` exactly when the database answers and the id or unique value is taken. It succeeds exactly when it answers, nothing is taken and the foreign keys resolve. Success keeps the unique column unique. |
| `Store.UpdateError` | app/actions/customers.ts:101 | `update` raises `P2002` exactly when the database answers, the record exists and another one has the new unique value. It succeeds exactly when the database answers, the record exists and no other has the value, and uniqueness is kept. |
| `Store.Table.Create` | app/actions/customers.ts:43 | Inserts the record exactly when `CreateError` reports none, and otherwise leaves the rows as they were. Unique codes and the linked set are kept. |
| `Store.Table.Update` | app/actions/customers.ts:101 | Replaces the record exactly when `UpdateError` reports none, and otherwise leaves the rows as they were. Unique codes and the linked set are kept. |
| `Store.Table.Delete` | app/actions/customers.ts:137 | Removes the record exactly when `DeleteError` reports none, and otherwise leaves the rows as they were. |
| `Store.DeleteError` | app/actions/customers.ts:137 | `delete` succeeds exactly when the database answers, the record exists and nothing refers to it. It never raises `P2002`. |

## Left out

- Database reads are not modelled: the Prisma queries of `getInventory`, `getCategories`, `getUnits`, `getCustomers` and `getSuppliers`, with their joins and `orderBy: name`. The aggregation starts from the loaded products, in whatever order they come.
- The rethrow of a failed inventory fetch (app/actions/inventory.ts:71-74) is not modelled; it only wraps an I/O error.
- `revalidatePath` and `console.error` are left out; they are cache and logging side effects.
- Number parsing: `parseInt`/`parseFloat` results are inputs (`Option<int>`/`Option<real>`, None for NaN). Amounts are exact reals, not IEEE doubles, and `-0` is not distinguished.
- Quantities, `minStock` and `totalStock` are unbounded integers. In JavaScript they are doubles, exact only up to 2^53, so a total beyond that would be rounded there and is exact here.
- `toLowerCase` folds only ASCII letters. Unicode case mapping (accented capitals, for one) is not modelled.
- Time: `new Date()` is the parameter `now`. Dates are local calendar fields; time zones and daylight-saving shifts are not modelled. French date formatting (date-fns) is left out.
- Database schema constraints other than the unique `code`/`sku`, the primary key and the foreign keys named above are not modelled. One example is a required column receiving `null`.
- The id Prisma generates for a new row is the parameter `newId`. A collision with an existing id is reported as `P2002`, as the primary key would report it.
- React rendering, animations and the sheets' open/close state are left out, and so are the forms (`AddProductSheet`, `AddCustomerSheet`, `AddSupplierSheet`), the sidebar, the hard-coded dashboard and the placeholder pages.
- The delete confirmation dialog and the `alert` of the tables are left out: they are browser interaction.
- The customers and suppliers tables' balance colouring is left out: it is display only.
