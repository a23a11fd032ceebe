# Quotation builder for an electric-vehicle dealer — a Dafny model

The application keeps a catalog of vehicles and accessories (batteries and
chargers) in the browser and builds customer documents from it: a quotation
(with quantities and totals) or a price list, in Chinese or in English, with a
CSV export. This project models its logic in Dafny and proves what that logic
promises:

- `types.dfy` (module `Types`): the records of `types.ts` — `Product`,
  `Accessory`, the two-kind `CartItem`, `Language`, `DocumentType` and the
  preset battery labels.
- `cart.dfy` (module `Cart`): the cart operations of the quote builder
  (`addToCart`, `removeFromCart`, `updateQuantity`, `getTotal`, the displayed
  cart), as functions on the cart, with the merge rule and the cart invariant
  (quantities at least 1, no two lines with one merge key) proved for every
  sequence of operations, and the effect of each operation on the grand total.
- `translation.dfy` (module `Translation`): the English view of the cart built
  by the translation effect — vehicles split off, handed to the translator,
  given back their quantity and colour by position, and put in front of the
  other lines. The translator's reply is a parameter.
- `csv_export.dfy` (module `CsvExport`): the header and row cells of
  `exportCSV` and the text of the file, with read-back lemmas (rows split back
  into their cells when no cell holds a comma) and the counterexample for a
  cell that does.
- `quote_generator.dfy` (module `Quote`): the `QuoteGenerator` component as a
  class whose fields are its state variables; each handler is a method whose
  postcondition gives the new state in terms of the functions above and keeps
  the cart invariant.
- `app.dfy` (module `App`): the load-time migration of stored vehicle records
  (legacy comma-separated colours, `priceTaxInc`) and the `App` class that
  appends, replaces and deletes catalog records.
- `product_form.dfy` (module `ProductForm`): the catalog form — the battery
  and colour list editors and the validating, defaulting submit — as a class
  over draft records.
- `product_manager.dfy` (module `ProductManager`): the case-insensitive
  search of the catalog list and its "No items found" condition.
- `seqs.dfy`, `strings.dfy`, `wrappers.dfy`: the JavaScript array and string
  operations the code relies on (`filter`, `find`, `join`, `split`, `trim`,
  `toLowerCase`, `includes`, number to text), with their own contracts.

Numbers are mathematical integers: prices and quantities are whole numbers in
the model, and no JavaScript rounding is modelled.

Behaviours of the code worth knowing:

- The English cart lists all vehicle lines first, then the other lines; the
  cart's own order is not kept (`Translation.VehiclesMoveAhead`).
- The English cart takes every field of the translated product, price and id
  included, from the translator's reply; the grand total stays the same only
  when the translator returns the prices unchanged
  (`Translation.TranslatedTotal`).
- A reply with more products than there are vehicle lines makes the
  reassembly throw, and the untranslated cart is shown; a shorter reply drops
  the vehicle lines it does not cover.
- Only a missing API key makes the translator reject, and then the
  untranslated cart is shown. A failed request or an empty answer makes the
  translator hand back its own input, so the English cart is the cart with its
  vehicle lines moved ahead (`Translation.EchoedTranslation`).
- The row buttons of the document table pass the row's position in the shown
  list to `removeFromCart` and `updateQuantity`, which read it as a position
  in the cart. In English, where the shown list is reordered, they can act on
  another line (see "Findings").
- Removing at an index outside the cart leaves the cart as it is.
- CSV cells are neither quoted nor escaped; the columns are type,
  model/spec, details, colour, unit price (plus quantity and total in a
  quotation), with no index column.

## Model

The cart helpers `Cart.Total`, `Cart.FindLine`, `Cart.Bump` and `Cart.AddLine` have no rows of their own: what they do is stated by the lemmas about them (`Cart.TotalNonNegative`, `Cart.TotalConcat`, `Cart.TotalUpdate`, `Cart.AddLineMerges`, `Cart.AddLineAppends`, `Cart.AddLineTotal`).

| member | source | states |
|---|---|---|
| Types.BatteryOptionsDistinct | types.ts:32-38 | the preset battery labels are five distinct strings |
| Cart.ResolveColor | components/QuoteGenerator.tsx:106 | the colour of a new vehicle line is the chosen colour if non-empty, else the product's first colour, else "Standard" |
| Cart.AddLineMerges | components/QuoteGenerator.tsx:107-111 | adding a line whose merge key is already in the cart raises only that line's quantity by one; length and order are unchanged |
| Cart.AddLineAppends | components/QuoteGenerator.tsx:112 | adding a line whose key is not in the cart appends it at the end |
| Cart.AddLineValid | components/QuoteGenerator.tsx:107-124 | merging or appending a quantity-1 line keeps quantities at least 1 and merge keys distinct |
| Cart.AddSelection | components/QuoteGenerator.tsx:100-127 | `addToCart` adds at most one line, at the end and with quantity 1; every existing line keeps its merge key and gains 0 or 1 unit |
| Cart.AddSelectionValid | components/QuoteGenerator.tsx:100-127 | `addToCart` keeps the cart invariant |
| Cart.AddSelectionUnknownId | components/QuoteGenerator.tsx:100-127 | an empty selection, or an id absent from the active catalog, leaves the cart unchanged |
| Cart.AddVehicle | components/QuoteGenerator.tsx:103-113 | adding a catalog vehicle takes the first product with the id in the resolved colour and either bumps the matching (id, colour) line or appends a quantity-1 line |
| Cart.AddAccessory | components/QuoteGenerator.tsx:115-125 | adding a catalog accessory merges on its id alone, bumping the existing line or appending a quantity-1 line |
| Cart.SameVehicleTwice | components/QuoteGenerator.tsx:107-111 | the same vehicle in the same colour added twice gives one line of quantity 2 |
| Cart.TwoColoursTwoLines | components/QuoteGenerator.tsx:106-112 | the same vehicle in two different chosen colours gives two lines in order of addition |
| Cart.RemoveAt | components/QuoteGenerator.tsx:129-131 | the cart shrinks by one line exactly when the index is inside it |
| Cart.RemoveAtSpec | components/QuoteGenerator.tsx:129-131 | removing deletes exactly the line at the index and keeps the others in order; an out-of-range index changes nothing |
| Cart.RemoveAtValid | components/QuoteGenerator.tsx:129-131 | removing a line keeps the cart invariant |
| Cart.SetQuantity | components/QuoteGenerator.tsx:133-136 | the length and every merge key are kept, and every line other than the one at the index, or every line when the quantity is below 1, is unchanged |
| Cart.SetQuantitySpec | components/QuoteGenerator.tsx:133-136 | a quantity below 1 changes nothing; otherwise only the quantity of the line at the index changes |
| Cart.SetQuantityValid | components/QuoteGenerator.tsx:133-136 | updating a quantity keeps the cart invariant |
| Cart.Apply | components/QuoteGenerator.tsx:100-136 | one action adds at most one line, and a removal or quantity change adds none |
| Cart.ApplyAll | components/QuoteGenerator.tsx:100-136 | a sequence of actions grows the cart by at most one line per action |
| Cart.ApplyAllValid | components/QuoteGenerator.tsx:100-136 | any sequence of add, remove and update operations keeps quantities at least 1 and merge keys distinct |
| Cart.DisplayCart | components/QuoteGenerator.tsx:75 | the shown cart is the cart itself in Chinese and the translated cart in English |
| Cart.TotalNonNegative | components/QuoteGenerator.tsx:138-140 | a cart with no negative price or quantity has a grand total of at least 0 |
| Cart.TotalConcat | components/QuoteGenerator.tsx:138-140 | the grand total of two lists joined is the sum of their totals |
| Cart.TotalUpdate | components/QuoteGenerator.tsx:138-140 | replacing one line changes the total by the difference of the two line totals |
| Cart.AddLineTotal | components/QuoteGenerator.tsx:107-112 | adding one unit raises the total by the merged line's unit price, or by the appended line's total |
| Cart.MergedTotal | components/QuoteGenerator.tsx:110 | a merge raises the total by the unit price of the line merged into |
| Cart.BumpedTotal | components/QuoteGenerator.tsx:110 | one more unit on a line raises the total by that line's unit price |
| Cart.RemoveAtTotal | components/QuoteGenerator.tsx:129-131 | removing a line lowers the total by that line's total; an out-of-range index leaves it unchanged |
| Cart.SetQuantityTotal | components/QuoteGenerator.tsx:133-136 | setting a quantity changes the total by the unit price times the change in quantity |
| Cart.GrandTotalExample | components/QuoteGenerator.tsx:138-140 | two vehicles at 10000 and one accessory at 500 total 20500 |
| Translation.Vehicles | components/QuoteGenerator.tsx:48 | the vehicle part of the split holds only vehicle lines |
| Translation.Others | components/QuoteGenerator.tsx:49 | the other part holds only accessory lines |
| Translation.TranslationRequest | components/QuoteGenerator.tsx:51 | the translator is sent the products of the vehicle lines, one per line, in cart order |
| Translation.Reattach | components/QuoteGenerator.tsx:54-58 | the i-th translated product becomes a vehicle line with the i-th vehicle line's quantity and colour, one line per translated product |
| Translation.TranslatedView | components/QuoteGenerator.tsx:42-73 | in Chinese, with an empty cart, a rejected call or a reply longer than the vehicle list, the English cart is the cart; otherwise the i-th reply product with the i-th vehicle line's quantity and colour, followed by the other lines in cart order |
| Translation.PartitionPermutation | components/QuoteGenerator.tsx:48-49 | the vehicle part and the other part together are a permutation of the cart |
| Translation.PartitionTotal | components/QuoteGenerator.tsx:48-49 | the totals of the two parts add up to the cart's total |
| Translation.EchoedTranslation | components/QuoteGenerator.tsx:54-61 | when the translator echoes its input, the English cart is the vehicle lines followed by the other lines, a permutation of the cart |
| Translation.TranslatedTotal | components/QuoteGenerator.tsx:54-61 | a reply of one product per vehicle with unchanged prices leaves the grand total unchanged |
| Translation.ShownRowToCartIndex | components/QuoteGenerator.tsx:61 | every shown row has a cart line it was built from; where the English cart is not reassembled, that line is at the row's own position |
| Translation.ShownRowOrigin | components/QuoteGenerator.tsx:54-61 | a shown row has its cart line's quantity; an untranslated row is that line, a translated one is the translation of that vehicle line's product with its colour |
| Translation.RemoveShownRow | components/QuoteGenerator.tsx:129-131 | removing a shown row deletes exactly the cart line that row was built from |
| Translation.SetShownQuantity | components/QuoteGenerator.tsx:133-136 | changing a shown row's quantity changes only the cart line that row was built from, and a quantity below 1 changes nothing |
| Translation.ShownIndexRemovesOtherLine | components/QuoteGenerator.tsx:467 | with an accessory added before a vehicle and the English cart shown, the vehicle's delete button removes the accessory |
| Translation.ShownIndexChangesOtherLine | components/QuoteGenerator.tsx:456 | in the same cart, the vehicle's "+" button sets the accessory's quantity to 2 |
| Translation.ShownRowActsOnItsLine | components/QuoteGenerator.tsx:454-467 | mapped back to its cart line, the vehicle's row deletes the vehicle and raises the vehicle's quantity |
| Translation.VehiclesMoveAhead | components/QuoteGenerator.tsx:61 | an accessory added before a vehicle is listed after it in the English cart |
| CsvExport.BaseHeaders | components/QuoteGenerator.tsx:144-149 | every document has five common columns |
| CsvExport.Headers | components/QuoteGenerator.tsx:144-154 | a quotation has seven header cells and a price list five; the first five are the common ones and a quotation's last two are quantity and total ("数量", "总价" in Chinese, "Qty", "Total" in English) |
| CsvExport.Row | components/QuoteGenerator.tsx:156-185 | each row is exactly as wide as the header; it starts with the line's type; the price, quantity and total cells are the bare decimal texts of the price, the quantity and their product (digits only, a minus sign for a negative number, no leading zero, no currency sign) and read back as those numbers; a vehicle shows its model and name, its chosen colour in a quotation and its colours joined by "; " in a price list; an accessory shows "voltage capacity", then "Battery" or "Charger" by its category, then an empty colour cell |
| CsvExport.CsvLines | components/QuoteGenerator.tsx:187-188 | the file has the header cells joined by commas as its first line, then the i-th displayed line's row joined by commas as line i + 1, and nothing else |
| CsvExport.CsvContent | components/QuoteGenerator.tsx:187-188 | the file text is the CSV data-URI prefix with its byte-order mark, followed by the lines joined by newlines |
| CsvExport.RowReadsBack | components/QuoteGenerator.tsx:187-188 | a data line splits back on commas into its row's cells, one per header column, when no cell holds a comma |
| CsvExport.LinesReadBack | components/QuoteGenerator.tsx:187-188 | the file body splits back on newlines into its lines when no cell holds a newline |
| CsvExport.CommaInCellAddsColumn | components/QuoteGenerator.tsx:172-188 | a vehicle whose model is "A,B" gives a quotation line that reads back as eight cells under a seven-column header |
| Quote.QuoteGenerator.constructor | components/QuoteGenerator.tsx:14-19 | a new quote builder has an empty cart, the vehicle category, nothing selected, Chinese and the quotation type |
| Quote.QuoteGenerator.SelectCategory | components/QuoteGenerator.tsx:36-39 | a category button sets the category; the selected item and colour are cleared when the category changes and kept when the active one is clicked again; nothing else changes |
| Quote.QuoteGenerator.SelectItem | components/QuoteGenerator.tsx:270 | the item picker sets the selected id |
| Quote.QuoteGenerator.SelectColor | components/QuoteGenerator.tsx:283 | the colour picker sets the selected colour |
| Quote.QuoteGenerator.SetDocType | components/QuoteGenerator.tsx:299-300 | the type buttons set the document type |
| Quote.QuoteGenerator.SetLanguage | components/QuoteGenerator.tsx:306-307 | the language buttons set the language |
| Quote.QuoteGenerator.AddToCart | components/QuoteGenerator.tsx:100-127 | the new cart is the old one with the selection added by the merge rule, and the invariant holds |
| Quote.QuoteGenerator.RemoveFromCart | components/QuoteGenerator.tsx:129-131 | the new cart is the old one without the line at the index, or unchanged for an out-of-range index; the invariant holds |
| Quote.QuoteGenerator.UpdateQuantity | components/QuoteGenerator.tsx:133-136 | the new cart has only the line at the index set to the new quantity, or is unchanged when the quantity is below 1; the invariant holds |
| Quote.QuoteGenerator.SyncTranslation | components/QuoteGenerator.tsx:42-73 | the translated cart becomes the English view of the cart for the translator's reply |
| Quote.QuoteGenerator.RemoveShownLine | components/QuoteGenerator.tsx:405-467 | given the reply the translated cart was built from, the delete button of a shown row removes the cart line that row was built from, which has the row's quantity; the invariant holds |
| Quote.QuoteGenerator.UpdateShownQuantity | components/QuoteGenerator.tsx:405-456 | given the reply the translated cart was built from, the quantity buttons of a shown row set the quantity of the cart line that row was built from, which has the row's quantity; the invariant holds |
| Quote.QuoteGenerator.Displayed | components/QuoteGenerator.tsx:75 | the document shows the cart in Chinese and the translated cart in English |
| Quote.QuoteGenerator.ExportCsv | components/QuoteGenerator.tsx:142-188 | the file text is the data-URI prefix followed by the CSV lines of the shown cart, for the current language and document type |
| Quote.QuoteGenerator.GetTotal | components/QuoteGenerator.tsx:138-140 | the grand total is that of the cart in Chinese and that of the translated cart in English |
| App.MigrateColors | App.tsx:26-28 | an array of colours is kept; a non-empty string gives one trimmed, comma-free piece per comma-separated part; anything else gives the empty list |
| App.TrimEach | App.tsx:28 | the i-th result is the i-th piece with its leading and trailing white space removed: trimmed, and without a comma when the piece has none |
| App.MigratePrice | App.tsx:29 | a present price is kept; otherwise the tax-inclusive price, or 0 |
| App.Migrate | App.tsx:25-30 | a stored vehicle keeps every field but colours and price, which become the migrated colours and the migrated price |
| App.MigrateAll | App.tsx:24-30 | one record out per stored record, in order, with every field but colours and price copied unchanged |
| App.MigrateColorsRoundTrip | App.tsx:26-28 | trimmed, comma-free colours joined by commas migrate back to exactly those colours |
| App.MigrateColorsPieces | App.tsx:28 | the migrated colours are the trimmed comma-separated parts, which join back into the stored string |
| App.ReplaceById | App.tsx:83-91 | same length and ids; each record with the item's id becomes the item, every other record is kept |
| App.RemoveById | App.tsx:93-101 | exactly the records without the id remain, in their order, and the list shrinks by the number with the id |
| App.SaveThenDelete | App.tsx:70-101 | saving a record with a new id and deleting that id gives back the original list |
| App.ReplaceAbsent | App.tsx:83-91 | an update with an id no record has changes nothing |
| App.ReplaceIdempotent | App.tsx:83-91 | updating twice with the same record is the same as updating once |
| App.ReplaceThenRemove | App.tsx:83-101 | deleting an id after updating it is the same as deleting it straight away |
| App.App.constructor | App.tsx:15-48 | on load, stored vehicles are migrated and stored accessories kept; a missing store gives an empty list |
| App.App.HandleSaveProduct | App.tsx:70-81 | a saved record is appended to its own collection and the other collection is unchanged |
| App.App.HandleUpdateProduct | App.tsx:83-91 | every record of the item's collection with the item's id becomes the item; the other collection is unchanged |
| App.App.HandleDeleteProduct | App.tsx:93-101 | the records with the id leave the chosen collection; the other collection is unchanged |
| ProductForm.Without | components/ProductForm.tsx:87-92 | every occurrence of the value is gone and every other entry stays as often as it was there, in order |
| ProductForm.WithoutNoDuplicates | components/ProductForm.tsx:87-92 | removing a colour keeps a duplicate-free list duplicate-free |
| ProductForm.Toggle | components/ProductForm.tsx:56-65 | an option in the list is removed everywhere; an absent one is appended at the end |
| ProductForm.ToggleTwice | components/ProductForm.tsx:56-65 | toggling an absent option twice gives back the list |
| ProductForm.ToggleNoDuplicates | components/ProductForm.tsx:56-65 | toggling keeps a duplicate-free list duplicate-free |
| ProductForm.AddCustomNoDuplicates | components/ProductForm.tsx:67-85 | a value that passes the add guard keeps a duplicate-free list duplicate-free |
| ProductForm.BuildProduct | components/ProductForm.tsx:108-126 | a vehicle draft is refused exactly when its model or name is missing or empty; otherwise missing texts become "", missing lists [], a missing price 0, and a missing or empty id the fresh one |
| ProductForm.BuildAccessory | components/ProductForm.tsx:131-144 | an accessory draft is refused exactly when its voltage or capacity is missing or empty; otherwise the saved category is the form's active kind |
| ProductForm.ResubmitVehicle | components/ProductForm.tsx:113-125 | submitting an edited vehicle's draft unchanged saves the same vehicle under its own id |
| ProductForm.ProductForm.constructor | components/ProductForm.tsx:28-43 | a form for an accessory starts on its category with its data, one for a vehicle on the vehicle tab with its data, and an empty form on the vehicle tab with empty drafts |
| ProductForm.ProductForm.SetItemType | components/ProductForm.tsx:180 | the tab buttons set the item type |
| ProductForm.ProductForm.SetCustomBattery | components/ProductForm.tsx:241 | the custom battery input holds the typed text |
| ProductForm.ProductForm.SetCustomColor | components/ProductForm.tsx:271 | the custom colour input holds the typed text |
| ProductForm.ProductForm.ToggleBattery | components/ProductForm.tsx:56-65 | the draft's battery list is toggled, a missing list counting as empty, and nothing else in the draft changes |
| ProductForm.ProductForm.AddCustomBattery | components/ProductForm.tsx:67-75 | a new non-empty value is appended and the input cleared; otherwise neither changes |
| ProductForm.ProductForm.AddCustomColor | components/ProductForm.tsx:77-85 | the same rule for the colour list and the colour input |
| ProductForm.ProductForm.RemoveColor | components/ProductForm.tsx:87-92 | the colour leaves the draft's colour list everywhere, the others keep their order |
| ProductForm.ProductForm.Submit | components/ProductForm.tsx:105-150 | the saved record is the validated, defaulted draft or nothing; after saving a new record its draft is cleared, an edited one's kept |
| ProductManager.FilterProducts | components/ProductManager.tsx:18-21 | exactly the vehicles whose lower-cased model or name contains the lower-cased term are kept, each as often as in the catalog, unchanged and in order |
| ProductManager.FilterAccessories | components/ProductManager.tsx:23-26 | exactly the accessories whose lower-cased voltage or capacity contains the lower-cased term are kept, each as often as in the catalog, unchanged and in order |
| ProductManager.EmptySearchKeepsProducts | components/ProductManager.tsx:18-21 | an empty search term lists every vehicle |
| ProductManager.EmptySearchKeepsAccessories | components/ProductManager.tsx:23-26 | an empty search term lists every accessory |
| ProductManager.NoItemsFound | components/ProductManager.tsx:155 | "No items found" shows exactly when no item of the active tab matches the term |

## Left out

- The translator (services/geminiService.ts) is not part of this model: a network call to a hosted language model. Its reply is a parameter: `None` for the rejection on a missing API key, and the request itself for a failed request or an empty answer, which the translator answers with its input.
- The race between overlapping translation calls and the `isTranslating` and `isGeneratingPdf` flags: they are about the interleaving of awaited calls, which this sequential model does not have. `Quote.QuoteGenerator.SyncTranslation` is the effect of one call that has settled.
- PDF generation (`handleDownloadPdf`): foreign rasterisation and PDF calls and floating-point page arithmetic.
- Local storage and JSON: what was stored is a parameter of `App.App.constructor` (`None` for a missing or unreadable store), and the writes after each change are not modelled.
- The logo upload, the API-key check, the application's tabs, `window.confirm` before a delete, `alert` messages and the editing state of the manager: user-interface plumbing with no logic of its own.
- The rendering of the document table (its layout, the details text of accessory rows, `toLocaleString` number formatting). Its row buttons are modelled: `Quote.QuoteGenerator.RemoveFromCart` and `Quote.QuoteGenerator.UpdateQuantity` take a cart position, as the handlers do, and `Translation.ShownIndexRemovesOtherLine` and `Translation.ShownIndexChangesOtherLine` show what the buttons' display position does to them.
- `Date.now()` ids and file names: the fresh id is a parameter of `ProductForm.ProductForm.Submit`; the file name is not modelled, nor `encodeURI` of the CSV text.
- `Quote.QuoteGenerator.ExportCsv` gives the file text for the displayed cart; triggering the download is not modelled.
- The field-by-field input handlers of the form (`handleProductChange`, `handleAccessoryChange`) and `parseFloat(value) || 0` for prices: the draft fields are set directly; prices are whole numbers, so fractional prices and `NaN` are not modelled.
- App.MigrateColors: `trim` and `toLowerCase` are modelled on ASCII only (strings.dfy), so Unicode white space and case are not.
- App.MigrateAll: stored fields other than the record's own are carried along by the JavaScript spread and are not modelled; neither is a stored `price` of `null` or of a non-number type.
- Cart.Total: JavaScript numbers are doubles; the model's sums and products are exact integers.

## Findings

| source | as written | input that shows it | evidently intended | confidence | as-written member | corrected member |
|---|---|---|---|---|---|---|
| components/QuoteGenerator.tsx:405-467 | the delete button calls `removeFromCart(idx)` with `idx` the row's position in the shown list, which is the translated cart in English | English, cart [accessory a, vehicle p], a translator answering with its input: the shown list is [vehicle p, accessory a], and deleting row 0 leaves [vehicle p] | the row's own cart line is deleted, leaving [accessory a] | high; not executed | Translation.ShownIndexRemovesOtherLine | Translation.RemoveShownRow |
| components/QuoteGenerator.tsx:405-456 | the quantity buttons call `updateQuantity(idx, item.quantity ± 1)` with the shown row's position and the shown line's quantity | the same cart: "+" on row 0 (the vehicle) gives [accessory a × 2, vehicle p × 1] | the row's own cart line gets the new quantity: [accessory a × 1, vehicle p × 2] | high; not executed | Translation.ShownIndexChangesOtherLine | Translation.SetShownQuantity |
