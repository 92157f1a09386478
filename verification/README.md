# Order fulfilment of the course shop, modelled in Dafny

The shop sells courses. Its backend keeps three collections: products with a price and a stock, one cart per shopper, and orders. A shopper is identified by a user id, or by a guest session id when not logged in.

- **Cart.** The cart controller fetches or creates the shopper's cart. It edits the cart's lines in place: add, set a quantity, remove, clear. Then it saves the cart, and a pre-save hook recomputes the unit count and the amount from the lines.
- **Checkout.** Checkout runs a fixed chain of checks: address, payment method, cart, then every line against the live stock. It then does four things:
  - snapshots the lines into a new order;
  - numbers the order `ORD-YYYYMMDD-NNNNN` from the day's last number;
  - takes the ordered units off the stock;
  - empties the cart.
- **Preview.** A side-effect-free preview prices the cart: free shipping from 500,000, otherwise 30,000, plus a 10% tax.
- **Orders.** The order controller lists and counts a shopper's orders and shows one order to its owner. It also cancels an order that is not delivered or already cancelled, giving the stock back.
- **Checkout page.** The checkout page validates its form before submitting, and editing a field clears that field's error.

The model is one sequential state, `Shop.Shop`:
- the catalog, a map from product id to product;
- a map from key (user id or session) to a `CartModel.Cart` object;
- the orders as a sequence, whose index is the order id and whose order is creation order.

The cart controller's in-place edits are methods of `Cart`, and the pre-save hook is `Cart.Save`. Each request is a method of `Shop` and is proved against a function that says what the request does (`CartEdits.AddRequest`, `CartEdits.UpdateRequest`, `Checkout.CheckoutFailure`, `OrderLifecycle.CancelFailure` and others). Each method also keeps `Shop.Valid()`:
- no stock is negative;
- every cart is stored under its own key, holds at most one line per product, has distinct line ids and quantities of at least one, and has totals equal to the folds over its lines;
- every order satisfies the order schema and the price identity;
- no two orders share a number.

The loops of checkout (checking each line, taking stock) and of cancellation (restoring stock) are methods with loop invariants: `Shop.CheckLines`, `Shop.TakeStock`, `Shop.RestoreStock`. The checkout page's form is the class `CheckoutForm.Form`.

Other modelling choices:
- Money is `int`. Tax and total are `real`, so one tenth is exact.
- The date of an order and the time of a cancellation are parameters.

Behaviour of the code worth knowing before reading the contracts:
- **Add-to-cart stock check.** The check compares only the requested quantity with the stock, not the units already in the cart plus the request (`CartEdits.AddCanExceedStock`).
- **Checkout has no rollback.** The order is created first; only then is the stock decremented and the cart cleared.
- **Cancelling a delivered order.** The refusal is "Cannot cancel delivered orders" (`CannotCancelDelivered`).
- **Lookups on the checkout routes.** The lookups by order id and by order number check no ownership (`OrderLifecycle.OrderById`, `OrderLifecycle.FindByNumber`).

## Model

| member | source | states |
|---|---|---|
| Catalog.Adjust | backend/src/controllers/checkoutController.js:103-106 | an atomic increment moves the stock of that product by exactly `delta` and leaves the other products and the key set alone; an unknown id changes nothing |
| Text.IsSpace | backend/src/models/Order.js:30 | the characters the `trim` option strips: tab, the vertical tab, form feed, space, no-break space, the byte-order mark, the line terminators and every Unicode space separator; `TrimStartShape` and `TrimEndShape` use it |
| Text.TrimStart | backend/src/models/Order.js:26-59 | stripping leading white space; its properties are stated by `TrimStartShape` |
| Text.TrimEnd | backend/src/models/Order.js:26-59 | stripping trailing white space; its properties are stated by `TrimEndShape` |
| Text.Trim | backend/src/models/Order.js:26-59 | the `trim` option of each address field, both ends stripped; its properties are stated by `TrimStartShape`, `TrimEndShape` and `TrimEmptyIffBlank` |
| Text.TrimStartShape | backend/src/models/Order.js:26-59 | trimming the start removes exactly a prefix of white space and stops at a non-space character |
| Text.TrimEndShape | backend/src/models/Order.js:26-59 | trimming the end removes exactly a suffix of white space and stops at a non-space character |
| Text.TrimEmptyIffBlank | frontend/src/components/Checkout/Checkout.jsx:69-85 | a trimmed value is empty if and only if the value is all white space |
| Text.Utf16Length | backend/src/models/Order.js:122-125 | the length the notes limit counts is between the number of characters and twice that number |
| Text.Decimal | backend/src/models/Order.js:151 | the decimal form of a number is a non-empty digit string |
| Text.DecimalValue | backend/src/models/Order.js:151 | reading the decimal form back gives the number |
| Text.Zeros | backend/src/models/Order.js:151 | the padding is `k` zero digits |
| Text.PadZeros | backend/src/models/Order.js:151 | zero padding reaches the width, never truncates, and ends with the original string |
| Text.LeadingZerosValue | backend/src/models/Order.js:151 | leading zeros do not change the value of a digit string |
| Text.PaddedDecimalValue | backend/src/models/Order.js:151 | a zero-padded decimal reads back as the number, whatever its width |
| Text.Split | backend/src/models/Order.js:147 | splitting always yields at least one field |
| Text.SplitNoSep | backend/src/models/Order.js:147 | a string without the separator splits into itself |
| Text.SplitAtSep | backend/src/models/Order.js:147 | splitting `a + sep + b`, with no separator in `a`, yields `a` followed by the fields of `b` |
| Text.LeadingDigits | backend/src/models/Order.js:147 | the leading digit run is a digit prefix of the string that stops at its end or at its first non-digit, so it is the longest one |
| Text.DigitsValue | backend/src/models/Order.js:147 | the value of a digit string, most significant digit first; its properties are stated by `DecimalValue`, `LeadingZerosValue`, `DigitsInjective` and `DigitsOrder` |
| Text.DigitCharValue | backend/src/models/Order.js:151 | the digit character of a value below ten reads back as that value |
| Text.EightDigitsValue | backend/src/models/Order.js:137-138 | an eight-digit string is worth its digits weighted by 10^7 down to 1 |
| Text.LeadingDigitsOfDigits | backend/src/models/Order.js:147 | an all-digit string is its own leading run |
| Text.ParseInt | backend/src/models/Order.js:147 | parsing gives NaN exactly when the string does not start with a digit |
| Text.LexLessCommonPrefix | backend/src/models/Order.js:141-143 | string order ignores a common prefix |
| Text.DecimalLength | backend/src/models/Order.js:151 | a number below 10^k has at most k decimal digits |
| Text.DigitsInjective | backend/src/models/Order.js:147 | two digit strings of the same length and value are equal |
| Text.DigitsOrder | backend/src/models/Order.js:141-143 | of two digit strings of the same length, the one with the smaller value sorts first as a string |
| CartModel.TotalItems | backend/src/models/Cart.js:47-49 | the sum of the line quantities the save hook stores as `totalItems`; its properties are stated by `TotalsAppend`, `TotalsReplace` and `TotalsBounds` |
| CartModel.TotalAmount | backend/src/models/Cart.js:47-49 | the sum of price times quantity the save hook stores as `totalAmount`; its properties are stated by `TotalsAppend`, `TotalsReplace` and `TotalsBounds` |
| CartModel.TotalsAppend | backend/src/models/Cart.js:47-49 | the unit count, the amount and each product's units of a concatenation are the sums over the parts |
| CartModel.TotalsReplace | backend/src/models/Cart.js:47-49 | replacing one line moves each total by the new line's share minus the old line's |
| CartModel.TotalsBounds | backend/src/models/Cart.js:9-18 | with the line schema, a cart holds at least one unit per line and a non-negative amount |
| CartModel.CartQuantityOfLine | backend/src/controllers/cartController.js:73-87 | with one line per product, a product's units are those of its line |
| CartModel.CartQuantityAbsent | backend/src/controllers/cartController.js:73-87 | a product with no line has no units |
| CartModel.Cart.constructor | backend/src/controllers/cartController.js:9-16 | a new cart has the key, no lines and both totals zero |
| CartModel.Cart.Save | backend/src/models/Cart.js:47-51 | the totals are overwritten with the sum of quantities and the sum of price times quantity; the lines stay |
| CartModel.Cart.IncreaseQuantity | backend/src/controllers/cartController.js:79 | exactly line `i` gains `quantity` units; nothing else changes |
| CartModel.Cart.Push | backend/src/controllers/cartController.js:82-86 | exactly one line is appended, with a fresh id, the product, the quantity and the price |
| CartModel.Cart.SetQuantity | backend/src/controllers/cartController.js:142 | exactly line `i` gets the new quantity (set, not added) |
| CartModel.Cart.RemoveLine | backend/src/controllers/cartController.js:171 | the lines become those with another id, in order |
| CartModel.Cart.ClearLines | backend/src/controllers/cartController.js:199 | the cart has no lines |
| CartModel.Without | backend/src/controllers/cartController.js:171 | the filter that drops the lines with the id; its properties are stated by `WithoutKeepsOthers`, `WithoutAbsent`, `WithoutIdempotent`, `WithoutTotals` and `WithoutValid` |
| CartModel.WithoutKeepsOthers | backend/src/controllers/cartController.js:171 | removal keeps exactly the lines with another id: none is lost and none with the id remains |
| CartModel.WithoutAbsent | backend/src/controllers/cartController.js:171 | removing an id no line has is a no-op, not an error |
| CartModel.WithoutIdempotent | backend/src/controllers/cartController.js:171 | removing an id twice is removing it once |
| CartModel.WithoutTotals | backend/src/controllers/cartController.js:171 | removal takes exactly the removed lines' units and amount off the totals |
| CartModel.WithoutValid | backend/src/controllers/cartController.js:171 | removal keeps the lines well-formed |
| CartEdits.FindFrom | backend/src/controllers/cartController.js:73-75 | the product search finds the first line of the product, reports none when no line has it, and fails on a line whose populated product is null before reaching it |
| CartEdits.AddLine | backend/src/controllers/cartController.js:73-89 | the line edit of an add fails only with a thrown error or a schema rejection |
| CartEdits.AddLineFails | backend/src/controllers/cartController.js:73-89 | the edit throws exactly when a line before any match refers to a deleted product, and the schema rejects it exactly when the resulting quantity of the product's line, or of a new line, is below one |
| CartEdits.AddToExistingLine | backend/src/controllers/cartController.js:76-79 | adding a product that has a line raises that line's quantity by the request and nothing else; every other line is unchanged and the amount grows by that line's price times the quantity |
| CartEdits.AddNewLine | backend/src/controllers/cartController.js:82-86 | adding a product without a line appends exactly one line with the fresh id, the product, the quantity and the product's current price; the amount grows by that price times the quantity |
| CartEdits.Requested | backend/src/controllers/cartController.js:49 | a missing quantity defaults to one; `AddRequest` and `AddCanExceedStock` state what the add does with it |
| CartEdits.AddRequest | backend/src/controllers/cartController.js:49-87 | an unknown product is refused as not found, and a stock below the requested quantity (default 1) as not enough stock, exactly; once both checks pass the answer is exactly that of the line edit `AddLine` |
| CartEdits.AddLineEffect | backend/src/controllers/cartController.js:73-89 | a successful add raises the product's units and the unit count by exactly the quantity, changes no other product, appends a line only when the product had none, and keeps the lines well-formed |
| CartEdits.AddCanExceedStock | backend/src/controllers/cartController.js:62-67 | the stock check ignores the units already in the cart, so a cart can hold more units than the stock |
| CartEdits.FindLineById | backend/src/controllers/cartController.js:125-131 | the line lookup finds the first line with the id, or reports that none has it |
| CartEdits.UpdateLine | backend/src/controllers/cartController.js:125-142 | a missing line id is refused as not found; a line whose product is gone throws; a missing quantity is a schema rejection; a stock below the quantity is refused as not enough stock; each exactly, and the update succeeds exactly when the line exists and the stock covers the quantity |
| CartEdits.UpdateRequest | backend/src/controllers/cartController.js:116-142 | a quantity below one is refused first, exactly then; a successful update had a quantity of at least one; otherwise the answer is exactly that of `UpdateLine`, whose contract gives each refusal |
| CartEdits.UpdateLineEffect | backend/src/controllers/cartController.js:125-143 | a successful update sets the quantity of exactly the line with the id to a value the stock covers; every other line and the line count stay; the unit count moves by the difference |
| OrderModel.ParsePaymentMethod | backend/src/models/Order.js:81-86 | a payment method is accepted exactly when it is one of the four names, and then names that method |
| OrderModel.PaymentMethodRoundTrip | backend/src/models/Order.js:81-86 | every method's name is accepted as that method |
| OrderModel.StatusNamesDistinct | backend/src/models/Order.js:87-121 | distinct statuses have distinct stored names |
| OrderModel.Take | backend/src/controllers/checkoutController.js:102-107 | the stock decrements of an order's lines, one atomic increment per line in order; its properties are stated by `TakeEffect`, `RestoreUndoesTake` and `TakeKeepsCatalogValid` |
| OrderModel.Restore | backend/src/controllers/orderController.js:146-151 | the stock increments of a cancelled order's lines; its properties are stated by `RestoreEffect`, `RestoreUndoesTake` and `RestoreKeepsCatalogValid` |
| OrderModel.TakeEffect | backend/src/controllers/checkoutController.js:102-107 | taking an order's lines lowers each product's stock by exactly the units ordered of it and changes nothing else |
| OrderModel.RestoreEffect | backend/src/controllers/orderController.js:146-151 | restoring an order's lines raises each product's stock by exactly the units ordered of it and changes nothing else |
| OrderModel.RestoreUndoesTake | backend/src/controllers/orderController.js:146-151 | cancelling gives back exactly what checkout took: restoring after taking leaves the catalog as it was |
| OrderModel.TakeKeepsCatalogValid | backend/src/controllers/checkoutController.js:64-107 | with one line per product and every line covered by its stock, taking the lines keeps every stock non-negative |
| OrderModel.RestoreKeepsCatalogValid | backend/src/controllers/orderController.js:146-151 | restoring lines keeps every stock non-negative |
| Pricing.ShippingPrice | backend/src/controllers/checkoutController.js:6-9 | shipping is 0 exactly from 500,000 up (inclusive) and 30,000 exactly below |
| Pricing.Tax | backend/src/controllers/checkoutController.js:12-14 | tax is exactly one tenth of the items price, between 0 and the items price |
| Pricing.PricesFor | backend/src/controllers/checkoutController.js:81-84 | shipping is 0 from 500,000 up and 30,000 below, the tax is one tenth of the items price, the total is the items price plus shipping plus tax, and no price is negative for a non-negative items price |
| Pricing.BelowThresholdExample | backend/src/controllers/checkoutController.js:6-14 | 200,000 of items cost 250,000 in total |
| Pricing.AtThresholdExample | backend/src/controllers/checkoutController.js:7 | at exactly 500,000 shipping is free |
| OrderNumber.DateStamp | backend/src/models/Order.js:137-138 | the date part is eight digits; `DateStampValue` states that they read as YYYYMMDD |
| OrderNumber.DateStampValue | backend/src/models/Order.js:136-138 | the date part read as a number is YYYYMMDD: year × 10000 + month × 100 + day |
| OrderNumber.FourDigits | backend/src/models/Order.js:138 | a year below 10000 is the sum of its four digits' shares, which is why four digits carry it |
| OrderNumber.Prefix | backend/src/models/Order.js:141-142 | the day's prefix `ORD-` + date part that the lookup pattern anchors; `FormatHasPrefix` states that every number of the day carries it |
| OrderNumber.SequenceField | backend/src/models/Order.js:151 | the sequence field is at least five digits |
| OrderNumber.Format | backend/src/models/Order.js:151 | the number `ORD-` + date part + `-` + the padded sequence; its properties are stated by `FormatRoundTrip`, `FormatHasPrefix` and `FormatOrder` |
| OrderNumber.SequenceOf | backend/src/models/Order.js:147 | the third dash-separated field parsed as an integer, or NaN; its properties are stated by `SequenceOfFields` and `FormatRoundTrip` |
| OrderNumber.SequenceOfFields | backend/src/models/Order.js:147 | the third dash-separated field of `a-b-c` parses to the value of `c` |
| OrderNumber.FormatRoundTrip | backend/src/models/Order.js:147-151 | reading the sequence back from a formatted number gives the sequence, for every sequence |
| OrderNumber.FormatHasPrefix | backend/src/models/Order.js:142 | every number issued on a day starts with that day's prefix |
| OrderNumber.MaxSequence | backend/src/models/Order.js:141-149 | the day's greatest sequence bounds every sequence issued that day and is one of them (or 0) |
| OrderNumber.NextSequence | backend/src/models/Order.js:145-149 | the next sequence is above every sequence issued that day and is one more than one of them, or 1 on a day without numbers |
| OrderNumber.NextNumberIsFresh | backend/src/models/Order.js:70-75 | the next number of a day is none of the numbers already issued (the unique constraint holds) |
| OrderNumber.NextSequenceDense | backend/src/models/Order.js:145-151 | after the next number is issued, the one after it has the following sequence |
| OrderNumber.LastOfDay | backend/src/models/Order.js:141-143 | the store's "last order of the day" is a number with the prefix that no other such number exceeds in string order |
| OrderNumber.NextSequenceAsWritten | backend/src/models/Order.js:141-149 | the hook as written: one more than the sequence of the string-greatest number with the day's prefix, NaN when that does not parse; its behaviour is stated by `AsWrittenRepeatsAfter99999` and `AsWrittenAgreesBelow100000` |
| OrderNumber.AsWrittenRepeatsAfter99999 | backend/src/models/Order.js:141-151 | as written, after sequence 100,000 the hook issues 100,000 again |
| OrderNumber.SixDigitsSortFirst | backend/src/models/Order.js:143 | in string order the number ending 99999 does not sort below the one ending 100000 |
| OrderNumber.FiveDigitField | backend/src/models/Order.js:151 | below 100000 the sequence field is exactly five digits |
| OrderNumber.FormatOrder | backend/src/models/Order.js:141-151 | below 100000, a smaller sequence gives a number that sorts first as a string |
| OrderNumber.LastIsIssued | backend/src/models/Order.js:141-143 | while the day's numbers are the hook's five-digit ones, the last of the day is one of them, with its sequence |
| OrderNumber.LastCarriesMax | backend/src/models/Order.js:141-151 | while the day's numbers are the hook's five-digit ones, the string-greatest number carries the greatest sequence |
| OrderNumber.AsWrittenIsMaxPlusOne | backend/src/models/Order.js:141-151 | while the day's numbers are the hook's five-digit ones, the hook's next sequence is the greatest plus one |
| OrderNumber.AsWrittenAgreesBelow100000 | backend/src/models/Order.js:141-151 | while every number of the day is one the hook issued with a sequence below 100000, the hook's string-sorted computation gives the same next sequence as `NextSequence` |
| OrderNumber.LastOfTwo | backend/src/models/Order.js:141-143 | of two numbers with the prefix, the string-greater one is the last |
| Checkout.LineFailure | backend/src/controllers/checkoutController.js:55-69 | a line passes exactly when its product exists with stock covering the quantity; a missing product is gone; otherwise the failure names the product and its stock |
| Checkout.LineFailureAsWritten | backend/src/controllers/checkoutController.js:43-62 | the line check as written, where a deleted product throws; `AsWrittenGoneProductThrows` states the difference |
| Checkout.AsWrittenGoneProductThrows | backend/src/controllers/checkoutController.js:55-62 | as written, a line whose product was deleted fails with a thrown error, never with the product-gone answer |
| Checkout.FirstLineFailure | backend/src/controllers/checkoutController.js:54-78 | the line check passes exactly when every line passes; otherwise it reports the failure of the first failing line in cart order |
| Checkout.FirstLineFailureAt | backend/src/controllers/checkoutController.js:54-69 | when line `i` is the first to fail, the line check reports its failure |
| Checkout.SchemaFailure | backend/src/models/Order.js:61-125 | the order schema accepts exactly a known payment method, notes of at most 500 UTF-16 code units, four required address fields that are not blank and an order number |
| Checkout.CreateCheckAsWritten | backend/src/models/Order.js:70-75 | validation as written, run before the hook assigns a number; `AsWrittenCreateAlwaysRejected` states that it always fails |
| Checkout.AsWrittenCreateAlwaysRejected | backend/src/models/Order.js:134-154 | as written, validation runs before the hook assigns the number, so every order creation is rejected |
| Checkout.CreateCheck | backend/src/controllers/checkoutController.js:87-99 | with the number assigned first, creation is accepted exactly when the schema's other conditions hold |
| Checkout.CheckoutFailure | backend/src/controllers/checkoutController.js:26-99 | the checks run in the controller's order; each of the first three failures happens exactly when every earlier check passed and its own failed; after them the answer is the first failing line's (`FirstLineFailure`), and otherwise the schema's answer on the new order (`CreateCheck`) |
| Checkout.SnapshotLine | backend/src/controllers/checkoutController.js:71-77 | an order line takes the name and picture from the live product, and the quantity and unit price from the cart line |
| Checkout.SnapshotLineAsWritten | backend/src/controllers/checkoutController.js:76 | the order line as written, copying a picture field the product schema does not have; `AsWrittenSnapshotDropsImage` states the loss |
| Checkout.AsWrittenSnapshotDropsImage | backend/src/controllers/checkoutController.js:76 | as written, an order line never carries the product's picture |
| Checkout.Snapshot | backend/src/controllers/checkoutController.js:53-78 | the order lines are the snapshots of the cart lines, one for one, in order |
| Checkout.SnapshotAmount | backend/src/controllers/checkoutController.js:81 | the order lines add up to the cart's stored amount |
| Checkout.SnapshotValid | backend/src/controllers/checkoutController.js:71-77 | the order lines of a well-formed cart have one line per product, quantities of at least one and non-negative prices |
| Checkout.NewOrder | backend/src/controllers/checkoutController.js:87-99 | the document `Order.create` is given: the caller, the lines, the stored address, the method, the notes, the prices and the number; its properties are stated by `NewOrderValid` and `OrderLifecycle.CreatorMayAct` |
| Checkout.NewOrderValid | backend/src/controllers/checkoutController.js:87-99 | the created order satisfies the order schema and the price identity |
| Checkout.StoredAddress | backend/src/models/Order.js:26-59 | the address as stored, every field trimmed; its properties are stated by `StoredAddressComplete` |
| Checkout.StoredAddressComplete | backend/src/models/Order.js:26-46 | after trimming, the four required address fields of a non-blank submission are non-empty |
| Checkout.PassedChecks | backend/src/controllers/checkoutController.js:26-78 | a request that passes every check has a complete address, a known payment method, short notes and a non-empty cart whose every product exists with enough stock |
| Checkout.PreviewOf | backend/src/controllers/checkoutController.js:195-216 | the preview is refused exactly for a missing or empty cart; otherwise its prices are `PricesFor` of the cart's amount: shipping 0 from 500,000 up and 30,000 below, and a tax of one tenth |
| OrderLifecycle.MayAct | backend/src/controllers/orderController.js:71-73 | the authorisation of details and cancel: the caller's user id, or a non-empty session id, matches the order's; its properties are stated by `CreatorMayAct` and `OwnedMayAct` |
| OrderLifecycle.CreatorMayAct | backend/src/controllers/checkoutController.js:88-89 | whoever places an order may later open and cancel it and finds it in their listing |
| OrderLifecycle.OwnedMayAct | backend/src/controllers/orderController.js:71-73 | every order in a caller's listing is one they may open and cancel |
| OrderLifecycle.CancellableStatuses | backend/src/controllers/orderController.js:125-137 | exactly pending, processing and shipped orders can be cancelled |
| OrderLifecycle.CancelFailure | backend/src/controllers/orderController.js:100-137 | cancel answers not found, then forbidden, then delivered, then already cancelled, each exactly when the earlier checks passed and its own failed |
| OrderLifecycle.CancelledOrder | backend/src/controllers/orderController.js:140-142 | the order after cancelling; its properties are stated by `CancelEffect` |
| OrderLifecycle.CancelEffect | backend/src/controllers/orderController.js:140-142 | cancelling sets the status, the time and a non-empty reason and nothing else (the number included), keeps the order valid, and a second cancel is refused |
| OrderLifecycle.Details | backend/src/controllers/orderController.js:57-85 | the details request gives the order exactly to a caller who may act on it; otherwise not found before forbidden |
| OrderLifecycle.OrderById | backend/src/controllers/checkoutController.js:133-145 | the lookup by id gives any existing order to any caller |
| OrderLifecycle.FindByNumber | backend/src/controllers/checkoutController.js:160-169 | the lookup by number finds an order with that number, or reports that none has it |
| OrderLifecycle.NumbersOf | backend/src/models/Order.js:141-143 | the issued numbers are those of the stored orders, in order |
| OrderLifecycle.FindOwnNumber | backend/src/controllers/checkoutController.js:160-169 | with distinct numbers, looking an order up by its number finds that order |
| OrderLifecycle.PageParam | backend/src/controllers/orderController.js:14 | a given non-zero page is used as given; a missing, non-numeric or zero page is 1 |
| OrderLifecycle.LimitParam | backend/src/controllers/orderController.js:15 | a given non-zero page size is used as given; a missing, non-numeric or zero page size is 10 |
| OrderLifecycle.Offset | backend/src/controllers/orderController.js:16 | the skip (page − 1) × limit; its properties are stated by `ListingWindow` |
| OrderLifecycle.CeilDiv | backend/src/controllers/orderController.js:38 | the rounding up of the page count; its properties are stated by `CeilDivBounds` |
| OrderLifecycle.CeilDivBounds | backend/src/controllers/orderController.js:38 | the page count is the least integer at or above total divided by size, for either sign of the size |
| OrderLifecycle.Owns | backend/src/controllers/orderController.js:11 | the owner filter: the user id when the caller has one, otherwise the session id; its properties are stated by `Selection` and `OwnedMayAct` |
| OrderLifecycle.Selected | backend/src/controllers/orderController.js:11-21 | the listing filter with the optional status and payment status; its properties are stated by `Selection` |
| OrderLifecycle.Selection | backend/src/controllers/orderController.js:11-21 | the listing filter keeps exactly the caller's orders with the given statuses, oldest first |
| OrderLifecycle.Window | backend/src/controllers/orderController.js:27-28 | a page holds at most `limit` orders, the ones from `skip` on |
| OrderLifecycle.ListOrders | backend/src/controllers/orderController.js:6-42 | a listing is refused exactly for a negative offset; otherwise it holds at most `limit` of the caller's selected orders, newest first, and its pagination counts all of them |
| OrderLifecycle.ListingWindow | backend/src/controllers/orderController.js:13-28 | with the offset (page − 1) × limit, a page holds the selected orders from that offset on in newest-first order, as many as the page size allows and the selection has left |
| OrderLifecycle.ListingPageCount | backend/src/controllers/orderController.js:31-38 | the page count is the number of selected orders divided by the page size, rounded up |
| OrderLifecycle.NewestFirstWindow | backend/src/controllers/orderController.js:24-28 | the window over the newest-first selection holds the elements from the offset on, counted from the newest, with the size the offset and window allow |
| OrderLifecycle.PageArithmetic | backend/src/controllers/orderController.js:16-38 | a page starts inside the orders exactly when its number is at most the page count, and is full unless it is the last |
| OrderLifecycle.ListingPages | backend/src/controllers/orderController.js:14-38 | for positive page and size, a page is non-empty exactly up to the page count and full before the last page |
| OrderLifecycle.StatsOf | backend/src/controllers/orderController.js:180-206 | the pending, delivered and cancelled counts together never exceed the order count |
| OrderLifecycle.StatsOfNothingOwned | backend/src/controllers/orderController.js:200-206 | a shopper with no orders gets all zeros |
| OrderLifecycle.StatsCountsListing | backend/src/controllers/orderController.js:185 | the statistics count exactly the orders an unfiltered listing counts |
| OrderLifecycle.StatsSpentNonNegative | backend/src/controllers/orderController.js:186 | the amount spent is never negative |
| OrderLifecycle.StatsAfterCreate | backend/src/controllers/orderController.js:180-198 | a new order adds one order, its total and one pending order |
| OrderLifecycle.StatsAfterCancel | backend/src/controllers/orderController.js:187-195 | cancelling keeps the count and the amount spent, adds one cancelled order and removes one pending order when the order was pending |
| OrderLifecycle.CountKeepsDelta | backend/src/controllers/orderController.js:180-198 | counting the same later order keeps a cancellation's change to the statistics |
| OrderLifecycle.CountCancelled | backend/src/controllers/orderController.js:187-195 | counting an order as cancelled instead of as it was is a cancellation's change |
| OrderLifecycle.CancelEarlierStep | backend/src/controllers/orderController.js:180-198 | a cancellation before the last order changes the statistics as it changes those of the earlier orders |
| Shop.AddToCart | backend/src/controllers/cartController.js:73-89 | the in-place add does the line edit of `AddLine` and saves, or refuses with its error and leaves the lines; the cart stays valid |
| Shop.UpdateOnCart | backend/src/controllers/cartController.js:125-143 | the in-place update does the line edit of `UpdateLine` and saves, or refuses with its error and leaves the lines; the cart stays valid |
| Shop.CheckLines | backend/src/controllers/checkoutController.js:53-78 | the loop over the lines reports the first line failure; when there is none, every product exists with enough stock and the collected lines are the snapshots |
| Shop.TakeStock | backend/src/controllers/checkoutController.js:102-107 | the decrement loop lowers each product's stock by exactly the units ordered and keeps the products |
| Shop.RestoreStock | backend/src/controllers/orderController.js:146-151 | the restore loop raises each product's stock by exactly the units ordered and keeps the products |
| Shop.NewOrderFacts | backend/src/controllers/checkoutController.js:71-107 | the order checkout builds is valid, its number is new, and taking its lines keeps every stock non-negative |
| Shop.CartOrderValid | backend/src/controllers/checkoutController.js:87-99 | the order built from a well-formed cart satisfies the schema |
| Shop.SnapshotTakeValid | backend/src/controllers/checkoutController.js:102-107 | taking a checked cart's lines keeps every stock non-negative |
| Shop.AppendKeepsOrdersValid | backend/src/models/Order.js:70-75 | adding a valid order with a new number keeps the numbers distinct |
| Shop.CancelFacts | backend/src/controllers/orderController.js:140-153 | a cancellation keeps the orders valid and every stock non-negative |
| Shop.Shop.GetCart | backend/src/controllers/cartController.js:5-19 | the cart of the caller's key (user id first, otherwise session) is returned, or a fresh empty one is stored; no lines change |
| Shop.Shop.AddItem | backend/src/controllers/cartController.js:47-104 | the answer and the new lines are those of `AddRequest`; a cart is created once the product and stock checks pass; the state stays valid |
| Shop.Shop.UpdateItem | backend/src/controllers/cartController.js:109-158 | the answer and the new lines are those of `UpdateRequest`; a cart is created unless the quantity was refused first; the state stays valid |
| Shop.Shop.RemoveItem | backend/src/controllers/cartController.js:163-188 | the caller's cart keeps the lines with another id and the request never fails |
| Shop.Shop.ClearCart | backend/src/controllers/cartController.js:193-214 | the caller's cart ends with no lines (and zero totals, by the invariant) |
| Shop.Shop.Preview | backend/src/controllers/checkoutController.js:187-217 | the preview is refused exactly when the caller's cart has no lines, and otherwise prices the sum over the lines; it changes nothing |
| Shop.Shop.CreateOrder | backend/src/controllers/checkoutController.js:19-126 | the refusals are those of `CheckoutFailure` and change nothing; on success the order numbered with the day's next sequence is appended, each product loses the units ordered, the cart is emptied, and the state stays valid |
| Shop.Shop.PlaceOrder | backend/src/controllers/checkoutController.js:87-111 | the order is appended under the next id, its lines are taken from the stock and the cart is emptied |
| Shop.Shop.CancelOrder | backend/src/controllers/orderController.js:98-168 | the refusals are those of `CancelFailure` and change nothing; on success the order is cancelled and each product gets its units back; carts stay; the state stays valid |
| CheckoutForm.PhonePattern | frontend/src/components/Checkout/Checkout.jsx:75 | the phone pattern: ten or eleven characters, all decimal digits; `FormErrorsExactly` states when it is checked |
| CheckoutForm.FieldError | frontend/src/components/Checkout/Checkout.jsx:66-89 | the message for one field, or none; its properties are stated by `FormErrorsExactly` |
| CheckoutForm.FormErrors | frontend/src/components/Checkout/Checkout.jsx:66-91 | the error object the form collects; its properties are stated by `FormErrorsExactly` and `ValidIffNoErrors` |
| CheckoutForm.FormErrorsExactly | frontend/src/components/Checkout/Checkout.jsx:66-89 | name, address and city get their message exactly when blank; the phone gets "required" when blank and the format message when not 10 or 11 digits; the payment method gets its message when empty; no other field is checked |
| CheckoutForm.ValidIffNoErrors | frontend/src/components/Checkout/Checkout.jsx:91-92 | validation passes exactly for a form with non-blank name, address and city, a 10-11 digit phone and a payment method |
| CheckoutForm.ValidFormPassesServerChecks | frontend/src/components/Checkout/Checkout.jsx:66-93 | a form that validates passes the server's address and payment-method checks and its four required fields survive trimming |
| CheckoutForm.Form.constructor | frontend/src/components/Checkout/Checkout.jsx:10-21 | the form starts with every field empty except the payment method `cod`, and no errors |
| CheckoutForm.Form.HandleInputChange | frontend/src/components/Checkout/Checkout.jsx:54-64 | editing sets that field's value and blanks only that field's shown error; no error is added |
| CheckoutForm.Form.ValidateForm | frontend/src/components/Checkout/Checkout.jsx:66-93 | the errors are replaced by those of the current values and the answer is whether the form is valid; the values stay |

## Left out

- HTTP handling, status codes and the route tables: each answer is a `Result` or an `Outcome` carrying a `Failure`, and the response payloads (the populated cart or order) are not modelled.
- The document store's reads: lookups, `populate`, sorting, counting and aggregation are expressed as functions over the maps and the sequence. The listing's "newest first" is order-id order, which assumes that creation times are distinct.
- Timestamps and `deliveredAt`. No request of the core moves an order to processing, shipped or delivered, so those statuses appear only as stored values.
- Concurrency. Every request runs alone against the state. The model does not cover:
  - the find-then-assign race of order numbering;
  - the stock check that is separate from the decrement;
  - two writers of one cart.
- Storage failures and rollback. A write never fails in the model, so checkout always finishes once its checks pass.
  - The code has no rollback: a failure after the order is created leaves it without its stock decrement.
  - Cancel restores the stock before it saves the order, so a failed save there leaves restored stock on an uncancelled order.
- Clock and randomness. The creation date and the cancellation time are parameters. The frontend's random guest session ids are not modelled.
- Floating point. The tax is exact one tenth over `real`, not IEEE arithmetic.
- Request body types. Quantities, page and limit arrive already parsed (`Option<int>`, with `None` where the value is missing or not a number). The effect of a non-numeric quantity on `+=` (string concatenation) is not modelled.
- Line ids. Line ids are a per-cart counter (`nextLineId`) standing in for the store's object ids.
- Rejected cart saves. A cart save rejected by the line schema is decided before the edit, so the refused edit leaves the lines as they were. The in-memory document the controller discards is not modelled.
- Deleting products is outside this code, so the catalog never loses a product in the model. The functions still handle a line whose product is missing, as the code must after such a deletion.
- Guests without a session id. A caller with neither a user id nor a session id gets the key `BySession(None)`, shared by all such callers. The store's matching of a missing session id is not modelled beyond that.
- The rest of the checkout page is not modelled: submission, preview fetch, rendering, and the 500-character limit on the notes box (an HTML attribute, which the order schema enforces again).
- Product.js is modelled only as the catalog's name, price, picture and stock with their bounds. The other product fields are not part of this model.
- OrderLifecycle.StatsOf: its own contract states only the bound on the status counts. Its contents are stated by `StatsOfNothingOwned`, `StatsCountsListing`, `StatsSpentNonNegative`, `StatsAfterCreate` and `StatsAfterCancel`.
- OrderLifecycle.ListOrders: its own contract states the refusal, the bound, the selection and the order of the ids. Which orders a page holds and the page count are stated by `ListingWindow` and `ListingPageCount`.
- CartEdits.AddLine: its own contract states only the kinds of error. When each happens is stated by `AddLineFails`, and the new lines and amount by `AddToExistingLine` and `AddNewLine`.

## Findings

| source | as written | input that shows it | evidently intended | confidence | as-written member | corrected member |
|---|---|---|---|---|---|---|
| backend/src/models/Order.js:141-151 | the last number of the day is found by sorting numbers as strings, so `...-99999` sorts above `...-100000` | a day that already has sequences 99999 and 100000: the next number is `...-100000` again | the next sequence is one more than the day's greatest sequence | high (not executed) | OrderNumber.AsWrittenRepeatsAfter99999 | OrderNumber.NextSequence |
| backend/src/controllers/checkoutController.js:43-62 | the cart's product references are populated, so a deleted product's reference is null and reading its id throws before the not-found branch | a cart line whose product was deleted: the request fails with a generic server error, never "Product ... no longer exists" | a line with a deleted product is answered as product gone | high (not executed) | Checkout.AsWrittenGoneProductThrows | Checkout.LineFailure |
| backend/src/models/Order.js:70-75 | the order number is required, but the schema validates a new document before the pre-save hook assigns the number | any order creation: validation reports the missing number | the number is assigned before validation | medium (not executed; depends on the store library running validation before save hooks) | Checkout.AsWrittenCreateAlwaysRejected | Checkout.CreateCheck |
| backend/src/controllers/checkoutController.js:76 | the order line copies the product's `image`, but the product schema's picture field is `imageUrl` (backend/src/models/Product.js:25-28) | a product with a picture: its order line has none | the order line carries the product's picture | high (not executed) | Checkout.AsWrittenSnapshotDropsImage | Checkout.SnapshotLine |
