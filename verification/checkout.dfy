/** Checkout as functions of the request and the state it reads: the ordered
    validation chain, the order-line snapshots, the new order, and the
    side-effect-free preview. The `Shop` method that performs checkout is
    proved against these. */
module Checkout {
  import opened Common
  import opened Catalog
  import opened Text
  import opened CartModel
  import opened OrderModel
  import opened Pricing
  import opened OrderNumber

  /** The shipping address as submitted; `""` stands for a missing field. */
  datatype AddressInput = AddressInput(fullName: string, phone: string, address: string, city: string,
                                       district: string, ward: string, postalCode: string)

  /** The controller's first check: no address, or one of the four required
      fields missing or empty. */
  predicate AddressIncomplete(a: Option<AddressInput>)
  {
    a.None? || a.value.fullName == "" || a.value.phone == "" || a.value.address == "" || a.value.city == ""
  }

  /** The per-line check, with a vanished product reported as gone. */
  function LineFailure(line: CartLine, catalog: Stock): (r: Option<Failure>)
    ensures r.None? <==> line.product in catalog && line.quantity <= catalog[line.product].stock
    ensures line.product !in catalog ==> r == Some(ProductGone)
    ensures line.product in catalog && r.Some? ==> r == Some(StockShort(catalog[line.product].name, catalog[line.product].stock))
  {
    if line.product !in catalog then Some(ProductGone)
    else if catalog[line.product].stock < line.quantity
    then Some(StockShort(catalog[line.product].name, catalog[line.product].stock))
    else None
  }

  /** The per-line check as the controller runs it on a cart whose product
      references were populated: a vanished product's reference is null, so
      reading its id throws before the not-found branch is reached. */
  function LineFailureAsWritten(line: CartLine, catalog: Stock): Option<Failure>
  {
    if line.product !in catalog then Some(RuntimeError)
    else if catalog[line.product].stock < line.quantity
    then Some(StockShort(catalog[line.product].name, catalog[line.product].stock))
    else None
  }

  /** The not-found branch of the per-line check is dead as written: a
      line whose product was deleted fails with a generic error, never with
      the product-gone message. */
  lemma AsWrittenGoneProductThrows(line: CartLine, catalog: Stock)
    ensures LineFailureAsWritten(line, catalog) != Some(ProductGone)
    ensures line.product !in catalog ==> LineFailureAsWritten(line, catalog) == Some(RuntimeError)
                                         && LineFailure(line, catalog) == Some(ProductGone)
  {
  }

  /** The first failing line in cart order, if any. */
  function FirstLineFailure(lines: seq<CartLine>, catalog: Stock): (r: Option<Failure>)
    ensures r.None? <==> forall i | 0 <= i < |lines| :: LineFailure(lines[i], catalog).None?
    ensures r.Some? ==> exists i | 0 <= i < |lines| :: r == LineFailure(lines[i], catalog)
                          && forall j | 0 <= j < i :: LineFailure(lines[j], catalog).None?
  {
    if lines == [] then None
    else if LineFailure(lines[0], catalog).Some? then LineFailure(lines[0], catalog)
    else
      var r := FirstLineFailure(lines[1..], catalog);
      if r.Some? then
        var i :| 0 <= i < |lines[1..]| && r == LineFailure(lines[1..][i], catalog)
                 && forall j | 0 <= j < i :: LineFailure(lines[1..][j], catalog).None?;
        assert lines[i + 1] == lines[1..][i];
        r
      else
        assert forall i | 1 <= i < |lines| :: lines[i] == lines[1..][i - 1];
        r
  }

  /** The failure of the first failing line is the chain's line failure. */
  lemma {:induction false} FirstLineFailureAt(lines: seq<CartLine>, catalog: Stock, i: nat)
    requires i < |lines| && LineFailure(lines[i], catalog).Some?
    requires forall j | 0 <= j < i :: LineFailure(lines[j], catalog).None?
    ensures FirstLineFailure(lines, catalog) == LineFailure(lines[i], catalog)
    decreases i
  {
    if i > 0 {
      assert LineFailure(lines[0], catalog).None?;
      FirstLineFailureAt(lines[1..], catalog, i - 1);
    }
  }

  /** The order schema's check of a document: a payment method in the
      enumeration, notes of at most 500 characters, the four required address
      fields non-empty once trimmed, and an order number present. */
  function SchemaFailure(a: AddressInput, paymentMethod: string, notes: string, number: Option<string>)
    : (r: Option<Failure>)
    ensures r.None? <==> ParsePaymentMethod(paymentMethod).Some? && Utf16Length(notes) <= MaxNotesLength
                         && !Blank(a.fullName) && !Blank(a.phone) && !Blank(a.address) && !Blank(a.city)
                         && number.Some? && number.value != ""
    ensures r.Some? ==> r == Some(ValidationError)
  {
    TrimEmptyIffBlank(a.fullName);
    TrimEmptyIffBlank(a.phone);
    TrimEmptyIffBlank(a.address);
    TrimEmptyIffBlank(a.city);
    if ParsePaymentMethod(paymentMethod).None? || Utf16Length(notes) > MaxNotesLength
       || Trim(a.fullName) == "" || Trim(a.phone) == "" || Trim(a.address) == "" || Trim(a.city) == ""
       || number.None? || number.value == ""
    then Some(ValidationError)
    else None
  }

  /** Order creation as written: the schema validates the document before
      the pre-save hook has assigned its number, so it sees none. */
  function CreateCheckAsWritten(a: AddressInput, paymentMethod: string, notes: string): Option<Failure>
  {
    SchemaFailure(a, paymentMethod, notes, None)
  }

  /** As written, the required order number is missing at validation time,
      so order creation is refused whatever the request holds. */
  lemma AsWrittenCreateAlwaysRejected(a: AddressInput, paymentMethod: string, notes: string)
    ensures CreateCheckAsWritten(a, paymentMethod, notes) == Some(ValidationError)
  {
  }

  /** Order creation with the number assigned before validation. */
  function CreateCheck(a: AddressInput, paymentMethod: string, notes: string, d: Day, numbers: seq<string>)
    : (r: Option<Failure>)
    requires ValidDay(d)
    ensures r.None? <==> ParsePaymentMethod(paymentMethod).Some? && Utf16Length(notes) <= MaxNotesLength
                         && !Blank(a.fullName) && !Blank(a.phone) && !Blank(a.address) && !Blank(a.city)
  {
    FormatHasPrefix(d, NextSequence(numbers, d));
    SchemaFailure(a, paymentMethod, notes, Some(Format(d, NextSequence(numbers, d))))
  }

  /** The whole validation chain of checkout, in the controller's order:
      address, payment method, cart, each line in cart order, then the
      schema. Each failure implies every earlier check passed. */
  function CheckoutFailure(address: Option<AddressInput>, paymentMethod: string, notes: string,
                           cart: Option<seq<CartLine>>, catalog: Stock, d: Day, numbers: seq<string>)
    : (r: Option<Failure>)
    requires ValidDay(d)
    ensures r == Some(IncompleteAddress) <==> AddressIncomplete(address)
    ensures r == Some(NoPaymentMethod) <==> !AddressIncomplete(address) && paymentMethod == ""
    ensures r == Some(EmptyCart) <==> !AddressIncomplete(address) && paymentMethod != "" && (cart.None? || cart.value == [])
    ensures r.Some? && (r.value == ProductGone || r.value.StockShort?)
            ==> !AddressIncomplete(address) && paymentMethod != "" && cart.Some? && cart.value != []
    ensures r == Some(ValidationError) ==> cart.Some? && FirstLineFailure(cart.value, catalog).None?
    ensures !AddressIncomplete(address) && paymentMethod != "" && cart.Some? && cart.value != [] ==>
              r == (if FirstLineFailure(cart.value, catalog).Some? then FirstLineFailure(cart.value, catalog)
                    else CreateCheck(address.value, paymentMethod, notes, d, numbers))
    ensures r.None? <==> !AddressIncomplete(address) && paymentMethod != "" && cart.Some? && cart.value != []
                         && FirstLineFailure(cart.value, catalog).None?
                         && CreateCheck(address.value, paymentMethod, notes, d, numbers).None?
  {
    if AddressIncomplete(address) then Some(IncompleteAddress)
    else if paymentMethod == "" then Some(NoPaymentMethod)
    else if cart.None? || cart.value == [] then Some(EmptyCart)
    else if FirstLineFailure(cart.value, catalog).Some? then FirstLineFailure(cart.value, catalog)
    else CreateCheck(address.value, paymentMethod, notes, d, numbers)
  }

  /** The order line a cart line becomes: name and picture from the live
      product, quantity and unit price from the cart line. */
  function SnapshotLine(line: CartLine, catalog: Stock): (r: OrderLine)
    requires line.product in catalog
    ensures r.product == line.product && r.quantity == line.quantity && r.price == line.price
    ensures r.name == catalog[line.product].name && r.image == catalog[line.product].imageUrl
  {
    OrderLine(line.product, catalog[line.product].name, line.quantity, line.price, catalog[line.product].imageUrl)
  }

  /** The order line as the controller builds it: it copies the product's
      `image`, a field the product schema does not have (its picture is
      `imageUrl`), so the line's image is always absent. */
  function SnapshotLineAsWritten(line: CartLine, catalog: Stock): OrderLine
    requires line.product in catalog
  {
    OrderLine(line.product, catalog[line.product].name, line.quantity, line.price, "")
  }

  /** As written, an order line never carries the product's picture, even
      when the product has one. */
  lemma AsWrittenSnapshotDropsImage(line: CartLine, catalog: Stock)
    requires line.product in catalog && catalog[line.product].imageUrl != ""
    ensures SnapshotLineAsWritten(line, catalog).image == ""
    ensures SnapshotLine(line, catalog).image != SnapshotLineAsWritten(line, catalog).image
  {
  }

  function Snapshot(lines: seq<CartLine>, catalog: Stock): (r: seq<OrderLine>)
    requires forall i | 0 <= i < |lines| :: lines[i].product in catalog
    ensures |r| == |lines|
    ensures forall i | 0 <= i < |lines| :: r[i] == SnapshotLine(lines[i], catalog)
  {
    if lines == [] then []
    else Snapshot(lines[..|lines| - 1], catalog) + [SnapshotLine(lines[|lines| - 1], catalog)]
  }

  /** The price an order's lines add up to. */
  function LinesAmount(items: seq<OrderLine>): int
  {
    if items == [] then 0
    else LinesAmount(items[..|items| - 1]) + items[|items| - 1].price * items[|items| - 1].quantity
  }

  /** The order lines keep the cart's prices and quantities, so they add up
      to the cart's stored amount. */
  lemma {:induction false} SnapshotAmount(lines: seq<CartLine>, catalog: Stock)
    requires forall i | 0 <= i < |lines| :: lines[i].product in catalog
    ensures LinesAmount(Snapshot(lines, catalog)) == TotalAmount(lines)
    decreases |lines|
  {
    if lines != [] {
      var init := lines[..|lines| - 1];
      SnapshotAmount(init, catalog);
      assert Snapshot(lines, catalog)[..|lines| - 1] == Snapshot(init, catalog);
    }
  }

  /** The order lines of a well-formed cart hold one line per product, each
      with a positive quantity and a non-negative price. */
  lemma SnapshotValid(lines: seq<CartLine>, catalog: Stock, nextId: LineId)
    requires forall i | 0 <= i < |lines| :: lines[i].product in catalog
    requires LinesValid(lines, nextId)
    ensures UniqueProducts(Snapshot(lines, catalog))
    ensures forall i | 0 <= i < |lines| :: Snapshot(lines, catalog)[i].quantity >= 1
                                          && Snapshot(lines, catalog)[i].price >= 0
  {
    var r := Snapshot(lines, catalog);
    forall i, j | 0 <= i < j < |r| ensures r[i].product != r[j].product {
      assert r[i] == SnapshotLine(lines[i], catalog) && r[j] == SnapshotLine(lines[j], catalog);
    }
  }

  /** The stored address: each field trimmed. */
  function StoredAddress(a: AddressInput): Address
  {
    Address(Trim(a.fullName), Trim(a.phone), Trim(a.address), Trim(a.city),
            Trim(a.district), Trim(a.ward), Trim(a.postalCode))
  }

  /** The order checkout creates: owned by the user id when there is one and
      by the session otherwise, pending in both status fields whatever the
      payment method, priced from the cart's amount. */
  function NewOrder(caller: Caller, items: seq<OrderLine>, a: AddressInput, pm: PaymentMethod,
                    notes: string, itemsPrice: int, number: string): Order
  {
    var prices := PricesFor(itemsPrice);
    Order(caller.user, if caller.user.None? then caller.session else None, number, items,
          StoredAddress(a), pm, PaymentPending,
          prices.items, prices.shipping, prices.tax, prices.total,
          Pending, notes, None, None)
  }

  /** An order built from lines with positive quantities and non-negative
      prices, a non-negative amount, notes within the bound, a number and
      the four required address fields satisfies the order schema and the
      price identity. */
  lemma NewOrderValid(caller: Caller, items: seq<OrderLine>, a: AddressInput, pm: PaymentMethod,
                      notes: string, itemsPrice: int, number: string)
    requires forall i | 0 <= i < |items| :: items[i].quantity >= 1 && items[i].price >= 0
    requires itemsPrice >= 0 && Utf16Length(notes) <= MaxNotesLength && number != ""
    requires !Blank(a.fullName) && !Blank(a.phone) && !Blank(a.address) && !Blank(a.city)
    ensures OrderValid(NewOrder(caller, items, a, pm, notes, itemsPrice, number))
  {
    StoredAddressComplete(a);
  }

  /** The stored address keeps the four required fields non-empty when the
      submitted ones are not blank. */
  lemma StoredAddressComplete(a: AddressInput)
    requires !Blank(a.fullName) && !Blank(a.phone) && !Blank(a.address) && !Blank(a.city)
    ensures var s := StoredAddress(a);
            s.fullName != "" && s.phone != "" && s.address != "" && s.city != ""
  {
    TrimEmptyIffBlank(a.fullName);
    TrimEmptyIffBlank(a.phone);
    TrimEmptyIffBlank(a.address);
    TrimEmptyIffBlank(a.city);
  }

  /** A request that passes the whole chain has an address with the four
      required fields, a known payment method, notes within the bound, and
      a cart whose every product still exists with enough stock. */
  lemma PassedChecks(address: Option<AddressInput>, paymentMethod: string, notes: string,
                     cart: Option<seq<CartLine>>, catalog: Stock, d: Day, numbers: seq<string>)
    requires ValidDay(d)
    requires CheckoutFailure(address, paymentMethod, notes, cart, catalog, d, numbers).None?
    ensures address.Some? && cart.Some? && cart.value != []
    ensures ParsePaymentMethod(paymentMethod).Some? && Utf16Length(notes) <= MaxNotesLength
    ensures var a := address.value;
            !Blank(a.fullName) && !Blank(a.phone) && !Blank(a.address) && !Blank(a.city)
    ensures forall i | 0 <= i < |cart.value| :: cart.value[i].product in catalog
                                                && cart.value[i].quantity <= catalog[cart.value[i].product].stock
  {
    assert FirstLineFailure(cart.value, catalog).None?;
    assert CreateCheck(address.value, paymentMethod, notes, d, numbers).None?;
    forall i | 0 <= i < |cart.value|
      ensures cart.value[i].product in catalog && cart.value[i].quantity <= catalog[cart.value[i].product].stock
    {
      assert LineFailure(cart.value[i], catalog).None?;
    }
  }

  /** What the preview answers. */
  datatype PreviewData = PreviewData(prices: Prices, freeShippingThreshold: int, taxRate: real)

  /** The preview of a cart: refused for a missing or empty cart, otherwise
      the prices of the cart's stored amount with the threshold and the
      rate. */
  function PreviewOf(lines: Option<seq<CartLine>>, totalAmount: int): (r: Result<PreviewData, Failure>)
    ensures r.Err? <==> lines.None? || lines.value == []
    ensures r.Err? ==> r.error == EmptyCart
    ensures r.Ok? ==> r.value.prices == PricesFor(totalAmount)
    ensures r.Ok? ==> r.value.prices.items == totalAmount
                      && r.value.prices.shipping == (if totalAmount >= 500000 then 0 else 30000)
                      && r.value.prices.tax * 10.0 == totalAmount as real
                      && r.value.prices.total == totalAmount as real + r.value.prices.shipping as real + r.value.prices.tax
                      && r.value.freeShippingThreshold == 500000 && r.value.taxRate == 0.1
  {
    if lines.None? || lines.value == [] then Err(EmptyCart)
    else Ok(PreviewData(PricesFor(totalAmount), FreeShippingThreshold, TaxRate))
  }
}
