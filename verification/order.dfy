/** The order document: its enumerations, line snapshots, shipping address,
    the schema's bounds, and the stock movements its lines stand for. */
module OrderModel {
  import opened Common
  import opened Catalog
  import opened Text

  datatype PaymentMethod = Cod | BankTransfer | EWallet | CreditCard

  function PaymentMethodName(m: PaymentMethod): string
  {
    match m
    case Cod => "cod"
    case BankTransfer => "bank-transfer"
    case EWallet => "e-wallet"
    case CreditCard => "credit-card"
  }

  /** The schema's enumeration check on a submitted payment method. */
  function ParsePaymentMethod(s: string): (r: Option<PaymentMethod>)
    ensures r.Some? <==> s in {"cod", "bank-transfer", "e-wallet", "credit-card"}
    ensures r.Some? ==> PaymentMethodName(r.value) == s
  {
    if s == "cod" then Some(Cod)
    else if s == "bank-transfer" then Some(BankTransfer)
    else if s == "e-wallet" then Some(EWallet)
    else if s == "credit-card" then Some(CreditCard)
    else None
  }

  /** Every payment method's name is accepted and names that method. */
  lemma PaymentMethodRoundTrip(m: PaymentMethod)
    ensures ParsePaymentMethod(PaymentMethodName(m)) == Some(m)
  {
  }

  datatype PaymentStatus = PaymentPending | Paid | PaymentFailed | Refunded

  function PaymentStatusName(s: PaymentStatus): string
  {
    match s
    case PaymentPending => "pending"
    case Paid => "paid"
    case PaymentFailed => "failed"
    case Refunded => "refunded"
  }

  datatype OrderStatus = Pending | Processing | Shipped | Delivered | Cancelled

  function OrderStatusName(s: OrderStatus): string
  {
    match s
    case Pending => "pending"
    case Processing => "processing"
    case Shipped => "shipped"
    case Delivered => "delivered"
    case Cancelled => "cancelled"
  }

  /** The stored status names are distinct, so filtering by name selects
      exactly one status. */
  lemma StatusNamesDistinct(a: OrderStatus, b: OrderStatus, x: PaymentStatus, y: PaymentStatus)
    ensures OrderStatusName(a) == OrderStatusName(b) ==> a == b
    ensures PaymentStatusName(x) == PaymentStatusName(y) ==> x == y
  {
  }

  /** A line of an order, copied at checkout and independent of later
      catalog changes. */
  datatype OrderLine = OrderLine(product: ProductId, name: string, quantity: int, price: int, image: string)

  /** The shipping address as stored: every field trimmed, `""` where absent. */
  datatype Address = Address(fullName: string, phone: string, address: string, city: string,
                             district: string, ward: string, postalCode: string)

  datatype Order = Order(
    user: Option<UserId>,
    session: Option<SessionId>,
    number: string,
    items: seq<OrderLine>,
    shippingAddress: Address,
    paymentMethod: PaymentMethod,
    paymentStatus: PaymentStatus,
    itemsPrice: int,
    shippingPrice: int,
    taxPrice: real,
    totalPrice: real,
    status: OrderStatus,
    notes: string,
    cancelledAt: Option<int>,
    cancellationReason: Option<string>)

  /** The notes limit, in UTF-16 code units as the schema counts them. */
  const MaxNotesLength: nat := 500

  /** The order schema's bounds, plus the price identity every order is
      created with. */
  predicate OrderValid(o: Order)
  {
    && (forall i | 0 <= i < |o.items| :: o.items[i].quantity >= 1 && o.items[i].price >= 0)
    && o.itemsPrice >= 0 && o.shippingPrice >= 0 && o.taxPrice >= 0.0 && o.totalPrice >= 0.0
    && o.totalPrice == o.itemsPrice as real + o.shippingPrice as real + o.taxPrice
    && Utf16Length(o.notes) <= MaxNotesLength
    && o.number != ""
    && o.shippingAddress.fullName != "" && o.shippingAddress.phone != ""
    && o.shippingAddress.address != "" && o.shippingAddress.city != ""
  }

  predicate UniqueProducts(items: seq<OrderLine>)
  {
    forall i, j | 0 <= i < j < |items| :: items[i].product != items[j].product
  }

  /** How many units of `p` the lines account for. */
  function OrderedQuantity(items: seq<OrderLine>, p: ProductId): int
  {
    if items == [] then 0
    else OrderedQuantity(items[..|items| - 1], p)
         + (if items[|items| - 1].product == p then items[|items| - 1].quantity else 0)
  }

  /** The catalog after each line's product loses the line's quantity, in
      line order (the decrement after an order is created). */
  function Take(c: Stock, items: seq<OrderLine>): Stock
  {
    if items == [] then c
    else Adjust(Take(c, items[..|items| - 1]), items[|items| - 1].product, -items[|items| - 1].quantity)
  }

  /** The catalog after each line's product gets the line's quantity back, in
      line order (the restoration when an order is cancelled). */
  function Restore(c: Stock, items: seq<OrderLine>): Stock
  {
    if items == [] then c
    else Adjust(Restore(c, items[..|items| - 1]), items[|items| - 1].product, items[|items| - 1].quantity)
  }

  /** Taking lines from the catalog lowers each product's stock by exactly
      the units the lines hold of it and changes nothing else. */
  lemma {:induction false} TakeEffect(c: Stock, items: seq<OrderLine>)
    ensures Take(c, items).Keys == c.Keys
    ensures forall p | p in c :: Take(c, items)[p] == c[p].(stock := c[p].stock - OrderedQuantity(items, p))
    decreases |items|
  {
    if items != [] {
      TakeEffect(c, items[..|items| - 1]);
    }
  }

  /** Restoring lines raises each product's stock by exactly the units the
      lines hold of it and changes nothing else. */
  lemma {:induction false} RestoreEffect(c: Stock, items: seq<OrderLine>)
    ensures Restore(c, items).Keys == c.Keys
    ensures forall p | p in c :: Restore(c, items)[p] == c[p].(stock := c[p].stock + OrderedQuantity(items, p))
    decreases |items|
  {
    if items != [] {
      RestoreEffect(c, items[..|items| - 1]);
    }
  }

  /** Cancelling gives back what checkout took: restoring an order's lines
      after taking them leaves the catalog as it was. */
  lemma RestoreUndoesTake(c: Stock, items: seq<OrderLine>)
    ensures Restore(Take(c, items), items) == c
  {
    TakeEffect(c, items);
    RestoreEffect(Take(c, items), items);
    var r := Restore(Take(c, items), items);
    assert forall p | p in c :: r[p] == c[p];
  }

  lemma {:induction false} OrderedQuantityAbsent(items: seq<OrderLine>, p: ProductId)
    requires forall i | 0 <= i < |items| :: items[i].product != p
    ensures OrderedQuantity(items, p) == 0
    decreases |items|
  {
    if items != [] {
      OrderedQuantityAbsent(items[..|items| - 1], p);
    }
  }

  lemma {:induction false} OrderedQuantityOfLine(items: seq<OrderLine>, i: nat)
    requires i < |items| && UniqueProducts(items)
    ensures OrderedQuantity(items, items[i].product) == items[i].quantity
    decreases |items|
  {
    var init := items[..|items| - 1];
    if i < |items| - 1 {
      OrderedQuantityOfLine(init, i);
    } else {
      OrderedQuantityAbsent(init, items[i].product);
    }
  }

  /** Stock never goes negative at checkout: with one line per product and
      every product's stock covering its line, taking the lines leaves every
      stock at zero or more. */
  lemma TakeKeepsCatalogValid(c: Stock, items: seq<OrderLine>)
    requires CatalogValid(c) && UniqueProducts(items)
    requires forall i | 0 <= i < |items| :: items[i].product in c && items[i].quantity <= c[items[i].product].stock
    ensures CatalogValid(Take(c, items))
  {
    TakeEffect(c, items);
    forall p | p in c ensures OrderedQuantity(items, p) <= c[p].stock {
      if i :| 0 <= i < |items| && items[i].product == p {
        OrderedQuantityOfLine(items, i);
      } else {
        OrderedQuantityAbsent(items, p);
      }
    }
  }

  lemma {:induction false} OrderedQuantityNonNegative(items: seq<OrderLine>, p: ProductId)
    requires forall i | 0 <= i < |items| :: items[i].quantity >= 0
    ensures OrderedQuantity(items, p) >= 0
    decreases |items|
  {
    if items != [] {
      OrderedQuantityNonNegative(items[..|items| - 1], p);
    }
  }

  /** Restoring lines with non-negative quantities keeps every stock
      non-negative. */
  lemma RestoreKeepsCatalogValid(c: Stock, items: seq<OrderLine>)
    requires CatalogValid(c)
    requires forall i | 0 <= i < |items| :: items[i].quantity >= 0
    ensures CatalogValid(Restore(c, items))
  {
    RestoreEffect(c, items);
    forall p | p in c ensures OrderedQuantity(items, p) >= 0 {
      OrderedQuantityNonNegative(items, p);
    }
  }
}
