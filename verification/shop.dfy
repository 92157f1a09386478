/** The shop's stored state (products, carts, orders) and the requests of
    the cart, checkout and order controllers that change it. Each request
    is proved against the functions that specify it, and every request
    keeps the state's invariant. */
module Shop {
  import opened Common
  import opened Catalog
  import opened CartModel
  import opened CartEdits
  import opened Text
  import opened OrderModel
  import opened OrderNumber
  import opened Checkout
  import opened OrderLifecycle
  import opened Pricing

  /** Every stored order satisfies the schema and no two share a number. */
  predicate OrdersValid(orders: seq<Order>)
  {
    (forall i | 0 <= i < |orders| :: OrderValid(orders[i])) && NumbersDistinct(orders)
  }

  /** The in-place part of an add on the fetched cart, once the product and
      its stock have been checked: the line edit of `AddLine`, then the save
      that recomputes the totals; a refused edit leaves the cart as it was. */
  method AddToCart(cart: Cart, catalog: Stock, p: ProductId, q: int) returns (r: Outcome<Failure>)
    requires cart.Valid() && p in catalog && CatalogValid(catalog)
    modifies cart
    ensures cart.Valid()
    ensures var spec := AddLine(old(cart.items), catalog, p, q, old(cart.nextLineId));
      && (r.Pass? <==> spec.Ok?)
      && (spec.Err? ==> r == Fail(spec.error))
      && cart.items == (if spec.Ok? then spec.value else old(cart.items))
  {
    match FindProductLine(cart.items, catalog, p) {
      case Dangling =>
        return Fail(RuntimeError);
      case Found(i) =>
        if cart.items[i].quantity + q < 1 {
          return Fail(ValidationError);
        }
        AddLineEffect(cart.items, catalog, p, q, cart.nextLineId);
        cart.IncreaseQuantity(i, q);
      case Absent =>
        if q < 1 {
          return Fail(ValidationError);
        }
        AddLineEffect(cart.items, catalog, p, q, cart.nextLineId);
        cart.Push(p, q, catalog[p].price);
    }
    cart.Save();
    r := Pass;
  }

  /** The in-place part of an update on the fetched cart, once the quantity
      passed its first check: the line edit of `UpdateLine`, then the save;
      a refused edit leaves the cart as it was. */
  method UpdateOnCart(cart: Cart, catalog: Stock, id: LineId, quantity: Option<int>) returns (r: Outcome<Failure>)
    requires cart.Valid() && (quantity.Some? ==> quantity.value >= 1)
    modifies cart
    ensures cart.Valid()
    ensures var spec := UpdateLine(old(cart.items), catalog, id, quantity);
      && (r.Pass? <==> spec.Ok?)
      && (spec.Err? ==> r == Fail(spec.error))
      && cart.items == (if spec.Ok? then spec.value else old(cart.items))
  {
    var found := FindLineById(cart.items, id);
    if found.None? {
      return Fail(ItemNotFound);
    }
    var i := found.value;
    var p := cart.items[i].product;
    if p !in catalog {
      return Fail(RuntimeError);
    }
    if quantity.Some? && catalog[p].stock < quantity.value {
      return Fail(NotEnoughStock);
    }
    if quantity.None? {
      return Fail(ValidationError);
    }
    UpdateLineEffect(cart.items, catalog, id, quantity.value, cart.nextLineId);
    cart.SetQuantity(i, quantity.value);
    cart.Save();
    r := Pass;
  }

  /** The facts the invariant needs about a new order built from a cart
      that passed the checks: it satisfies the schema, its number is not
      yet taken, and its lines can be taken from the stock without any
      stock going negative. */
  lemma NewOrderFacts(catalog: Stock, orders: seq<Order>, caller: Caller, lines: seq<CartLine>, nextId: LineId,
                      a: AddressInput, pm: string, notes: string, today: Day)
    requires CatalogValid(catalog) && OrdersValid(orders) && ValidDay(today) && LinesValid(lines, nextId)
    requires forall j | 0 <= j < |lines| :: lines[j].product in catalog && lines[j].quantity <= catalog[lines[j].product].stock
    requires ParsePaymentMethod(pm).Some? && Utf16Length(notes) <= MaxNotesLength
    requires !Blank(a.fullName) && !Blank(a.phone) && !Blank(a.address) && !Blank(a.city)
    ensures var o := NewOrder(caller, Snapshot(lines, catalog), a, ParsePaymentMethod(pm).value, notes,
                              TotalAmount(lines), Format(today, NextSequence(NumbersOf(orders), today)));
      OrderValid(o) && CatalogValid(Take(catalog, o.items)) && OrdersValid(orders + [o])
  {
    var number := Format(today, NextSequence(NumbersOf(orders), today));
    var o := NewOrder(caller, Snapshot(lines, catalog), a, ParsePaymentMethod(pm).value, notes, TotalAmount(lines), number);
    assert number != "" by {
      FormatHasPrefix(today, NextSequence(NumbersOf(orders), today));
    }
    CartOrderValid(caller, lines, catalog, nextId, a, ParsePaymentMethod(pm).value, notes, number);
    SnapshotTakeValid(lines, catalog, nextId);
    NextNumberIsFresh(NumbersOf(orders), today);
    AppendKeepsOrdersValid(orders, o);
  }

  /** The order built from a well-formed cart satisfies the schema. */
  lemma CartOrderValid(caller: Caller, lines: seq<CartLine>, catalog: Stock, nextId: LineId,
                       a: AddressInput, pm: PaymentMethod, notes: string, number: string)
    requires LinesValid(lines, nextId) && forall j | 0 <= j < |lines| :: lines[j].product in catalog
    requires Utf16Length(notes) <= MaxNotesLength && number != ""
    requires !Blank(a.fullName) && !Blank(a.phone) && !Blank(a.address) && !Blank(a.city)
    ensures OrderValid(NewOrder(caller, Snapshot(lines, catalog), a, pm, notes, TotalAmount(lines), number))
  {
    SnapshotValid(lines, catalog, nextId);
    TotalsBounds(lines, nextId);
    NewOrderValid(caller, Snapshot(lines, catalog), a, pm, notes, TotalAmount(lines), number);
  }

  /** Taking a well-formed cart's lines from a stock that covers each of
      them leaves every stock non-negative. */
  lemma SnapshotTakeValid(lines: seq<CartLine>, catalog: Stock, nextId: LineId)
    requires CatalogValid(catalog) && LinesValid(lines, nextId)
    requires forall j | 0 <= j < |lines| :: lines[j].product in catalog && lines[j].quantity <= catalog[lines[j].product].stock
    ensures CatalogValid(Take(catalog, Snapshot(lines, catalog)))
  {
    var items := Snapshot(lines, catalog);
    SnapshotValid(lines, catalog, nextId);
    forall i | 0 <= i < |items| ensures items[i].product in catalog && items[i].quantity <= catalog[items[i].product].stock {
      assert items[i] == SnapshotLine(lines[i], catalog);
    }
    TakeKeepsCatalogValid(catalog, items);
  }

  /** Appending a valid order whose number is not yet taken keeps the
      order collection valid. */
  lemma AppendKeepsOrdersValid(orders: seq<Order>, o: Order)
    requires OrdersValid(orders) && OrderValid(o) && o.number !in NumbersOf(orders)
    ensures OrdersValid(orders + [o])
  {
    forall i | 0 <= i < |orders| ensures orders[i].number != o.number {
      assert NumbersOf(orders)[i] == orders[i].number;
    }
  }

  /** Cancelling an order of a valid store keeps it valid: the order keeps
      its number and its schema, and restoring its lines keeps every stock
      non-negative. */
  lemma CancelFacts(catalog: Stock, orders: seq<Order>, id: OrderId, caller: Caller, reason: Option<string>, now: int)
    requires CatalogValid(catalog) && OrdersValid(orders)
    requires CancelFailure(orders, id, caller).None?
    ensures CatalogValid(Restore(catalog, orders[id].items))
    ensures OrdersValid(orders[id := CancelledOrder(orders[id], reason, now)])
  {
    CancelEffect(orders, id, caller, reason, now);
    RestoreKeepsCatalogValid(catalog, orders[id].items);
  }

  /** The stock decrement after checkout, one line at a time: every
      product loses exactly the units the lines hold of it. */
  method TakeStock(c: Stock, items: seq<OrderLine>) returns (s: Stock)
    ensures s.Keys == c.Keys
    ensures forall p | p in c :: s[p] == c[p].(stock := c[p].stock - OrderedQuantity(items, p))
    ensures s == Take(c, items)
  {
    s := c;
    var j := 0;
    while j < |items|
      invariant 0 <= j <= |items|
      invariant s == Take(c, items[..j])
    {
      assert items[..j + 1][..j] == items[..j];
      s := Adjust(s, items[j].product, -items[j].quantity);
      j := j + 1;
    }
    assert items[..j] == items;
    TakeEffect(c, items);
  }

  /** The stock restoration on cancellation, one line at a time: every
      product gets back exactly the units the lines hold of it. */
  method RestoreStock(c: Stock, items: seq<OrderLine>) returns (s: Stock)
    ensures s.Keys == c.Keys
    ensures forall p | p in c :: s[p] == c[p].(stock := c[p].stock + OrderedQuantity(items, p))
    ensures s == Restore(c, items)
  {
    s := c;
    var j := 0;
    while j < |items|
      invariant 0 <= j <= |items|
      invariant s == Restore(c, items[..j])
    {
      assert items[..j + 1][..j] == items[..j];
      s := Adjust(s, items[j].product, items[j].quantity);
      j := j + 1;
    }
    assert items[..j] == items;
    RestoreEffect(c, items);
  }

  /** The checkout's pass over the cart's lines, in cart order: the first
      line whose product is gone or short of stock stops it with that
      line's failure; otherwise every line's snapshot is collected. */
  method CheckLines(lines: seq<CartLine>, catalog: Stock) returns (failure: Option<Failure>, items: seq<OrderLine>)
    ensures failure == FirstLineFailure(lines, catalog)
    ensures failure.None? ==> forall j | 0 <= j < |lines| :: lines[j].product in catalog
                                                        && lines[j].quantity <= catalog[lines[j].product].stock
    ensures failure.None? ==> items == Snapshot(lines, catalog)
  {
    items := [];
    var i := 0;
    while i < |lines|
      invariant 0 <= i <= |lines|
      invariant forall j | 0 <= j < i :: LineFailure(lines[j], catalog).None?
      invariant forall j | 0 <= j < i :: lines[j].product in catalog && lines[j].quantity <= catalog[lines[j].product].stock
      invariant items == Snapshot(lines[..i], catalog)
    {
      var line := lines[i];
      if line.product !in catalog {
        FirstLineFailureAt(lines, catalog, i);
        return Some(ProductGone), [];
      }
      var product := catalog[line.product];
      if product.stock < line.quantity {
        FirstLineFailureAt(lines, catalog, i);
        return Some(StockShort(product.name, product.stock)), [];
      }
      assert lines[..i + 1][..i] == lines[..i];
      items := items + [SnapshotLine(line, catalog)];
      i := i + 1;
    }
    assert lines[..i] == lines;
    failure := None;
  }

  class Shop {
    /** The product collection. */
    var catalog: Stock
    /** The cart collection, one cart per key. */
    var carts: map<Key, Cart>
    /** The order collection; an order's id is its index. */
    var orders: seq<Order>

    /** Each cart stored under its own key, with lines and totals in
        agreement. */
    ghost predicate CartsValid()
      reads this, carts.Values
    {
      forall k | k in carts :: carts[k].key == k && carts[k].Valid()
    }

    /** Stock never negative, every cart valid, every order satisfying its
        schema, and no two orders with the same number. */
    ghost predicate Valid()
      reads this, carts.Values
    {
      CatalogValid(catalog) && CartsValid() && OrdersValid(orders)
    }

    /** The lines of the cart of key `k` (none when it has no cart). */
    ghost function LinesOf(k: Key): seq<CartLine>
      reads this, carts.Values
    {
      if k in carts then carts[k].items else []
    }

    /** The id the cart of key `k` gives its next new line. */
    ghost function NextIdOf(k: Key): LineId
      reads this, carts.Values
    {
      if k in carts then carts[k].nextLineId else 0
    }

    /** Every cart, as its lines. */
    ghost function Lines(): map<Key, seq<CartLine>>
      reads this, carts.Values
    {
      map k | k in carts :: carts[k].items
    }

    /** The cart object of key `k`, if there is one. */
    ghost function CartAt(k: Key): set<Cart>
      reads this
    {
      if k in carts then {carts[k]} else {}
    }

    /** After an edit of the cart of key `k` alone, that cart valid, the
        other carts are as they were: still valid, with the same lines. */
    twostate lemma AfterCartEdit(k: Key, new cart: Cart)
      requires old(CartsValid()) && k in carts && carts[k] == cart && cart.key == k && cart.Valid()
      requires old(k in carts) ==> old(carts[k]) == cart
      requires forall k' | k' in carts :: k' == k || (k' in old(carts) && carts[k'] == old(carts[k']))
      requires forall k' | k' in old(carts) :: k' in carts
      requires forall k' | k' in old(carts) && k' != k :: unchanged(old(carts[k']))
      ensures Lines() == old(Lines())[k := cart.items]
      ensures CartsValid()
    {
      OthersStayValid(k, cart);
      OthersKeepLines(k, cart);
    }

    twostate lemma OthersStayValid(k: Key, new cart: Cart)
      requires old(CartsValid()) && k in carts && carts[k] == cart && cart.key == k && cart.Valid()
      requires forall k' | k' in carts :: k' == k || (k' in old(carts) && carts[k'] == old(carts[k']))
      requires forall k' | k' in old(carts) && k' != k :: unchanged(old(carts[k']))
      ensures CartsValid()
    {
      forall k' | k' in carts
        ensures carts[k'].key == k' && carts[k'].Valid()
      {
        if k' != k {
          assert old(carts[k']).key == k';
        }
      }
    }

    twostate lemma OthersKeepLines(k: Key, new cart: Cart)
      requires k in carts && carts[k] == cart
      requires forall k' | k' in carts :: k' == k || (k' in old(carts) && carts[k'] == old(carts[k']))
      requires forall k' | k' in old(carts) :: k' in carts
      requires forall k' | k' in old(carts) && k' != k :: unchanged(old(carts[k']))
      ensures Lines() == old(Lines())[k := cart.items]
    {
      forall k' | k' in carts
        ensures Lines()[k'] == old(Lines())[k := cart.items][k']
      {
      }
    }

    constructor (catalog: Stock)
      requires CatalogValid(catalog)
      ensures Valid()
      ensures this.catalog == catalog && carts == map[] && orders == []
    {
      this.catalog := catalog;
      carts := map[];
      orders := [];
    }

    /** The cart of the caller's key, created empty when there is none. */
    method GetCart(caller: Caller) returns (cart: Cart)
      requires Valid()
      modifies this
      ensures Valid()
      ensures catalog == old(catalog) && orders == old(orders)
      ensures KeyOf(caller) in carts && cart == carts[KeyOf(caller)]
      ensures old(KeyOf(caller) in carts) ==> carts == old(carts)
      ensures old(KeyOf(caller) !in carts) ==> fresh(cart) && carts == old(carts)[KeyOf(caller) := cart]
      ensures Lines() == old(Lines())[KeyOf(caller) := old(LinesOf(KeyOf(caller)))]
      ensures cart.items == old(LinesOf(KeyOf(caller))) && cart.nextLineId == old(NextIdOf(KeyOf(caller)))
    {
      var k := KeyOf(caller);
      if k in carts {
        cart := carts[k];
      } else {
        cart := new Cart(k);
        carts := carts[k := cart];
        AfterCartEdit(k, cart);
      }
    }

    /** Adding to the cart: the request's refusals and the new lines are
        those of `AddRequest` on the caller's cart; a cart is created as
        soon as the request gets past the product and stock checks, even
        when the edit then fails. */
    method AddItem(caller: Caller, productId: ProductId, quantity: Option<int>) returns (r: Outcome<Failure>)
      requires Valid()
      modifies this, CartAt(KeyOf(caller))
      ensures Valid()
      ensures catalog == old(catalog) && orders == old(orders)
      ensures var k := KeyOf(caller);
              var spec := AddRequest(old(LinesOf(k)), old(catalog), productId, quantity, old(NextIdOf(k)));
        && (r.Pass? <==> spec.Ok?)
        && (spec.Err? ==> r == Fail(spec.error))
        && Lines() == (if spec.Ok? then old(Lines())[k := spec.value]
                       else if AddReachesCart(spec) then old(Lines())[k := old(LinesOf(k))]
                       else old(Lines()))
    {
      var q := Requested(quantity);
      if productId !in catalog {
        return Fail(ProductNotFound);
      }
      if catalog[productId].stock < q {
        return Fail(NotEnoughStock);
      }
      var cart := GetCart(caller);
      r := AddToCart(cart, catalog, productId, q);
      AfterCartEdit(KeyOf(caller), cart);
    }

    /** Setting a line's quantity: the refusals and the new lines are those
        of `UpdateRequest` on the caller's cart; a cart is created unless a
        quantity below one was refused first. */
    method UpdateItem(caller: Caller, id: LineId, quantity: Option<int>) returns (r: Outcome<Failure>)
      requires Valid()
      modifies this, CartAt(KeyOf(caller))
      ensures Valid()
      ensures catalog == old(catalog) && orders == old(orders)
      ensures var k := KeyOf(caller);
              var spec := UpdateRequest(old(LinesOf(k)), old(catalog), id, quantity);
        && (r.Pass? <==> spec.Ok?)
        && (spec.Err? ==> r == Fail(spec.error))
        && Lines() == (if spec.Ok? then old(Lines())[k := spec.value]
                       else if spec != Err(QuantityBelowOne) then old(Lines())[k := old(LinesOf(k))]
                       else old(Lines()))
    {
      if quantity.Some? && quantity.value < 1 {
        return Fail(QuantityBelowOne);
      }
      var cart := GetCart(caller);
      r := UpdateOnCart(cart, catalog, id, quantity);
      AfterCartEdit(KeyOf(caller), cart);
    }

    /** Removing a line: the caller's cart (created if missing) keeps the
        lines with another id; the request never fails. */
    method RemoveItem(caller: Caller, id: LineId) returns (r: Outcome<Failure>)
      requires Valid()
      modifies this, CartAt(KeyOf(caller))
      ensures Valid()
      ensures catalog == old(catalog) && orders == old(orders)
      ensures r.Pass?
      ensures Lines() == old(Lines())[KeyOf(caller) := Without(old(LinesOf(KeyOf(caller))), id)]
    {
      var cart := GetCart(caller);
      WithoutValid(cart.items, id, cart.nextLineId);
      WithoutTotals(cart.items, id);
      cart.RemoveLine(id);
      cart.Save();
      AfterCartEdit(KeyOf(caller), cart);
      r := Pass;
    }

    /** Emptying the caller's cart (created if missing). */
    method ClearCart(caller: Caller)
      requires Valid()
      modifies this, CartAt(KeyOf(caller))
      ensures Valid()
      ensures catalog == old(catalog) && orders == old(orders)
      ensures Lines() == old(Lines())[KeyOf(caller) := []]
    {
      var cart := GetCart(caller);
      cart.ClearLines();
      cart.Save();
      AfterCartEdit(KeyOf(caller), cart);
    }

    /** The preview of the caller's cart, priced from its stored total, which
        the invariant keeps equal to the sum over its lines. */
    function Preview(caller: Caller): (r: Result<PreviewData, Failure>)
      reads this, carts.Values
      requires Valid()
      ensures r.Err? <==> LinesOf(KeyOf(caller)) == []
      ensures r.Ok? ==> r.value.prices == PricesFor(TotalAmount(LinesOf(KeyOf(caller))))
    {
      var k := KeyOf(caller);
      if k in carts then PreviewOf(Some(carts[k].items), carts[k].totalAmount) else PreviewOf(None, 0)
    }

    /** Checkout: the refusals are those of `CheckoutFailure`, and nothing
        changes on a refusal. Otherwise the new order, numbered with the
        day's next sequence, snapshots the cart's lines and is priced from
        the cart's amount; every product loses the units ordered; and the
        caller's cart is emptied. */
    method CreateOrder(caller: Caller, address: Option<AddressInput>, paymentMethod: string, notes: string, today: Day)
      returns (r: Result<OrderId, Failure>)
      requires Valid() && ValidDay(today)
      modifies this, CartAt(KeyOf(caller))
      ensures Valid()
      ensures var k := KeyOf(caller);
              var cart := if old(k in carts) then Some(old(LinesOf(k))) else None;
              var failure := CheckoutFailure(address, paymentMethod, notes, cart, old(catalog), today, NumbersOf(old(orders)));
        && (r.Err? <==> failure.Some?)
        && (failure.Some? ==> r == Err(failure.value) && catalog == old(catalog) && orders == old(orders)
                              && Lines() == old(Lines()))
        && (failure.None? ==>
              var lines := old(LinesOf(k));
              var o := NewOrder(caller, Snapshot(lines, old(catalog)), address.value,
                                ParsePaymentMethod(paymentMethod).value, notes, TotalAmount(lines),
                                Format(today, NextSequence(NumbersOf(old(orders)), today)));
              && r == Ok(|old(orders)|)
              && orders == old(orders) + [o]
              && catalog == Take(old(catalog), o.items)
              && Lines() == old(Lines())[k := []])
    {
      var k := KeyOf(caller);
      if AddressIncomplete(address) {
        return Err(IncompleteAddress);
      }
      if paymentMethod == "" {
        return Err(NoPaymentMethod);
      }
      if k !in carts || carts[k].items == [] {
        return Err(EmptyCart);
      }
      var cart := carts[k];
      ghost var before := Lines();
      var failure, orderItems := CheckLines(cart.items, catalog);
      assert Lines() == before;
      if failure.Some? {
        return Err(failure.value);
      }
      if CreateCheck(address.value, paymentMethod, notes, today, NumbersOf(orders)).Some? {
        return Err(ValidationError);
      }
      assert CheckoutFailure(address, paymentMethod, notes, Some(cart.items), catalog, today, NumbersOf(orders)).None?;
      var number := Format(today, NextSequence(NumbersOf(orders), today));
      var order := NewOrder(caller, orderItems, address.value, ParsePaymentMethod(paymentMethod).value,
                            notes, cart.totalAmount, number);
      assert cart.key == k && cart.Valid();
      NewOrderFacts(catalog, orders, caller, cart.items, cart.nextLineId, address.value, paymentMethod, notes, today);
      r := PlaceOrder(k, cart, order);
    }

    /** The second half of checkout, once every check passed: the order is
        appended, its lines taken from the stock, and the cart emptied and
        saved. */
    method PlaceOrder(k: Key, cart: Cart, order: Order) returns (r: Result<OrderId, Failure>)
      requires Valid() && k in carts && carts[k] == cart
      requires CatalogValid(Take(catalog, order.items)) && OrdersValid(orders + [order])
      modifies this, cart
      ensures Valid()
      ensures r == Ok(|old(orders)|)
      ensures orders == old(orders) + [order]
      ensures catalog == Take(old(catalog), order.items)
      ensures Lines() == old(Lines())[k := []]
    {
      r := Ok(|orders|);
      orders := orders + [order];
      catalog := TakeStock(catalog, order.items);
      cart.ClearLines();
      cart.Save();
      AfterCartEdit(k, cart);
    }

    /** Cancelling: the refusals are those of `CancelFailure`, and nothing
        changes on a refusal. Otherwise the order becomes cancelled at `now`
        with the given or the default reason, and every product gets back
        the units the order took; carts are untouched. */
    method CancelOrder(caller: Caller, id: OrderId, reason: Option<string>, now: int) returns (r: Outcome<Failure>)
      requires Valid()
      modifies this
      ensures Valid()
      ensures carts == old(carts)
      ensures var failure := CancelFailure(old(orders), id, caller);
        && (r.Fail? <==> failure.Some?)
        && (failure.Some? ==> r == Fail(failure.value) && catalog == old(catalog) && orders == old(orders))
        && (failure.None? ==> orders == old(orders)[id := CancelledOrder(old(orders)[id], reason, now)]
                              && catalog == Restore(old(catalog), old(orders)[id].items))
    {
      var failure := CancelFailure(orders, id, caller);
      if failure.Some? {
        return Fail(failure.value);
      }
      var order := orders[id];
      var cancelled := CancelledOrder(order, reason, now);
      CancelFacts(catalog, orders, id, caller, reason, now);
      catalog := RestoreStock(catalog, order.items);
      orders := orders[id := cancelled];
      r := Pass;
    }
  }
}
