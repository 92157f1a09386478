/** What the cart controller does to a cart's lines, as functions of the
    lines before the request and the catalog; the `Shop` methods perform the
    same edits in place and are proved against these functions. */
module CartEdits {
  import opened Common
  import opened Catalog
  import opened CartModel

  /** What the search for a product's line answers: the index of its line,
      no line for it, or a line whose product the catalog no longer holds
      (its populated reference is null, and reading its id throws). */
  datatype Lookup = Found(index: nat) | Absent | Dangling

  /** The search for the line of product `p`, from index `i` on, in line
      order; it stops at the first line that matches or throws. */
  function FindFrom(lines: seq<CartLine>, catalog: Stock, p: ProductId, i: nat): (r: Lookup)
    requires i <= |lines|
    ensures r.Found? ==> i <= r.index < |lines| && lines[r.index].product == p && lines[r.index].product in catalog
    ensures r.Found? ==> forall j | i <= j < r.index :: lines[j].product in catalog && lines[j].product != p
    ensures r.Absent? ==> forall j | i <= j < |lines| :: lines[j].product in catalog && lines[j].product != p
    ensures r.Dangling? ==> exists j | i <= j < |lines| :: lines[j].product !in catalog
                                                          && forall k | i <= k < j :: lines[k].product != p
    decreases |lines| - i
  {
    if i == |lines| then Absent
    else if lines[i].product !in catalog then Dangling
    else if lines[i].product == p then Found(i)
    else FindFrom(lines, catalog, p, i + 1)
  }

  function FindProductLine(lines: seq<CartLine>, catalog: Stock, p: ProductId): Lookup
  {
    FindFrom(lines, catalog, p, 0)
  }

  /** The line edit of adding `quantity` units of `p` once the product has
      been found and its stock checked: a dangling line met first throws; an
      existing line of `p` grows by `quantity`; otherwise a new line with a
      fresh id and the product's current price is appended. A line left
      below one unit fails the schema and nothing is saved. */
  function AddLine(lines: seq<CartLine>, catalog: Stock, p: ProductId, quantity: int, freshId: LineId)
    : (r: Result<seq<CartLine>, Failure>)
    requires p in catalog
    ensures r.Err? ==> r.error in {RuntimeError, ValidationError}
  {
    match FindProductLine(lines, catalog, p)
    case Dangling => Err(RuntimeError)
    case Found(i) =>
      if lines[i].quantity + quantity < 1 then Err(ValidationError)
      else Ok(lines[i := lines[i].(quantity := lines[i].quantity + quantity)])
    case Absent =>
      if quantity < 1 then Err(ValidationError)
      else Ok(lines + [CartLine(freshId, p, quantity, catalog[p].price)])
  }

  /** When the line edit of an add fails: it throws exactly when the search
      meets a line whose product is gone before any line of `p`, and the
      schema refuses it exactly when the line it leaves holds fewer than one
      unit. */
  lemma AddLineFails(lines: seq<CartLine>, catalog: Stock, p: ProductId, quantity: int, freshId: LineId)
    requires p in catalog
    ensures var r := AddLine(lines, catalog, p, quantity, freshId);
            var f := FindProductLine(lines, catalog, p);
      && (r == Err(RuntimeError) <==> f.Dangling?)
      && (r == Err(ValidationError) <==>
            (f.Found? && lines[f.index].quantity + quantity < 1) || (f.Absent? && quantity < 1))
  {
  }

  /** The quantity an add request asks for: 1 when the body gives none. */
  function Requested(quantity: Option<int>): int
  {
    if quantity.None? then 1 else quantity.value
  }

  /** The add request on the lines of the caller's cart (`[]` when there is
      no cart yet): the product must exist, and its stock must cover the
      requested quantity (not the cart's units plus the request); then the
      line edit. The first two refusals come before the cart is fetched or
      created. */
  function AddRequest(lines: seq<CartLine>, catalog: Stock, p: ProductId, quantity: Option<int>, freshId: LineId)
    : (r: Result<seq<CartLine>, Failure>)
    ensures r == Err(ProductNotFound) <==> p !in catalog
    ensures r == Err(NotEnoughStock) <==> p in catalog && catalog[p].stock < Requested(quantity)
    ensures r.Ok? ==> p in catalog && Requested(quantity) <= catalog[p].stock
    ensures (p in catalog && Requested(quantity) <= catalog[p].stock)
            ==> r == AddLine(lines, catalog, p, Requested(quantity), freshId)
  {
    if p !in catalog then Err(ProductNotFound)
    else if catalog[p].stock < Requested(quantity) then Err(NotEnoughStock)
    else AddLine(lines, catalog, p, Requested(quantity), freshId)
  }

  /** Whether a request got as far as fetching (and so creating) the
      caller's cart. */
  predicate AddReachesCart(r: Result<seq<CartLine>, Failure>)
  {
    r != Err(ProductNotFound) && r != Err(NotEnoughStock)
  }

  /** A successful add raises the cart's units of `p`, and its unit total,
      by exactly `quantity`, leaves every other product's units alone, appends
      a line only when `p` had none, and keeps one line per product, distinct
      line ids and every line at one unit or more. */
  lemma AddLineEffect(lines: seq<CartLine>, catalog: Stock, p: ProductId, quantity: int, freshId: LineId)
    requires p in catalog && CatalogValid(catalog)
    requires LinesValid(lines, freshId)
    requires AddLine(lines, catalog, p, quantity, freshId).Ok?
    ensures var r := AddLine(lines, catalog, p, quantity, freshId).value;
      && LinesValid(r, if FindProductLine(lines, catalog, p).Found? then freshId else freshId + 1)
      && TotalItems(r) == TotalItems(lines) + quantity
      && (forall q :: CartQuantity(r, q) == CartQuantity(lines, q) + (if q == p then quantity else 0))
      && |r| == |lines| + (if FindProductLine(lines, catalog, p).Found? then 0 else 1)
  {
    var r := AddLine(lines, catalog, p, quantity, freshId).value;
    match FindProductLine(lines, catalog, p)
    case Found(i) =>
      TotalsReplace(lines, i, lines[i].(quantity := lines[i].quantity + quantity));
    case Absent =>
      var l := CartLine(freshId, p, quantity, catalog[p].price);
      TotalsAppend(lines, [l]);
      assert [l][..0] == [];
      assert r[|lines|] == l;
  }

  lemma MulDistributes(a: int, b: int, c: int)
    ensures a * (b + c) == a * b + a * c
  {
  }

  /** A successful add to a product that already has a line changes only
      that line's quantity, by `quantity`; the line keeps the price it was
      added at, and the amount grows by that price times `quantity`. */
  lemma AddToExistingLine(lines: seq<CartLine>, catalog: Stock, p: ProductId, quantity: int, freshId: LineId)
    requires p in catalog && FindProductLine(lines, catalog, p).Found?
    requires AddLine(lines, catalog, p, quantity, freshId).Ok?
    ensures var r := AddLine(lines, catalog, p, quantity, freshId).value;
            var i := FindProductLine(lines, catalog, p).index;
      && i < |lines| && lines[i].product == p && |r| == |lines|
      && r[i] == lines[i].(quantity := lines[i].quantity + quantity)
      && (forall j | 0 <= j < |lines| && j != i :: r[j] == lines[j])
      && TotalAmount(r) == TotalAmount(lines) + lines[i].price * quantity
  {
    var r := AddLine(lines, catalog, p, quantity, freshId).value;
    var i := FindProductLine(lines, catalog, p).index;
    var l := lines[i].(quantity := lines[i].quantity + quantity);
    assert r == lines[i := l];
    TotalsReplace(lines, i, l);
    MulDistributes(lines[i].price, lines[i].quantity, quantity);
  }

  /** A successful add to a product without a line appends exactly one
      line, with the fresh id, the quantity and the product's current
      price, and the amount grows by that price times `quantity`. */
  lemma AddNewLine(lines: seq<CartLine>, catalog: Stock, p: ProductId, quantity: int, freshId: LineId)
    requires p in catalog && FindProductLine(lines, catalog, p).Absent?
    requires AddLine(lines, catalog, p, quantity, freshId).Ok?
    ensures var r := AddLine(lines, catalog, p, quantity, freshId).value;
      && r == lines + [CartLine(freshId, p, quantity, catalog[p].price)]
      && TotalAmount(r) == TotalAmount(lines) + catalog[p].price * quantity
  {
    var l := CartLine(freshId, p, quantity, catalog[p].price);
    TotalsAppend(lines, [l]);
    assert [l][..0] == [];
  }

  /** The stock check of an add compares the requested quantity only, not
      the cart's units plus the request: with 2 units in the cart and 3 in
      stock, adding 2 more succeeds and leaves 4 units in the cart. */
  lemma AddCanExceedStock()
    ensures var catalog := map[7 := Product("Course", 100, "", 3)];
            var lines := [CartLine(0, 7, 2, 100)];
            && catalog[7].stock >= 2
            && AddLine(lines, catalog, 7, 2, 1).Ok?
            && CartQuantity(AddLine(lines, catalog, 7, 2, 1).value, 7) > catalog[7].stock
  {
    var lines := [CartLine(0, 7, 2, 100)];
    var r := lines[0 := lines[0].(quantity := 4)];
    assert r[..0] == [];
  }

  /** The line with id `id`, the first one when there is one. */
  function FindLineById(lines: seq<CartLine>, id: LineId): (r: Option<nat>)
    ensures r.Some? ==> r.value < |lines| && lines[r.value].id == id
    ensures r.Some? ==> forall j | 0 <= j < r.value :: lines[j].id != id
    ensures r.None? ==> forall j | 0 <= j < |lines| :: lines[j].id != id
  {
    if lines == [] then None
    else if lines[0].id == id then Some(0)
    else
      match FindLineById(lines[1..], id)
      case None => None
      case Some(k) => Some(k + 1)
  }

  /** The line edit of an update once the quantity passed its first check:
      an absent line id is not found; a line whose product is gone throws
      when its stock is read; a quantity above the stock is refused; a
      missing quantity fails the schema; otherwise that line's quantity is
      set to the new value. */
  function UpdateLine(lines: seq<CartLine>, catalog: Stock, id: LineId, quantity: Option<int>)
    : (r: Result<seq<CartLine>, Failure>)
    ensures r == Err(ItemNotFound) <==> FindLineById(lines, id).None?
    ensures r == Err(RuntimeError) <==>
              FindLineById(lines, id).Some? && lines[FindLineById(lines, id).value].product !in catalog
    ensures r == Err(NotEnoughStock) <==>
              && FindLineById(lines, id).Some? && lines[FindLineById(lines, id).value].product in catalog
              && quantity.Some? && catalog[lines[FindLineById(lines, id).value].product].stock < quantity.value
    ensures r == Err(ValidationError) <==>
              && FindLineById(lines, id).Some? && lines[FindLineById(lines, id).value].product in catalog
              && quantity.None?
    ensures r.Ok? <==>
              && FindLineById(lines, id).Some? && lines[FindLineById(lines, id).value].product in catalog
              && quantity.Some? && quantity.value <= catalog[lines[FindLineById(lines, id).value].product].stock
  {
    match FindLineById(lines, id)
    case None => Err(ItemNotFound)
    case Some(i) =>
      if lines[i].product !in catalog then Err(RuntimeError)
      else if quantity.Some? && catalog[lines[i].product].stock < quantity.value then Err(NotEnoughStock)
      else if quantity.None? then Err(ValidationError)
      else Ok(lines[i := lines[i].(quantity := quantity.value)])
  }

  /** The update request on the lines of the caller's cart: a given
      quantity below one is refused before the cart is fetched or created;
      then the line edit. */
  function UpdateRequest(lines: seq<CartLine>, catalog: Stock, id: LineId, quantity: Option<int>)
    : (r: Result<seq<CartLine>, Failure>)
    ensures r == Err(QuantityBelowOne) <==> quantity.Some? && quantity.value < 1
    ensures r.Ok? ==> quantity.Some? && quantity.value >= 1
    ensures r != Err(QuantityBelowOne) ==> r == UpdateLine(lines, catalog, id, quantity)
  {
    if quantity.Some? && quantity.value < 1 then Err(QuantityBelowOne)
    else UpdateLine(lines, catalog, id, quantity)
  }

  /** A successful update sets (does not add to) the quantity of exactly one
      line, the one with the given id, to a value the product's stock covers;
      every other line, and the line count, stay the same. */
  lemma UpdateLineEffect(lines: seq<CartLine>, catalog: Stock, id: LineId, quantity: int, nextId: LineId)
    requires LinesValid(lines, nextId) && quantity >= 1
    requires UpdateLine(lines, catalog, id, Some(quantity)).Ok?
    ensures var i := FindLineById(lines, id).value;
            var r := UpdateLine(lines, catalog, id, Some(quantity)).value;
      && lines[i].id == id && |r| == |lines| && LinesValid(r, nextId)
      && r[i] == lines[i].(quantity := quantity)
      && lines[i].product in catalog && quantity <= catalog[lines[i].product].stock
      && (forall j | 0 <= j < |lines| && lines[j].id != id :: r[j] == lines[j])
      && TotalItems(r) == TotalItems(lines) - lines[i].quantity + quantity
  {
    var i := FindLineById(lines, id).value;
    TotalsReplace(lines, i, lines[i].(quantity := quantity));
  }
}
