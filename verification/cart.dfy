/** The cart document: its lines, the two totals the pre-save hook derives
    from them, and the in-place edits the cart controller makes before it
    saves. */
module CartModel {
  import opened Common

  /** One line of a cart: the product, how many, and the unit price taken
      from the catalog when the line was first added. */
  datatype CartLine = CartLine(id: LineId, product: ProductId, quantity: int, price: int)

  /** The unit count the pre-save hook stores: the sum of the line
      quantities. */
  function TotalItems(lines: seq<CartLine>): int
  {
    if lines == [] then 0 else TotalItems(lines[..|lines| - 1]) + lines[|lines| - 1].quantity
  }

  /** The amount the pre-save hook stores: the sum over the lines of unit
      price times quantity. */
  function TotalAmount(lines: seq<CartLine>): int
  {
    if lines == [] then 0
    else TotalAmount(lines[..|lines| - 1]) + lines[|lines| - 1].price * lines[|lines| - 1].quantity
  }

  /** How many units of `p` the lines hold together. */
  function CartQuantity(lines: seq<CartLine>, p: ProductId): int
  {
    if lines == [] then 0
    else CartQuantity(lines[..|lines| - 1], p)
         + (if lines[|lines| - 1].product == p then lines[|lines| - 1].quantity else 0)
  }

  /** The line schema (quantity at least 1, a price that came from a
      non-negative catalog price) together with what the controller keeps
      true of the line array: line ids below the next fresh id and all
      distinct, and at most one line per product. */
  predicate LinesValid(lines: seq<CartLine>, nextId: LineId)
  {
    && (forall i | 0 <= i < |lines| :: lines[i].quantity >= 1 && lines[i].price >= 0 && lines[i].id < nextId)
    && (forall i, j | 0 <= i < j < |lines| :: lines[i].id != lines[j].id)
    && (forall i, j | 0 <= i < j < |lines| :: lines[i].product != lines[j].product)
  }

  lemma {:induction false} TotalsAppend(a: seq<CartLine>, b: seq<CartLine>)
    ensures TotalItems(a + b) == TotalItems(a) + TotalItems(b)
    ensures TotalAmount(a + b) == TotalAmount(a) + TotalAmount(b)
    ensures forall p :: CartQuantity(a + b, p) == CartQuantity(a, p) + CartQuantity(b, p)
    decreases |b|
  {
    if b != [] {
      var b' := b[..|b| - 1];
      assert (a + b)[..|a + b| - 1] == a + b';
      TotalsAppend(a, b');
    } else {
      assert a + b == a;
    }
  }

  /** Replacing one line moves each total by the difference between the new
      line and the old one. */
  lemma {:induction false} TotalsReplace(lines: seq<CartLine>, i: nat, l: CartLine)
    requires i < |lines|
    ensures TotalItems(lines[i := l]) == TotalItems(lines) - lines[i].quantity + l.quantity
    ensures TotalAmount(lines[i := l]) == TotalAmount(lines) - lines[i].price * lines[i].quantity + l.price * l.quantity
    ensures forall p :: CartQuantity(lines[i := l], p)
                        == CartQuantity(lines, p) - (if lines[i].product == p then lines[i].quantity else 0)
                                                  + (if l.product == p then l.quantity else 0)
  {
    var pre, post := lines[..i], lines[i + 1..];
    assert lines == pre + [lines[i]] + post;
    assert lines[i := l] == pre + [l] + post;
    TotalsAppend(pre + [lines[i]], post);
    TotalsAppend(pre + [l], post);
    TotalsAppend(pre, [lines[i]]);
    TotalsAppend(pre, [l]);
    assert [l][..0] == [] && [lines[i]][..0] == [];
  }

  /** With at least one unit per line, a cart holds at least as many units as
      lines; with non-negative prices its amount is never negative. */
  lemma {:induction false} TotalsBounds(lines: seq<CartLine>, nextId: LineId)
    requires LinesValid(lines, nextId)
    ensures TotalItems(lines) >= |lines|
    ensures TotalAmount(lines) >= 0
    decreases |lines|
  {
    if lines != [] {
      TotalsBounds(lines[..|lines| - 1], nextId);
    }
  }

  /** In a cart with one line per product, the quantity of a product is the
      quantity of its line. */
  lemma {:induction false} CartQuantityOfLine(lines: seq<CartLine>, i: nat)
    requires i < |lines|
    requires forall a, b | 0 <= a < b < |lines| :: lines[a].product != lines[b].product
    ensures CartQuantity(lines, lines[i].product) == lines[i].quantity
    decreases |lines|
  {
    var p := lines[i].product;
    var init := lines[..|lines| - 1];
    if i < |lines| - 1 {
      CartQuantityOfLine(init, i);
    } else {
      CartQuantityAbsent(init, p);
    }
  }

  lemma {:induction false} CartQuantityAbsent(lines: seq<CartLine>, p: ProductId)
    requires forall i | 0 <= i < |lines| :: lines[i].product != p
    ensures CartQuantity(lines, p) == 0
    decreases |lines|
  {
    if lines != [] {
      CartQuantityAbsent(lines[..|lines| - 1], p);
    }
  }

  /** A cart document. The lines are edited in place; the totals are
      written only by `Save`, the pre-save hook. */
  class Cart {
    const key: Key
    var items: seq<CartLine>
    var totalItems: int
    var totalAmount: int
    /** The id the next pushed line receives. */
    var nextLineId: LineId

    /** A saved cart: well-formed lines, and totals equal to the folds over
        them. */
    ghost predicate Valid()
      reads this
    {
      LinesValid(items, nextLineId) && totalItems == TotalItems(items) && totalAmount == TotalAmount(items)
    }

    /** A new cart for `key`, created when the caller has none: no lines and
        both totals zero. */
    constructor (key: Key)
      ensures this.key == key && items == [] && totalItems == 0 && totalAmount == 0 && nextLineId == 0
      ensures Valid()
    {
      this.key := key;
      items := [];
      totalItems := 0;
      totalAmount := 0;
      nextLineId := 0;
    }

    /** The pre-save hook: whatever the totals held, they are overwritten
        with the folds over the lines; the lines are kept. */
    method Save()
      modifies this
      ensures items == old(items) && nextLineId == old(nextLineId)
      ensures totalItems == TotalItems(items) && totalAmount == TotalAmount(items)
    {
      totalItems := TotalItems(items);
      totalAmount := TotalAmount(items);
    }

    /** Adding units to the existing line at index `i`. */
    method IncreaseQuantity(i: nat, quantity: int)
      requires i < |items|
      modifies this
      ensures items == old(items)[i := old(items)[i].(quantity := old(items)[i].quantity + quantity)]
      ensures nextLineId == old(nextLineId)
      ensures totalItems == old(totalItems) && totalAmount == old(totalAmount)
    {
      items := items[i := items[i].(quantity := items[i].quantity + quantity)];
    }

    /** Appending a line for `product`; the new line gets a fresh id. */
    method Push(product: ProductId, quantity: int, price: int)
      modifies this
      ensures items == old(items) + [CartLine(old(nextLineId), product, quantity, price)]
      ensures nextLineId == old(nextLineId) + 1
      ensures totalItems == old(totalItems) && totalAmount == old(totalAmount)
    {
      items := items + [CartLine(nextLineId, product, quantity, price)];
      nextLineId := nextLineId + 1;
    }

    /** Overwriting the quantity of the line at index `i`. */
    method SetQuantity(i: nat, quantity: int)
      requires i < |items|
      modifies this
      ensures items == old(items)[i := old(items)[i].(quantity := quantity)]
      ensures nextLineId == old(nextLineId)
      ensures totalItems == old(totalItems) && totalAmount == old(totalAmount)
    {
      items := items[i := items[i].(quantity := quantity)];
    }

    /** Dropping every line whose id is `id`, keeping the others in order. */
    method RemoveLine(id: LineId)
      modifies this
      ensures items == Without(old(items), id)
      ensures nextLineId == old(nextLineId)
      ensures totalItems == old(totalItems) && totalAmount == old(totalAmount)
    {
      items := Without(items, id);
    }

    /** Emptying the line array. */
    method ClearLines()
      modifies this
      ensures items == []
      ensures nextLineId == old(nextLineId)
      ensures totalItems == old(totalItems) && totalAmount == old(totalAmount)
    {
      items := [];
    }
  }

  /** The lines whose id differs from `id`, in their original order. */
  function Without(lines: seq<CartLine>, id: LineId): seq<CartLine>
  {
    if lines == [] then []
    else if lines[0].id == id then Without(lines[1..], id)
    else [lines[0]] + Without(lines[1..], id)
  }

  /** Removing keeps exactly the lines with another id, in order: each kept
      line is an original line, no other-id line is lost, and `id` is gone. */
  lemma {:induction false} WithoutKeepsOthers(lines: seq<CartLine>, id: LineId)
    ensures forall l | l in Without(lines, id) :: l in lines && l.id != id
    ensures forall l | l in lines && l.id != id :: l in Without(lines, id)
    ensures |Without(lines, id)| <= |lines|
  {
    if lines != [] {
      WithoutKeepsOthers(lines[1..], id);
      assert forall l | l in lines :: l == lines[0] || l in lines[1..];
    }
  }

  /** Removing an id no line carries is a no-op. */
  lemma {:induction false} WithoutAbsent(lines: seq<CartLine>, id: LineId)
    requires forall i | 0 <= i < |lines| :: lines[i].id != id
    ensures Without(lines, id) == lines
  {
    if lines != [] {
      WithoutAbsent(lines[1..], id);
      assert [lines[0]] + lines[1..] == lines;
    }
  }

  /** Removal is idempotent: removing the same id twice is removing it once. */
  lemma WithoutIdempotent(lines: seq<CartLine>, id: LineId)
    ensures Without(Without(lines, id), id) == Without(lines, id)
  {
    var r := Without(lines, id);
    WithoutKeepsOthers(lines, id);
    forall i | 0 <= i < |r| ensures r[i].id != id {
      assert r[i] in r;
    }
    WithoutAbsent(r, id);
  }

  /** Removing a line takes exactly its units and its amount off the totals;
      with distinct ids, an absent id changes neither total. */
  lemma {:induction false} WithoutTotals(lines: seq<CartLine>, id: LineId)
    ensures TotalItems(Without(lines, id)) == TotalItems(lines) - TotalItems(Only(lines, id))
    ensures TotalAmount(Without(lines, id)) == TotalAmount(lines) - TotalAmount(Only(lines, id))
  {
    if lines != [] {
      WithoutTotals(lines[1..], id);
      TotalsAppend([lines[0]], lines[1..]);
      assert [lines[0]] + lines[1..] == lines;
      if lines[0].id == id {
        TotalsAppend([lines[0]], Only(lines[1..], id));
      } else {
        TotalsAppend([lines[0]], Without(lines[1..], id));
      }
      assert [lines[0]][..0] == [];
    }
  }

  /** The lines whose id is `id`. */
  function Only(lines: seq<CartLine>, id: LineId): seq<CartLine>
  {
    if lines == [] then []
    else if lines[0].id == id then [lines[0]] + Only(lines[1..], id)
    else Only(lines[1..], id)
  }

  /** Removing lines keeps the cart well-formed. */
  lemma {:induction false} WithoutValid(lines: seq<CartLine>, id: LineId, nextId: LineId)
    requires LinesValid(lines, nextId)
    ensures LinesValid(Without(lines, id), nextId)
  {
    if lines != [] {
      var t := lines[1..];
      assert LinesValid(t, nextId) by {
        assert forall i | 0 <= i < |t| :: t[i] == lines[i + 1];
      }
      WithoutValid(t, id, nextId);
      var r := Without(t, id);
      if lines[0].id != id {
        assert forall j | 0 <= j < |r| :: r[j].id != lines[0].id && r[j].product != lines[0].product by {
          WithoutKeepsOthers(t, id);
          forall j | 0 <= j < |r| ensures r[j].id != lines[0].id && r[j].product != lines[0].product {
            assert r[j] in t;
            var k :| 0 <= k < |t| && t[k] == r[j];
            assert lines[k + 1] == r[j];
          }
        }
        var res := [lines[0]] + r;
        assert forall i | 1 <= i < |res| :: res[i] == r[i - 1];
        assert LinesValid(res, nextId);
      }
    }
  }

}
