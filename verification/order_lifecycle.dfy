/** What the order controller answers, as functions of the order store (a
    sequence whose index is the order id and whose order is creation order):
    who may see or cancel an order, the cancellation itself, the paginated
    listing and the statistics. */
module OrderLifecycle {
  import opened Common
  import opened OrderModel
  import opened Checkout

  /** The authorisation check of the details and cancel requests: the
      caller's user id owns the order, or the caller's non-empty session id
      does. */
  predicate MayAct(caller: Caller, o: Order)
  {
    || (caller.user.Some? && o.user == caller.user)
    || (caller.session.Some? && caller.session.value != "" && o.session == caller.session)
  }

  /** The filter of the listing and the statistics: the caller's user id
      when there is one, otherwise the caller's session id. */
  predicate Owns(key: Key, o: Order)
  {
    match key
    case ByUser(u) => o.user == Some(u)
    case BySession(s) => o.session == s
  }

  /** Whoever places an order may later open and cancel it, and finds it in
      their listing. */
  lemma CreatorMayAct(caller: Caller, items: seq<OrderLine>, a: AddressInput, pm: PaymentMethod,
                      notes: string, itemsPrice: int, number: string)
    requires caller.user.Some? || (caller.session.Some? && caller.session.value != "")
    ensures var o := NewOrder(caller, items, a, pm, notes, itemsPrice, number);
            MayAct(caller, o) && Owns(KeyOf(caller), o)
  {
  }

  /** Every order a caller with some identity finds in their listing is one
      they may open and cancel. */
  lemma OwnedMayAct(caller: Caller, o: Order)
    requires caller.user.Some? || (caller.session.Some? && caller.session.value != "")
    requires Owns(KeyOf(caller), o)
    ensures MayAct(caller, o)
  {
  }

  /** The statuses the cancel request accepts: all but delivered and
      cancelled ones. */
  predicate Cancellable(s: OrderStatus)
  {
    s != Delivered && s != Cancelled
  }

  /** Pending, processing and shipped orders, and only those, can be
      cancelled. */
  lemma CancellableStatuses(s: OrderStatus)
    ensures Cancellable(s) <==> s == Pending || s == Processing || s == Shipped
  {
  }

  /** The checks of a cancel request, in the controller's order: the order
      exists, the caller may act on it, it is not delivered, it is not
      already cancelled. */
  function CancelFailure(orders: seq<Order>, id: OrderId, caller: Caller): (r: Option<Failure>)
    ensures r.None? <==> id < |orders| && MayAct(caller, orders[id]) && Cancellable(orders[id].status)
    ensures r == Some(OrderNotFound) <==> id >= |orders|
    ensures r == Some(Forbidden) <==> id < |orders| && !MayAct(caller, orders[id])
    ensures r == Some(CannotCancelDelivered) <==> id < |orders| && MayAct(caller, orders[id]) && orders[id].status == Delivered
    ensures r == Some(AlreadyCancelled) <==> id < |orders| && MayAct(caller, orders[id]) && orders[id].status == Cancelled
  {
    if id >= |orders| then Some(OrderNotFound)
    else if !MayAct(caller, orders[id]) then Some(Forbidden)
    else if orders[id].status == Delivered then Some(CannotCancelDelivered)
    else if orders[id].status == Cancelled then Some(AlreadyCancelled)
    else None
  }

  const DefaultReason: string := "Customer requested cancellation"

  /** The order after cancellation at time `now`: the status, the time and
      the reason (the default one when none or an empty one is given). */
  function CancelledOrder(o: Order, reason: Option<string>, now: int): Order
  {
    o.(status := Cancelled, cancelledAt := Some(now),
       cancellationReason := Some(if reason.None? || reason.value == "" then DefaultReason else reason.value))
  }

  /** Cancelling touches only the status, the time and the reason: the
      owner, the number, the lines, the prices and the payment status stay
      (no refund is recorded); the order stays valid and keeps its owner's
      access, and a second cancel is refused as already cancelled. */
  lemma CancelEffect(orders: seq<Order>, id: OrderId, caller: Caller, reason: Option<string>, now: int)
    requires CancelFailure(orders, id, caller).None? && OrderValid(orders[id])
    ensures var o := orders[id];
            var c := CancelledOrder(o, reason, now);
      && c.status == Cancelled && c.cancelledAt == Some(now)
      && c.cancellationReason.Some? && c.cancellationReason.value != ""
      && c.(status := o.status, cancelledAt := o.cancelledAt, cancellationReason := o.cancellationReason) == o
      && OrderValid(c)
      && CancelFailure(orders[id := c], id, caller) == Some(AlreadyCancelled)
  {
  }

  /** The details request: not found, then not authorised, then the order. */
  function Details(orders: seq<Order>, id: OrderId, caller: Caller): (r: Result<Order, Failure>)
    ensures r.Ok? <==> id < |orders| && MayAct(caller, orders[id])
    ensures r.Ok? ==> r.value == orders[id]
    ensures r.Err? ==> r.error == (if id < |orders| then Forbidden else OrderNotFound)
  {
    if id >= |orders| then Err(OrderNotFound)
    else if !MayAct(caller, orders[id]) then Err(Forbidden)
    else Ok(orders[id])
  }

  /** The lookup by id of the checkout routes: it checks no ownership, so
      any caller reads any order it can name. */
  function OrderById(orders: seq<Order>, id: OrderId): (r: Result<Order, Failure>)
    ensures r.Ok? <==> id < |orders|
    ensures r.Ok? ==> r.value == orders[id]
    ensures r.Err? ==> r.error == OrderNotFound
  {
    if id < |orders| then Ok(orders[id]) else Err(OrderNotFound)
  }

  /** The lookup by order number, also without an ownership check. */
  function FindByNumber(orders: seq<Order>, number: string): (r: Option<OrderId>)
    ensures r.Some? ==> r.value < |orders| && orders[r.value].number == number
    ensures r.None? ==> forall i | 0 <= i < |orders| :: orders[i].number != number
  {
    if orders == [] then None
    else if orders[0].number == number then Some(0)
    else
      match FindByNumber(orders[1..], number)
      case None => None
      case Some(k) => Some(k + 1)
  }

  /** The numbers issued so far, in creation order. */
  function NumbersOf(orders: seq<Order>): (r: seq<string>)
    ensures |r| == |orders| && forall i | 0 <= i < |orders| :: r[i] == orders[i].number
  {
    if orders == [] then [] else NumbersOf(orders[..|orders| - 1]) + [orders[|orders| - 1].number]
  }

  predicate NumbersDistinct(orders: seq<Order>)
  {
    forall i, j | 0 <= i < j < |orders| :: orders[i].number != orders[j].number
  }

  /** With distinct order numbers, looking an order up by its own number
      finds that order. */
  lemma FindOwnNumber(orders: seq<Order>, i: nat)
    requires i < |orders| && NumbersDistinct(orders)
    ensures FindByNumber(orders, orders[i].number) == Some(i)
  {
    var r := FindByNumber(orders, orders[i].number);
    assert r.Some?;
  }

  // The listing.

  /** The page number of the query, with the default 1 when it is missing,
      not a number, or zero. */
  function PageParam(page: Option<int>): (r: int)
    ensures r != 0
    ensures page.Some? && page.value != 0 ==> r == page.value
    ensures page.None? || page.value == 0 ==> r == 1
  {
    if page.None? || page.value == 0 then 1 else page.value
  }

  /** The page size of the query, with the default 10 when it is missing,
      not a number, or zero. */
  function LimitParam(limit: Option<int>): (r: int)
    ensures r != 0
    ensures limit.Some? && limit.value != 0 ==> r == limit.value
    ensures limit.None? || limit.value == 0 ==> r == 10
  {
    if limit.None? || limit.value == 0 then 10 else limit.value
  }

  function Abs(x: int): nat
  {
    if x < 0 then -x else x
  }

  /** How many of the selected orders precede the requested page. */
  function Offset(page: Option<int>, limit: Option<int>): int
  {
    (PageParam(page) - 1) * LimitParam(limit)
  }

  /** The least integer at or above `a / b`. */
  function CeilDiv(a: int, b: int): int
    requires b != 0
  {
    if b > 0 then -((-a) / b) else -(a / (-b))
  }

  /** `CeilDiv(a, b)` is the least integer at or above `a / b`. */
  lemma CeilDivBounds(a: int, b: int)
    requires b != 0
    ensures b > 0 ==> b * (CeilDiv(a, b) - 1) < a <= b * CeilDiv(a, b)
    ensures b < 0 ==> -b * (CeilDiv(a, b) - 1) < -a <= -b * CeilDiv(a, b)
  {
    if b > 0 {
      var q := (-a) / b;
      assert b * q <= -a < b * q + b;
    } else {
      var q := a / (-b);
      assert -b * q <= a < -b * q - b;
    }
  }

  /** The filter of a listing: owned by the key, and with the given order
      and payment status names where these are non-empty. */
  predicate Selected(o: Order, key: Key, status: string, paymentStatus: string)
  {
    && Owns(key, o)
    && (status == "" || OrderStatusName(o.status) == status)
    && (paymentStatus == "" || PaymentStatusName(o.paymentStatus) == paymentStatus)
  }

  /** The ids of the selected orders, oldest first. */
  function Selection(orders: seq<Order>, key: Key, status: string, paymentStatus: string): (r: seq<OrderId>)
    ensures forall k | 0 <= k < |r| :: r[k] < |orders| && Selected(orders[r[k]], key, status, paymentStatus)
    ensures forall i | 0 <= i < |orders| && Selected(orders[i], key, status, paymentStatus) :: i in r
    ensures forall a, b | 0 <= a < b < |r| :: r[a] < r[b]
  {
    if orders == [] then []
    else
      var n := |orders| - 1;
      var init := Selection(orders[..n], key, status, paymentStatus);
      assert forall k | 0 <= k < |init| :: orders[..n][init[k]] == orders[init[k]];
      if Selected(orders[n], key, status, paymentStatus) then init + [n] else init
  }

  function Reverse(s: seq<OrderId>): (r: seq<OrderId>)
    ensures |r| == |s| && forall i | 0 <= i < |s| :: r[i] == s[|s| - 1 - i]
  {
    if s == [] then [] else [s[|s| - 1]] + Reverse(s[..|s| - 1])
  }

  /** At most `n` elements of `s` starting at `skip`. */
  function Window(s: seq<OrderId>, skip: nat, n: nat): (r: seq<OrderId>)
    ensures |r| <= n
    ensures skip < |s| ==> |r| == (if skip + n <= |s| then n else |s| - skip)
    ensures skip >= |s| ==> r == []
    ensures forall i | 0 <= i < |r| :: r[i] == s[skip + i]
  {
    if skip >= |s| then [] else if skip + n <= |s| then s[skip..skip + n] else s[skip..]
  }

  datatype Pagination = Pagination(currentPage: int, totalPages: int, totalOrders: nat, ordersPerPage: int)

  /** A page of the listing: the ids of the orders the response carries, in
      that order, and the pagination block. */
  datatype Listing = Listing(ids: seq<OrderId>, pagination: Pagination)

  /** The listing request. A negative offset (page and limit of different
      signs) is refused by the store; a negative limit returns as many
      orders as its absolute value. */
  function ListOrders(orders: seq<Order>, caller: Caller, page: Option<int>, limit: Option<int>,
                      status: string, paymentStatus: string): (r: Result<Listing, Failure>)
    ensures r.Err? <==> Offset(page, limit) < 0
    ensures r.Err? ==> r.error == RuntimeError
    ensures r.Ok? ==> var ids := r.value.ids;
      && |ids| <= Abs(LimitParam(limit))
      && (forall k | 0 <= k < |ids| :: ids[k] < |orders| && Selected(orders[ids[k]], KeyOf(caller), status, paymentStatus))
      && (forall a, b | 0 <= a < b < |ids| :: ids[a] > ids[b])
      && r.value.pagination.totalOrders == |Selection(orders, KeyOf(caller), status, paymentStatus)|
      && r.value.pagination.currentPage == PageParam(page)
      && r.value.pagination.ordersPerPage == LimitParam(limit)
  {
    var p, l := PageParam(page), LimitParam(limit);
    var skip := Offset(page, limit);
    if skip < 0 then Err(RuntimeError)
    else
      var all := Reverse(Selection(orders, KeyOf(caller), status, paymentStatus));
      Ok(Listing(Window(all, skip, Abs(l)), Pagination(p, CeilDiv(|all|, l), |all|, l)))
  }

  /** Which orders a page holds: with `skip` the page's offset, the
      orders from `skip` on in the newest-first selection, at most the page
      size of them. */
  lemma ListingWindow(orders: seq<Order>, caller: Caller, page: Option<int>, limit: Option<int>,
                      status: string, paymentStatus: string)
    requires ListOrders(orders, caller, page, limit, status, paymentStatus).Ok?
    ensures var r := ListOrders(orders, caller, page, limit, status, paymentStatus).value;
            var sel := Selection(orders, KeyOf(caller), status, paymentStatus);
            var l := LimitParam(limit);
            var skip := Offset(page, limit);
      && 0 <= skip
      && |r.ids| == (if skip >= |sel| then 0 else if skip + Abs(l) <= |sel| then Abs(l) else |sel| - skip)
      && NewestFirstFrom(r.ids, sel, skip)
  {
    var sel := Selection(orders, KeyOf(caller), status, paymentStatus);
    var l := LimitParam(limit);
    var skip := Offset(page, limit);
    var ids := ListOrders(orders, caller, page, limit, status, paymentStatus).value.ids;
    assert 0 <= skip;
    assert ids == Window(Reverse(sel), skip, Abs(l));
    NewestFirstWindow(sel, skip, Abs(l));
  }

  /** The page count of a listing is the selection's size divided by the
      page size, rounded up. */
  lemma ListingPageCount(orders: seq<Order>, caller: Caller, page: Option<int>, limit: Option<int>,
                         status: string, paymentStatus: string)
    requires ListOrders(orders, caller, page, limit, status, paymentStatus).Ok?
    ensures ListOrders(orders, caller, page, limit, status, paymentStatus).value.pagination.totalPages
         == CeilDiv(|Selection(orders, KeyOf(caller), status, paymentStatus)|, LimitParam(limit))
  {
    var sel := Selection(orders, KeyOf(caller), status, paymentStatus);
    assert |Reverse(sel)| == |sel|;
  }

  /** `ids` lists `sel` newest first, starting `skip` places from its newest. */
  predicate NewestFirstFrom(ids: seq<OrderId>, sel: seq<OrderId>, skip: nat)
  {
    forall k | 0 <= k < |ids| :: skip + k < |sel| && ids[k] == sel[|sel| - 1 - (skip + k)]
  }

  /** The window over the newest-first order of `sel`. */
  lemma NewestFirstWindow(sel: seq<OrderId>, skip: nat, n: nat)
    ensures var ids := Window(Reverse(sel), skip, n);
      && |ids| == (if skip >= |sel| then 0 else if skip + n <= |sel| then n else |sel| - skip)
      && NewestFirstFrom(ids, sel, skip)
  {
    var all := Reverse(sel);
    var ids := Window(all, skip, n);
    forall k | 0 <= k < |ids| ensures skip + k < |sel| && ids[k] == sel[|sel| - 1 - (skip + k)] {
      assert ids[k] == all[skip + k];
    }
  }

  lemma MulMonotone(a: int, b: int, l: int)
    requires a <= b && l >= 0
    ensures a * l <= b * l
  {
    assert b * l - a * l == (b - a) * l;
  }

  /** The arithmetic of pages: with `t` the least integer at or above
      `n / l`, page `p` starts inside the `n` items exactly when `p <= t`,
      and ends inside them when `p < t`. */
  lemma PageArithmetic(n: nat, l: int, p: int, t: int)
    requires l >= 1 && p >= 1 && l * (t - 1) < n <= l * t
    ensures (p - 1) * l < n <==> p <= t
    ensures p < t ==> (p - 1) * l + l <= n
  {
    assert l * (t - 1) == (t - 1) * l && l * t == t * l;
    if p <= t {
      MulMonotone(p - 1, t - 1, l);
    } else {
      MulMonotone(t, p - 1, l);
    }
    if p < t {
      assert (p - 1) * l + l == p * l;
      MulMonotone(p, t - 1, l);
    }
  }

  /** With a positive page size and page, a page holds orders exactly when
      its number is at most the number of pages, and it is full unless it is
      the last one. */
  lemma ListingPages(orders: seq<Order>, caller: Caller, page: int, limit: int, status: string, paymentStatus: string)
    requires page >= 1 && limit >= 1
    ensures var r := ListOrders(orders, caller, Some(page), Some(limit), status, paymentStatus);
      && r.Ok?
      && (|r.value.ids| > 0 <==> page <= r.value.pagination.totalPages)
      && (page < r.value.pagination.totalPages ==> |r.value.ids| == limit)
  {
    var n := |Selection(orders, KeyOf(caller), status, paymentStatus)|;
    var t := CeilDiv(n, limit);
    CeilDivBounds(n, limit);
    assert (page - 1) * limit >= 0;
    PageArithmetic(n, limit, page, t);
  }

  // The statistics.

  datatype Stats = Stats(totalOrders: nat, totalSpent: real, pendingOrders: nat, deliveredOrders: nat,
                         cancelledOrders: nat)

  function Indicator(b: bool): nat
  {
    if b then 1 else 0
  }

  /** The statistics of the orders the key owns: how many, the sum of their
      totals (cancelled ones included), and how many are pending, delivered
      and cancelled. */
  function StatsOf(orders: seq<Order>, key: Key): (s: Stats)
    ensures s.pendingOrders + s.deliveredOrders + s.cancelledOrders <= s.totalOrders
  {
    if orders == [] then Stats(0, 0.0, 0, 0, 0)
    else
      var n := |orders| - 1;
      Count(StatsOf(orders[..n], key), orders[n], key)
  }

  /** A key that owns no order gets all zeros. */
  lemma {:induction false} StatsOfNothingOwned(orders: seq<Order>, key: Key)
    requires forall i | 0 <= i < |orders| :: !Owns(key, orders[i])
    ensures StatsOf(orders, key) == Stats(0, 0.0, 0, 0, 0)
    decreases |orders|
  {
    if orders != [] {
      var n := |orders| - 1;
      assert forall i | 0 <= i < n :: orders[..n][i] == orders[i];
      StatsOfNothingOwned(orders[..n], key);
    }
  }

  /** The statistics after one more order is looked at. */
  function Count(s: Stats, o: Order, key: Key): Stats
  {
    if !Owns(key, o) then s
    else Stats(s.totalOrders + 1, s.totalSpent + o.totalPrice,
               s.pendingOrders + Indicator(o.status == Pending),
               s.deliveredOrders + Indicator(o.status == Delivered),
               s.cancelledOrders + Indicator(o.status == Cancelled))
  }

  /** How cancelling one pending-or-processing order moves the statistics. */
  predicate CancelDelta(s: Stats, s': Stats, wasPending: bool)
  {
    && s'.totalOrders == s.totalOrders && s'.totalSpent == s.totalSpent
    && s'.cancelledOrders == s.cancelledOrders + 1
    && s'.deliveredOrders == s.deliveredOrders
    && s'.pendingOrders == s.pendingOrders - Indicator(wasPending)
  }

  /** The statistics count exactly the orders an unfiltered listing counts. */
  lemma {:induction false} StatsCountsListing(orders: seq<Order>, key: Key)
    ensures StatsOf(orders, key).totalOrders == |Selection(orders, key, "", "")|
    decreases |orders|
  {
    if orders != [] {
      StatsCountsListing(orders[..|orders| - 1], key);
    }
  }

  /** With valid orders, the amount spent is never negative. */
  lemma {:induction false} StatsSpentNonNegative(orders: seq<Order>, key: Key)
    requires forall i | 0 <= i < |orders| :: OrderValid(orders[i])
    ensures StatsOf(orders, key).totalSpent >= 0.0
    decreases |orders|
  {
    if orders != [] {
      StatsSpentNonNegative(orders[..|orders| - 1], key);
    }
  }

  /** Placing an order owned by the key adds one order and its total, and
      one pending order. */
  lemma StatsAfterCreate(orders: seq<Order>, key: Key, o: Order)
    requires Owns(key, o) && o.status == Pending
    ensures var s, s' := StatsOf(orders, key), StatsOf(orders + [o], key);
      s' == s.(totalOrders := s.totalOrders + 1, totalSpent := s.totalSpent + o.totalPrice,
               pendingOrders := s.pendingOrders + 1)
  {
    assert (orders + [o])[..|orders|] == orders;
  }

  /** Cancelling an order keeps the count and the amount spent (a cancelled
      order still counts as spent), adds one cancelled order, and takes one
      pending order off when the order was pending. */
  lemma {:induction false} StatsAfterCancel(orders: seq<Order>, key: Key, id: OrderId, reason: Option<string>, now: int)
    requires id < |orders| && Cancellable(orders[id].status) && Owns(key, orders[id])
    ensures CancelDelta(StatsOf(orders, key), StatsOf(orders[id := CancelledOrder(orders[id], reason, now)], key),
                        orders[id].status == Pending)
    decreases |orders|
  {
    var n := |orders| - 1;
    if id < n {
      assert orders[..n][id] == orders[id];
      StatsAfterCancel(orders[..n], key, id, reason, now);
      CancelEarlierStep(orders, key, id, CancelledOrder(orders[id], reason, now), orders[id].status == Pending);
    } else {
      var c := CancelledOrder(orders[id], reason, now);
      assert orders[id := c][..n] == orders[..n];
      CountCancelled(StatsOf(orders[..n], key), orders[id], key, reason, now);
    }
  }

  /** A replacement before the last order moves the statistics as it moves
      those of the orders before the last. */
  lemma CancelEarlierStep(orders: seq<Order>, key: Key, id: OrderId, c: Order, wasPending: bool)
    requires id < |orders| - 1
    requires CancelDelta(StatsOf(orders[..|orders| - 1], key), StatsOf(orders[..|orders| - 1][id := c], key), wasPending)
    ensures CancelDelta(StatsOf(orders, key), StatsOf(orders[id := c], key), wasPending)
  {
    var n := |orders| - 1;
    var orders' := orders[id := c];
    assert orders'[..n] == orders[..n][id := c];
    assert orders'[n] == orders[n];
    CountKeepsDelta(StatsOf(orders[..n], key), StatsOf(orders'[..n], key), orders[n], key, wasPending);
  }

  /** Looking at the same order after both keeps a cancellation's delta. */
  lemma CountKeepsDelta(a: Stats, b: Stats, o: Order, key: Key, wasPending: bool)
    requires CancelDelta(a, b, wasPending)
    ensures CancelDelta(Count(a, o, key), Count(b, o, key), wasPending)
  {
  }

  /** Counting an owned order once cancelled instead of as it was gives a
      cancellation's delta. */
  lemma CountCancelled(s: Stats, o: Order, key: Key, reason: Option<string>, now: int)
    requires Owns(key, o) && Cancellable(o.status)
    ensures CancelDelta(Count(s, o, key), Count(s, CancelledOrder(o, reason, now), key), o.status == Pending)
  {
  }
}
