/** Values shared by every part of the order-fulfilment core: optional values,
    outcomes, identities and the error kinds the controllers answer with. */
module Common {

  datatype Option<+T> = None | Some(value: T)

  /** A controller answer that carries no payload beyond success. */
  datatype Outcome<+E> = Pass | Fail(error: E)

  /** A controller answer that carries a payload on success. */
  datatype Result<+T, +E> = Ok(value: T) | Err(error: E)

  type ProductId = nat
  type UserId = nat
  type SessionId = string
  /** The `_id` the document store gives each cart line. */
  type LineId = nat
  /** The `_id` of an order: its position in the order store. */
  type OrderId = nat

  /** What a request carries about who sends it: an authenticated user id
      (`req.user._id`) and a session id (`req.sessionID` or the
      `x-session-id` header); either may be absent. */
  datatype Caller = Caller(user: Option<UserId>, session: Option<SessionId>)

  /** The partition key of a cart and of an order listing: the user id when
      the caller has one, otherwise the session id. */
  datatype Key = ByUser(user: UserId) | BySession(session: Option<SessionId>)

  function KeyOf(c: Caller): Key
  {
    if c.user.Some? then ByUser(c.user.value) else BySession(c.session)
  }

  /** Every failure a controller of the core can answer with. */
  datatype Failure =
    | ProductNotFound               // 'Product not found'
    | NotEnoughStock                // 'Not enough stock available'
    | QuantityBelowOne              // 'Quantity must be at least 1'
    | ItemNotFound                  // 'Item not found in cart'
    | ValidationError               // the schema rejected a save
    | RuntimeError                  // an exception thrown while reading a dangling product reference
    | IncompleteAddress             // 'Please provide complete shipping address'
    | NoPaymentMethod               // 'Please select a payment method'
    | EmptyCart                     // 'Your cart is empty'
    | ProductGone                   // 'Product ... no longer exists'
    | StockShort(name: string, available: int)  // 'Not enough stock for <name>. Available: <stock>'
    | OrderNotFound                 // 'Order not found'
    | Forbidden                     // 'Not authorized to ... this order'
    | CannotCancelDelivered         // 'Cannot cancel delivered orders'
    | AlreadyCancelled              // 'Order is already cancelled'
}
