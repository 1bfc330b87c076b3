/**
 * The stock reservation protocol of the checkout views. A checkout request
 * reserves units of one `CollectionCard` under a row lock before a Stripe
 * session is opened; the Stripe webhook later either settles the reservation
 * (the payment completed) or releases it (the session expired or the payment
 * failed). Each locked block is one atomic step here; Stripe's session
 * creation and the webhook signature check are inputs.
 */
module Checkout {
  import opened Common
  import opened Models

  /**
   * The reservation check and increment: it is granted exactly when the
   * available units cover `qty`. Nothing requires `qty` to be positive.
   */
  function AfterReserve(s: Stock, qty: int): (r: Option<Stock>)
    ensures r.Some? <==> qty <= Available(s)
    ensures r.Some? ==> r.value.quantity == s.quantity && r.value.reserved == s.reserved + qty
    ensures r.Some? ==> Available(r.value) == Available(s) - qty >= 0
  {
    if Available(s) < qty then None else Some(Stock(s.quantity, s.reserved + qty))
  }

  /** Settling a paid reservation: sold units leave both counters together. */
  function AfterSettle(s: Stock, qty: int): (r: Stock)
    ensures r.quantity == s.quantity - qty && r.reserved == s.reserved - qty
    ensures Available(r) == Available(s)
  {
    Stock(s.quantity - qty, s.reserved - qty)
  }

  /** Releasing a reservation: the held units become available again. */
  function AfterRelease(s: Stock, qty: int): (r: Stock)
    ensures r.quantity == s.quantity && r.reserved == s.reserved - qty
    ensures Available(r) == Available(s) + qty
  {
    Stock(s.quantity, s.reserved - qty)
  }

  /** Reserving and then settling the same amount sells it and frees the hold. */
  lemma ReserveThenSettle(s: Stock, qty: int)
    requires qty <= Available(s)
    ensures AfterSettle(AfterReserve(s, qty).value, qty) == Stock(s.quantity - qty, s.reserved)
  {
  }

  /** Reserving and then releasing the same amount restores the exact prior state. */
  lemma ReserveThenRelease(s: Stock, qty: int)
    requires qty <= Available(s)
    ensures AfterRelease(AfterReserve(s, qty).value, qty) == s
  {
  }

  /**
   * Webhook deliveries are not de-duplicated: a repeated release frees units
   * that nobody holds, leaving more available than the card's quantity.
   */
  lemma RepeatedReleaseOverReleases(s: Stock, qty: int)
    requires 0 < qty <= Available(s) && s.reserved == 0
    ensures var once := AfterRelease(AfterReserve(s, qty).value, qty);
            AfterRelease(once, qty) == Stock(s.quantity, -qty) && Available(AfterRelease(once, qty)) > s.quantity
  {
  }

  /** A repeated completion sells the units twice. */
  lemma RepeatedSettleSellsTwice(s: Stock, qty: int)
    requires qty <= Available(s)
    ensures var once := AfterSettle(AfterReserve(s, qty).value, qty);
            AfterSettle(once, qty) == Stock(s.quantity - 2 * qty, s.reserved - qty)
  {
  }

  /** The result of a series of reservation attempts served one after another. */
  datatype Serial = Serial(stock: Stock, granted: int)

  /** Serves the attempts in order through the row lock; refused ones change nothing. */
  function ReserveEach(s: Stock, qtys: seq<int>): Serial
    decreases |qtys|
  {
    if qtys == [] then Serial(s, 0)
    else match AfterReserve(s, qtys[0])
      case None => ReserveEach(s, qtys[1..])
      case Some(t) =>
        var rest := ReserveEach(t, qtys[1..]);
        Serial(rest.stock, rest.granted + qtys[0])
  }

  /**
   * However reservations on one card are interleaved, the lock serialises
   * them, and the units granted in total never exceed what was available.
   */
  lemma {:induction false} SerialReservationsNeverOversell(s: Stock, qtys: seq<int>)
    requires Available(s) >= 0
    ensures var r := ReserveEach(s, qtys);
            && r.stock.quantity == s.quantity
            && r.stock.reserved == s.reserved + r.granted
            && 0 <= Available(r.stock)
            && r.granted <= Available(s)
    decreases |qtys|
  {
    if qtys != [] {
      match AfterReserve(s, qtys[0])
      case None => SerialReservationsNeverOversell(s, qtys[1..]);
      case Some(t) => SerialReservationsNeverOversell(t, qtys[1..]);
    }
  }

  /** The `quantity` and `reserved` columns of one locked `CollectionCard` row. */
  class StockCounter {
    var quantity: int
    var reserved: int

    constructor (quantity: int, reserved: int)
      ensures Value() == Stock(quantity, reserved)
    {
      this.quantity := quantity;
      this.reserved := reserved;
    }

    function Value(): Stock
      reads this
    {
      Stock(quantity, reserved)
    }

    /** Check `quantity - reserved >= qty`, then `reserved += qty`. */
    method Reserve(qty: int) returns (granted: bool)
      modifies this
      ensures granted == AfterReserve(old(Value()), qty).Some?
      ensures Value() == AfterReserve(old(Value()), qty).GetOr(old(Value()))
    {
      var available := quantity - reserved;
      if available < qty {
        granted := false;
      } else {
        reserved := reserved + qty;
        granted := true;
      }
    }

    /** The rollback of the enclosing transaction: the row is back to `s`. */
    method Restore(s: Stock)
      modifies this
      ensures Value() == s
    {
      quantity, reserved := s.quantity, s.reserved;
    }

    /** `quantity -= qty; reserved -= qty`. */
    method Settle(qty: int)
      modifies this
      ensures Value() == AfterSettle(old(Value()), qty)
    {
      quantity := quantity - qty;
      reserved := reserved - qty;
    }

    /** `reserved -= qty`. */
    method Release(qty: int)
      modifies this
      ensures Value() == AfterRelease(old(Value()), qty)
    {
      reserved := reserved - qty;
    }
  }

  /** Each row id names its own row object. */
  predicate DistinctRows(rows: map<int, StockCounter>) {
    forall i, j :: i in rows && j in rows && i != j ==> rows[i] != rows[j]
  }

  /** A JSON value passed to Python's `int()`: missing, convertible, or not. */
  datatype RawInt = Absent | IntValue(n: int) | NotAnInt

  /** The two keys a checkout request body is read for. */
  datatype CheckoutBody = CheckoutBody(collectionCardId: RawInt, quantity: RawInt)

  /** `body` is None when the request body is not a JSON object. */
  datatype CheckoutRequest = CheckoutRequest(isPost: bool, body: Option<CheckoutBody>)

  /** What `stripe.checkout.Session.create` (and whatever else runs after the reservation) does. */
  datatype Gateway = SessionCreated(url: string) | GatewayRaised(message: string)

  datatype CheckoutResponse = Redirect(url: string) | Refused(status: int, error: string)

  /**
   * `int(data.get('collection_card_id'))` and `int(data.get('quantity', 1))`:
   * the card id must be present and convertible; a missing quantity means 1.
   */
  function ParseCheckoutBody(body: Option<CheckoutBody>): (r: Option<(int, int)>)
    ensures r.Some? <==> body.Some? && body.value.collectionCardId.IntValue? && !body.value.quantity.NotAnInt?
    ensures r.Some? ==> r.value.0 == body.value.collectionCardId.n
    ensures r.Some? && body.value.quantity.Absent? ==> r.value.1 == 1
    ensures r.Some? && body.value.quantity.IntValue? ==> r.value.1 == body.value.quantity.n
  {
    match body
    case Some(CheckoutBody(IntValue(id), Absent)) => Some((id, 1))
    case Some(CheckoutBody(IntValue(id), IntValue(qty))) => Some((id, qty))
    case _ => None
  }

  /** The card a checkout request asks for, once it passed the method and payload checks. */
  function RequestedCard(req: CheckoutRequest): Option<int> {
    if req.isPost && ParseCheckoutBody(req.body).Some? then Some(ParseCheckoutBody(req.body).value.0) else None
  }

  /**
   * `create_checkout_session`: the method and payload checks come before any
   * lookup; the reservation is kept only when the Stripe session was created,
   * otherwise the transaction rolls it back.
   */
  method CreateCheckoutSession(rows: map<int, StockCounter>, req: CheckoutRequest, gateway: Gateway)
    returns (resp: CheckoutResponse)
    requires DistinctRows(rows)
    modifies rows.Values
    ensures !req.isPost ==> resp == Refused(400, "POST required")
    ensures req.isPost && ParseCheckoutBody(req.body).None? ==> resp == Refused(400, "invalid payload")
    ensures RequestedCard(req).Some? && RequestedCard(req).value !in rows ==> resp == Refused(404, "Not found")
    ensures RequestedCard(req).Some? && RequestedCard(req).value in rows ==>
              var id := RequestedCard(req).value;
              var granted := AfterReserve(old(rows[id].Value()), ParseCheckoutBody(req.body).value.1);
              && (granted.None? ==> resp == Refused(400, "Not enough stock"))
              && (granted.Some? && gateway.GatewayRaised? ==> resp == Refused(500, gateway.message))
              && (granted.Some? && gateway.SessionCreated? ==>
                    resp == Redirect(gateway.url) && rows[id].Value() == granted.value)
    ensures forall k :: k in rows ==>
              rows[k].Value() == old(rows[k].Value()) || (resp.Redirect? && RequestedCard(req) == Some(k))
  {
    if !req.isPost {
      return Refused(400, "POST required");
    }
    var parsed := ParseCheckoutBody(req.body);
    if parsed.None? {
      return Refused(400, "invalid payload");
    }
    var (id, qty) := parsed.value;
    if id !in rows {
      return Refused(404, "Not found");
    }
    var c := rows[id];
    var before := c.Value();
    var granted := c.Reserve(qty);
    if !granted {
      return Refused(400, "Not enough stock");
    }
    match gateway
    case GatewayRaised(message) =>
      c.Restore(before);
      resp := Refused(500, message);
    case SessionCreated(url) =>
      resp := Redirect(url);
  }

  const CompletedEvent: string := "checkout.session.completed"
  const ExpiredEvent: string := "checkout.session.expired"
  const PaymentFailedEvent: string := "payment_intent.payment_failed"

  /**
   * What the handler reads of an event: its `type`, and the session
   * metadata's `collection_card_id` and `reserved_qty` (Absent when a key on
   * the path `data.object.metadata` is missing).
   */
  datatype WebhookEvent = WebhookEvent(eventType: Option<string>, cardId: RawInt, reservedQty: RawInt)

  /**
   * An inbound webhook request: whether its Stripe-Signature header verifies
   * against the secret, and its body as an event (None when it is not JSON).
   */
  datatype Delivery = Delivery(signatureValid: bool, event: Option<WebhookEvent>)

  /**
   * The event the handler goes on with. With a webhook secret configured the
   * signature must verify; without one any well-formed body is accepted.
   */
  function VerifiedEvent(secretConfigured: bool, d: Delivery): (r: Option<WebhookEvent>)
    ensures r.Some? <==> d.event.Some? && (secretConfigured ==> d.signatureValid)
    ensures r.Some? ==> r == d.event
  {
    if secretConfigured && !d.signatureValid then None else d.event
  }

  datatype WebhookAction = SettleHold(cardId: int, qty: int) | ReleaseHold(cardId: int, qty: int) | Acknowledge | Raise

  /**
   * The dispatch on the event type. A handled type whose metadata does not
   * convert raises, which the framework answers with a 500.
   */
  function Dispatch(e: WebhookEvent): (a: WebhookAction)
    ensures a == Acknowledge <==> e.eventType !in {Some(CompletedEvent), Some(ExpiredEvent), Some(PaymentFailedEvent)}
    ensures a.SettleHold? ==> e.eventType == Some(CompletedEvent)
    ensures a.ReleaseHold? ==> e.eventType in {Some(ExpiredEvent), Some(PaymentFailedEvent)}
    ensures a.Raise? <==> a != Acknowledge && !(e.cardId.IntValue? && e.reservedQty.IntValue?)
    ensures (a.SettleHold? || a.ReleaseHold?) ==> a.cardId == e.cardId.n && a.qty == e.reservedQty.n
  {
    var settle := e.eventType == Some(CompletedEvent);
    var release := e.eventType == Some(ExpiredEvent) || e.eventType == Some(PaymentFailedEvent);
    if !settle && !release then Acknowledge
    else if !(e.cardId.IntValue? && e.reservedQty.IntValue?) then Raise
    else if settle then SettleHold(e.cardId.n, e.reservedQty.n)
    else ReleaseHold(e.cardId.n, e.reservedQty.n)
  }

  /** The card whose counters a delivery changes, if it changes any. */
  function HeldCard(secretConfigured: bool, d: Delivery): Option<int> {
    match VerifiedEvent(secretConfigured, d)
    case None => None
    case Some(e) =>
      match Dispatch(e)
      case SettleHold(id, _) => Some(id)
      case ReleaseHold(id, _) => Some(id)
      case _ => None
  }

  /**
   * `stripe_webhook`: a request that fails verification or parsing is
   * refused with 400; a completion settles, an expiry or payment failure
   * releases, anything else is acknowledged with 200. Every delivery is
   * applied again: there is no de-duplication.
   */
  method StripeWebhook(rows: map<int, StockCounter>, secretConfigured: bool, d: Delivery) returns (status: int)
    requires DistinctRows(rows)
    modifies rows.Values
    ensures VerifiedEvent(secretConfigured, d).None? ==> status == 400
    ensures VerifiedEvent(secretConfigured, d).Some? ==>
              var a := Dispatch(VerifiedEvent(secretConfigured, d).value);
              && (a == Acknowledge ==> status == 200)
              && (a.Raise? ==> status == 500)
              && (a.SettleHold? ==>
                    if a.cardId in rows
                    then status == 200 && rows[a.cardId].Value() == AfterSettle(old(rows[a.cardId].Value()), a.qty)
                    else status == 500)
              && (a.ReleaseHold? ==>
                    if a.cardId in rows
                    then status == 200 && rows[a.cardId].Value() == AfterRelease(old(rows[a.cardId].Value()), a.qty)
                    else status == 500)
    ensures forall k :: k in rows ==>
              rows[k].Value() == old(rows[k].Value()) || (status == 200 && HeldCard(secretConfigured, d) == Some(k))
  {
    var event := VerifiedEvent(secretConfigured, d);
    if event.None? {
      return 400;
    }
    match Dispatch(event.value)
    case Acknowledge =>
      status := 200;
    case Raise =>
      status := 500;
    case SettleHold(id, qty) =>
      if id !in rows {
        return 500;
      }
      rows[id].Settle(qty);
      status := 200;
    case ReleaseHold(id, qty) =>
      if id !in rows {
        return 500;
      }
      rows[id].Release(qty);
      status := 200;
  }

  /** A card with five units: a checkout for all five is redirected to Stripe and holds them. */
  method CheckoutAllUnits() returns (resp: CheckoutResponse, after: Stock)
    ensures resp == Redirect("/checkout/1")
    ensures after == Stock(5, 5) && Available(after) == 0
  {
    var c := new StockCounter(5, 0);
    var rows := map[7 := c];
    resp := CreateCheckoutSession(rows, CheckoutRequest(true, Some(CheckoutBody(IntValue(7), IntValue(5)))),
                                  SessionCreated("/checkout/1"));
    after := c.Value();
  }

  /** Once all five units are held, a checkout for one more (the default quantity) is refused. */
  method CheckoutWhenSoldOut() returns (resp: CheckoutResponse, after: Stock)
    ensures resp == Refused(400, "Not enough stock")
    ensures after == Stock(5, 5)
  {
    var c := new StockCounter(5, 5);
    var rows := map[7 := c];
    resp := CreateCheckoutSession(rows, CheckoutRequest(true, Some(CheckoutBody(IntValue(7), Absent))),
                                  SessionCreated("/checkout/2"));
    after := c.Value();
  }

  /** The expiry webhook for that checkout makes the five units available again. */
  method ExpiryReleasesHold() returns (status: int, after: Stock)
    ensures status == 200 && after == Stock(5, 0) && Available(after) == 5
  {
    var c := new StockCounter(5, 5);
    var rows := map[7 := c];
    status := StripeWebhook(rows, true, Delivery(true, Some(WebhookEvent(Some(ExpiredEvent), IntValue(7), IntValue(5)))));
    after := c.Value();
  }

  /** A second delivery of the same expiry releases five units that nobody holds. */
  method RepeatedExpiryOverReleases() returns (status: int, after: Stock)
    ensures status == 200 && after == Stock(5, -5) && Available(after) == 10
  {
    var c := new StockCounter(5, 0);
    var rows := map[7 := c];
    status := StripeWebhook(rows, true, Delivery(true, Some(WebhookEvent(Some(ExpiredEvent), IntValue(7), IntValue(5)))));
    after := c.Value();
  }
}
