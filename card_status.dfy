/**
 * The read-only card status endpoint: it derives the available count and the
 * sold-out and reserved flags from a row's two stock counters.
 */
module CardStatus {
  import opened Models
  import opened Checkout

  datatype StatusResponse =
    | MethodNotAllowed
    | NotFound
    | Status(id: int, isSoldOut: bool, isReserved: bool, quantity: int, reserved: int, available: int)

  /**
   * `card_status`: GET only; an unknown id is a 404; otherwise the counters
   * as stored, with `available` tying them together and two flags that are
   * never both set. Being a function, it changes no counter.
   */
  function CardStatus(rows: map<int, StockCounter>, isGet: bool, id: int): (r: StatusResponse)
    reads rows.Values
    ensures !isGet ==> r == MethodNotAllowed
    ensures isGet ==> (r.NotFound? <==> id !in rows)
    ensures isGet && id in rows ==> r.Status?
    ensures r.Status? ==> r.id == id && id in rows
    ensures r.Status? ==> r.quantity == rows[id].quantity && r.reserved == rows[id].reserved
    ensures r.Status? ==> r.available + r.reserved == r.quantity
    ensures r.Status? ==> (r.isSoldOut <==> r.available <= 0)
    ensures r.Status? ==> (r.isReserved <==> r.reserved > 0 && r.available > 0)
    ensures r.Status? ==> !(r.isSoldOut && r.isReserved)
    ensures r.Status? && r.reserved == 0 ==> !r.isReserved
  {
    if !isGet then MethodNotAllowed
    else if id !in rows then NotFound
    else
      var s := rows[id].Value();
      var available := Available(s);
      Status(id, available <= 0, s.reserved > 0 && available > 0, s.quantity, s.reserved, available)
  }
}
