/**
 Orders: the values the admin page works on and the pure computations it makes
 over them: looking an order up by id, rewriting the status of every order that
 carries an id, choosing the error text shown after a failed request, the local
 guard of a status update and the enable rule of the update button.
 */
module Orders {

  datatype Option<+T> = None | Some(value: T)

  /** One product line of an order; displayed only. */
  datatype LineItem = LineItem(name: string, quantity: int, price: real)

  /** Customer block of an order; `lastName` and `apartment` may be absent. */
  datatype CustomerDetails = CustomerDetails(
    firstName: string,
    lastName: Option<string>,
    phone: string,
    address: string,
    apartment: Option<string>,
    city: string,
    state: string,
    pincode: string)

  /** An order as the backend sends it. Only `orderId` and `orderStatus` take
      part in the page's logic; the other fields are carried along untouched. */
  datatype Order = Order(
    orderId: string,
    orderStatus: string,
    totalAmount: real,
    createdAt: string,
    updatedAt: Option<string>,
    items: seq<LineItem>,
    customerDetails: Option<CustomerDetails>,
    paymentScreenshot: Option<string>)

  /** The values offered by the status selector, in display order. */
  const StatusOptions: seq<string> :=
    ["pending", "confirmed", "processing", "shipped", "delivered", "cancelled"]

  /** No order of `orders` has id `id`. */
  predicate Absent(orders: seq<Order>, id: string)
  {
    forall i :: 0 <= i < |orders| ==> orders[i].orderId != id
  }

  /** `i` is the position of the first order of `orders` with id `id`. */
  predicate FirstWithId(orders: seq<Order>, id: string, i: nat)
  {
    i < |orders| && orders[i].orderId == id &&
    forall j :: 0 <= j < i ==> orders[j].orderId != id
  }

  /** Position of the first order with id `id`, if there is one. */
  function FindIndex(orders: seq<Order>, id: string): (r: Option<nat>)
    ensures r.None? <==> Absent(orders, id)
    ensures r.Some? ==> FirstWithId(orders, id, r.value)
  {
    if orders == [] then None
    else if orders[0].orderId == id then Some(0)
    else
      match FindIndex(orders[1..], id)
      case None => None
      case Some(k) => Some(k + 1)
  }

  /** The first order with id `id`, as `orders.find` returns it. */
  function Find(orders: seq<Order>, id: string): (r: Option<Order>)
    ensures r.None? <==> Absent(orders, id)
    ensures r.Some? ==> r.value in orders && r.value.orderId == id
    ensures r.Some? ==> exists i: nat :: FirstWithId(orders, id, i) && orders[i] == r.value
  {
    match FindIndex(orders, id)
    case None => None
    case Some(i) => Some(orders[i])
  }

  /** `orders` with the status of every order whose id is `id` replaced by `s`. */
  function ApplyStatus(orders: seq<Order>, id: string, s: string): (r: seq<Order>)
    ensures |r| == |orders|
    ensures forall i :: 0 <= i < |orders| ==>
      r[i].orderId == orders[i].orderId &&
      r[i].orderStatus == (if orders[i].orderId == id then s else orders[i].orderStatus) &&
      r[i].(orderStatus := orders[i].orderStatus) == orders[i]
  {
    if orders == [] then []
    else
      var o := orders[0];
      [if o.orderId == id then o.(orderStatus := s) else o] + ApplyStatus(orders[1..], id, s)
  }

  /** The message shown after a failed request: the server's message when it
      sent a non-empty one, the page's generic text otherwise. */
  function FailureText(message: Option<string>, fallback: string): (r: string)
    requires fallback != ""
    ensures r != ""
    ensures message.Some? && message.value != "" ==> r == message.value
    ensures r != fallback ==> message == Some(r)
  {
    if message.Some? && message.value != "" then message.value else fallback
  }

  /** The local guard of a status update: an order is selected and a status chosen. */
  predicate Submittable(currentOrder: Option<Order>, status: string)
  {
    currentOrder.Some? && status != ""
  }

  /** The update button is enabled unless a request is in flight or the chosen
      status is already the selected order's status. */
  predicate UpdateEnabled(loading: bool, status: string, current: Order)
  {
    !(loading || status == current.orderStatus)
  }

  /** Rewriting a status keeps an order that is in the list in the list, with
      the new status: the entry equal to it is rewritten to the same value. */
  lemma ApplyStatusKeepsSelection(orders: seq<Order>, c: Order, s: string)
    requires c in orders
    ensures c.(orderStatus := s) in ApplyStatus(orders, c.orderId, s)
  {
    var i :| 0 <= i < |orders| && orders[i] == c;
    assert ApplyStatus(orders, c.orderId, s)[i] == c.(orderStatus := s);
  }

  /** Rewriting statuses moves no order: every lookup finds the same position. */
  lemma {:induction false} FindIndexAfterApply(orders: seq<Order>, id: string, s: string, key: string)
    ensures FindIndex(ApplyStatus(orders, id, s), key) == FindIndex(orders, key)
  {
    if orders != [] {
      var r := ApplyStatus(orders, id, s);
      assert r[1..] == ApplyStatus(orders[1..], id, s);
      FindIndexAfterApply(orders[1..], id, s, key);
    }
  }

  /** After rewriting the status of id `id`, looking up `id` finds the same
      order with the new status, and looking up any other id finds what it
      found before. */
  lemma FindAfterApply(orders: seq<Order>, id: string, s: string, key: string)
    ensures key == id && Find(orders, key).None? ==>
      Find(ApplyStatus(orders, id, s), key).None?
    ensures key == id && Find(orders, key).Some? ==>
      Find(ApplyStatus(orders, id, s), key) == Some(Find(orders, key).value.(orderStatus := s))
    ensures key != id ==> Find(ApplyStatus(orders, id, s), key) == Find(orders, key)
  {
    FindIndexAfterApply(orders, id, s, key);
  }

  /** Rewriting an id that no order has changes nothing. */
  lemma ApplyStatusAbsent(orders: seq<Order>, id: string, s: string)
    requires Absent(orders, id)
    ensures ApplyStatus(orders, id, s) == orders
  {
    var r := ApplyStatus(orders, id, s);
    assert forall i :: 0 <= i < |orders| ==> r[i] == orders[i];
  }

  /** Rewriting the same status twice is the same as rewriting it once. */
  lemma ApplyStatusIdempotent(orders: seq<Order>, id: string, s: string)
    ensures ApplyStatus(ApplyStatus(orders, id, s), id, s) == ApplyStatus(orders, id, s)
  {
    var r := ApplyStatus(orders, id, s);
    var rr := ApplyStatus(r, id, s);
    assert forall i :: 0 <= i < |orders| ==> rr[i] == r[i];
  }

  /** Every value the selector offers passes the update's local status check. */
  lemma SelectorValuesSubmittable(o: Order, i: nat)
    requires i < |StatusOptions|
    ensures Submittable(Some(o), StatusOptions[i])
  {
  }
}
