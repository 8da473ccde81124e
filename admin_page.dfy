/**
 AdminPage: the order-admin page's state fields and the handlers that update
 them, setter by setter. The two backend calls (the list fetch and the status
 update) are replaced by an outcome parameter that says how the call settled.
 Each handler is proved against `ViewModel.Step`.
 */
module AdminPage {
  import opened Orders
  import opened ViewModel

  class AdminView {
    var orders: seq<Order>
    var currentOrder: Option<Order>
    var status: string
    var loading: bool
    var error: string

    /** The five fields as one value. */
    function State(): ViewState
      reads this
    {
      ViewState(orders, currentOrder, status, loading, error)
    }

    /** The state of a freshly mounted page. */
    constructor ()
      ensures orders == [] && currentOrder == None && status == ""
      ensures !loading && error == ""
      ensures SelectionInOrders(State()) && State() == Mounted
    {
      orders := [];
      currentOrder := None;
      status := "";
      loading := false;
      error := "";
    }

    /** The state updates of the fetch made when the page mounts. */
    method LoadOrders(outcome: FetchOutcome)
      modifies this
      ensures State() == Step(old(State()), Loaded(outcome))
      ensures currentOrder == old(currentOrder) && status == old(status) && loading == old(loading)
      ensures outcome.FetchSuccess? ==> orders == outcome.orders && error == old(error)
      ensures outcome.FetchNonSuccess? ==> orders == old(orders) && error == old(error)
      ensures outcome.FetchError? ==>
        orders == old(orders) && error == FailureText(outcome.message, FetchFallback)
      ensures old(currentOrder).None? ==> SelectionInOrders(State())
      ensures !outcome.FetchSuccess? && old(SelectionInOrders(State())) ==> SelectionInOrders(State())
    {
      match outcome {
        case FetchSuccess(fetched) =>
          orders := fetched;
        case FetchNonSuccess =>
        case FetchError(message) =>
          error := FailureText(message, FetchFallback);
      }
    }

    /** Selects the first listed order with id `id`; does nothing when no order has it. */
    method SelectOrder(id: string)
      modifies this
      ensures State() == Step(old(State()), Selected(id))
      ensures orders == old(orders) && loading == old(loading)
      ensures Absent(orders, id) ==>
        currentOrder == old(currentOrder) && status == old(status) && error == old(error)
      ensures !Absent(orders, id) ==>
        currentOrder == Find(orders, id) && status == currentOrder.value.orderStatus && error == ""
      ensures !Absent(orders, id) ==> !UpdateEnabled(loading, status, currentOrder.value)
      ensures !Absent(orders, id) || old(SelectionInOrders(State())) ==> SelectionInOrders(State())
    {
      var selected := Find(orders, id);
      if selected.Some? {
        currentOrder := selected;
        status := selected.value.orderStatus;
        error := "";
      }
    }

    /** The selector's change handler: any string becomes the chosen status. */
    method SetStatus(v: string)
      modifies this
      ensures State() == Step(old(State()), StatusChosen(v))
      ensures status == v
      ensures orders == old(orders) && currentOrder == old(currentOrder)
      ensures loading == old(loading) && error == old(error)
      ensures currentOrder.Some? ==>
        (UpdateEnabled(loading, status, currentOrder.value) <==>
         !loading && v != currentOrder.value.orderStatus)
      ensures old(SelectionInOrders(State())) ==> SelectionInOrders(State())
    {
      status := v;
    }

    /** Sends the chosen status for the selected order and applies the answer.
        `request` is the update request sent, or None when the local guard
        refused and nothing was sent; `outcome` is ignored in that case. */
    method UpdateStatus(outcome: UpdateOutcome) returns (request: Option<StatusRequest>)
      modifies this
      ensures State() == Step(old(State()), UpdateSubmitted(outcome))
      ensures request == Request(old(State()))
      ensures request.None? <==> !Submittable(old(currentOrder), old(status))
      ensures status == old(status)
      ensures request.None? ==>
        orders == old(orders) && currentOrder == old(currentOrder) &&
        loading == old(loading) && error == NoSelectionError
      ensures request.Some? ==> !loading
      ensures request.Some? && outcome.UpdateSuccess? ==>
        orders == ApplyStatus(old(orders), old(currentOrder).value.orderId, status) &&
        currentOrder == Some(old(currentOrder).value.(orderStatus := status)) &&
        error == ""
      ensures request.Some? && outcome.UpdateSuccess? ==>
        !UpdateEnabled(loading, status, currentOrder.value)
      ensures request.Some? && outcome.UpdateNonSuccess? ==>
        orders == old(orders) && currentOrder == old(currentOrder) && error == ""
      ensures request.Some? && outcome.UpdateError? ==>
        orders == old(orders) && currentOrder == old(currentOrder) &&
        error == FailureText(outcome.message, UpdateFallback)
      ensures old(SelectionInOrders(State())) ==> SelectionInOrders(State())
    {
      ghost var before := State();
      if !Submittable(currentOrder, status) {
        error := NoSelectionError;
        return None;
      }
      loading := true;
      error := "";
      var selected := currentOrder.value;
      request := Some(StatusRequest(selected.orderId, status));
      match outcome {
        case UpdateSuccess =>
          orders := ApplyStatus(orders, selected.orderId, status);
          currentOrder := Some(selected.(orderStatus := status));
        case UpdateNonSuccess =>
        case UpdateError(message) =>
          error := FailureText(message, UpdateFallback);
      }
      loading := false;
      if SelectionInOrders(before) {
        StepKeepsSelection(before, UpdateSubmitted(outcome));
      }
    }
  }
}
