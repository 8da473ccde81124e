/**
 ViewModel: the admin page's view state as a value, the net effect of each
 transition on it, and what holds along every run of the page. The class
 `AdminPage.AdminView` performs these transitions step by step on its fields;
 `Step` is the specification each of its methods is proved against.
 */
module ViewModel {
  import opened Orders

  /** How the list fetch settled: a response with `success` set and its
      orders, a response without `success`, or an exception that may carry a
      message from the server. */
  datatype FetchOutcome =
    | FetchSuccess(orders: seq<Order>)
    | FetchNonSuccess
    | FetchError(message: Option<string>)

  /** How the status update settled, with the same three cases. */
  datatype UpdateOutcome =
    | UpdateSuccess
    | UpdateNonSuccess
    | UpdateError(message: Option<string>)

  /** The update request the page sends: the order it names and the body's status. */
  datatype StatusRequest = StatusRequest(orderId: string, orderStatus: string)

  const FetchFallback: string := "Failed to fetch orders."
  const UpdateFallback: string := "Failed to update order status."
  const NoSelectionError: string := "No order selected or invalid status."

  /** The five state fields of the page. */
  datatype ViewState = ViewState(
    orders: seq<Order>,
    currentOrder: Option<Order>,
    status: string,
    loading: bool,
    error: string)

  /** Something that changes the state: the mount fetch settling, a click on
      an order card, a choice in the status selector, a click on the update
      button whose request settled with the given outcome. */
  datatype Event =
    | Loaded(fetch: FetchOutcome)
    | Selected(id: string)
    | StatusChosen(value: string)
    | UpdateSubmitted(update: UpdateOutcome)

  /** The state of a freshly mounted page. */
  const Mounted: ViewState := ViewState([], None, "", false, "")

  /** The selected order, if any, is one of the listed orders. */
  predicate SelectionInOrders(st: ViewState)
  {
    st.currentOrder.Some? ==> st.currentOrder.value in st.orders
  }

  /** The update request a click on the button sends from `st`, if its local
      guard lets it through. */
  function Request(st: ViewState): (r: Option<StatusRequest>)
    ensures r.Some? <==> Submittable(st.currentOrder, st.status)
    ensures r.Some? ==> r.value.orderId == st.currentOrder.value.orderId && r.value.orderStatus == st.status
  {
    if Submittable(st.currentOrder, st.status)
    then Some(StatusRequest(st.currentOrder.value.orderId, st.status))
    else None
  }

  /** The state after `e`, once every setter it calls has run. */
  function Step(st: ViewState, e: Event): ViewState
  {
    match e
    case Loaded(fetch) =>
      (match fetch
       case FetchSuccess(os) => st.(orders := os)
       case FetchNonSuccess => st
       case FetchError(m) => st.(error := FailureText(m, FetchFallback)))
    case Selected(id) =>
      (match Find(st.orders, id)
       case None => st
       case Some(o) => st.(currentOrder := Some(o), status := o.orderStatus, error := ""))
    case StatusChosen(v) => st.(status := v)
    case UpdateSubmitted(update) =>
      if !Submittable(st.currentOrder, st.status) then st.(error := NoSelectionError)
      else
        var c := st.currentOrder.value;
        (match update
         case UpdateSuccess =>
           st.(orders := ApplyStatus(st.orders, c.orderId, st.status),
               currentOrder := Some(c.(orderStatus := st.status)),
               loading := false, error := "")
         case UpdateNonSuccess => st.(loading := false, error := "")
         case UpdateError(m) => st.(loading := false, error := FailureText(m, UpdateFallback)))
  }

  /** The state after the events of `events`, in order. */
  function Run(st: ViewState, events: seq<Event>): ViewState
    decreases |events|
  {
    if events == [] then st else Run(Step(st, events[0]), events[1..])
  }

  /** `e` is a successful list fetch, the only event that replaces `orders`. */
  predicate IsListReplace(e: Event)
  {
    e.Loaded? && e.fetch.FetchSuccess?
  }

  /** How many successful list fetches `events` holds. */
  function ListReplaces(events: seq<Event>): nat
  {
    if events == [] then 0
    else (if IsListReplace(events[0]) then 1 else 0) + ListReplaces(events[1..])
  }

  /** The ids of `orders`, in list order. */
  function Ids(orders: seq<Order>): (r: seq<string>)
    ensures |r| == |orders|
  {
    if orders == [] then [] else [orders[0].orderId] + Ids(orders[1..])
  }

  /** Every event but a successful list fetch keeps the selection in the list. */
  lemma StepKeepsSelection(st: ViewState, e: Event)
    requires SelectionInOrders(st)
    requires IsListReplace(e) ==> st.currentOrder.None?
    ensures SelectionInOrders(Step(st, e))
  {
    if e.UpdateSubmitted? && Submittable(st.currentOrder, st.status) && e.update.UpdateSuccess? {
      ApplyStatusKeepsSelection(st.orders, st.currentOrder.value, st.status);
    }
  }

  /** Between events nothing is in flight: every event leaves `loading` as it
      found it or clears it. */
  lemma StepIdle(st: ViewState, e: Event)
    requires !st.loading
    ensures !Step(st, e).loading
  {
  }

  /** Before the list arrives nothing can be selected: on an empty list with no
      selection, every event but a successful fetch keeps both so. */
  lemma StepBeforeLoad(st: ViewState, e: Event)
    requires st.orders == [] && st.currentOrder.None?
    requires !IsListReplace(e)
    ensures Step(st, e).orders == [] && Step(st, e).currentOrder.None?
  {
  }

  /** Rewriting statuses keeps the list's ids in place. */
  lemma {:induction false} ApplyStatusKeepsIds(orders: seq<Order>, id: string, s: string)
    ensures Ids(ApplyStatus(orders, id, s)) == Ids(orders)
  {
    if orders != [] {
      var r := ApplyStatus(orders, id, s);
      assert r[1..] == ApplyStatus(orders[1..], id, s);
      ApplyStatusKeepsIds(orders[1..], id, s);
    }
  }

  /** Along a run that fetches the list at most once (the page fetches once,
      at mount), every state keeps the selection in the list and nothing in
      flight, provided the run starts from such a state, and from an empty,
      unselected one when it does fetch. */
  lemma {:induction false} RunKeepsSelection(st: ViewState, events: seq<Event>)
    requires SelectionInOrders(st) && !st.loading
    requires ListReplaces(events) <= 1
    requires ListReplaces(events) == 1 ==> st.orders == [] && st.currentOrder.None?
    ensures SelectionInOrders(Run(st, events)) && !Run(st, events).loading
    decreases |events|
  {
    if events != [] {
      var e := events[0];
      StepKeepsSelection(st, e);
      StepIdle(st, e);
      if !IsListReplace(e) && ListReplaces(events) == 1 {
        StepBeforeLoad(st, e);
      }
      RunKeepsSelection(Step(st, e), events[1..]);
    }
  }

  /** Every state the page reaches from mount with its one list fetch has the
      selection in the list and no request in flight. */
  lemma MountedRunsKeepSelection(events: seq<Event>)
    requires ListReplaces(events) <= 1
    ensures SelectionInOrders(Run(Mounted, events)) && !Run(Mounted, events).loading
  {
    RunKeepsSelection(Mounted, events);
  }

  /** The page never adds, removes or reorders orders: without a list fetch,
      the ids of the list stay the same along a run. */
  lemma {:induction false} RunKeepsIds(st: ViewState, events: seq<Event>)
    requires ListReplaces(events) == 0
    ensures Ids(Run(st, events).orders) == Ids(st.orders)
    decreases |events|
  {
    if events != [] {
      var e := events[0];
      if e.UpdateSubmitted? && Submittable(st.currentOrder, st.status) && e.update.UpdateSuccess? {
        ApplyStatusKeepsIds(st.orders, st.currentOrder.value.orderId, st.status);
      }
      RunKeepsIds(Step(st, e), events[1..]);
    }
  }

  /** Selecting a listed id, choosing a non-empty status `s` and submitting an
      update that succeeds sends the request for the first order with that id.
      Afterwards list and selection agree on `s`, selecting the id again finds
      the selection, nothing is in flight, no error is shown and the button is
      disabled. */
  lemma SelectChooseUpdate(st: ViewState, id: string, s: string)
    requires !Absent(st.orders, id) && s != ""
    ensures var picked := Step(Step(st, Selected(id)), StatusChosen(s));
      Request(picked) == Some(StatusRequest(id, s))
    ensures var after := Run(st, [Selected(id), StatusChosen(s), UpdateSubmitted(UpdateSuccess)]);
      && after.currentOrder == Some(Find(st.orders, id).value.(orderStatus := s))
      && after.orders == ApplyStatus(st.orders, id, s)
      && Find(after.orders, id) == after.currentOrder
      && !after.loading && after.error == ""
      && !UpdateEnabled(after.loading, after.status, after.currentOrder.value)
  {
    var events := [Selected(id), StatusChosen(s), UpdateSubmitted(UpdateSuccess)];
    var st1 := Step(st, events[0]);
    var st2 := Step(st1, events[1]);
    assert events[1..][1..] == [events[2]];
    assert Run(st2, [events[2]]) == Step(st2, events[2]);
    assert Run(st1, events[1..]) == Run(st2, [events[2]]);
    assert Run(st, events) == Step(st2, events[2]);
    FindAfterApply(st.orders, id, s, id);
  }
}
