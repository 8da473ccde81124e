# Order-admin page: view-state model

This project models the state machine underneath the `AdminPage` React
component of the crispii admin front end. The page lists the shop's orders,
lets an operator select one and change its status. Its state is five fields:

- `orders`: the list the backend returned;
- `currentOrder`: the selected order, if any;
- `status`: the value chosen in the status selector;
- `loading`: true while an update request is in flight;
- `error`: the message shown under the update button, empty when none.

Four transitions change this state: the fetch made when the page mounts,
selecting an order, choosing a status, and submitting the status update. The
update button's enable rule is a function of the state.

- `orders.dfy` (module `Orders`) holds the order values and the pure
  computations. These are the lookup `orders.find`, the status rewrite
  `orders.map`, the `message || fallback` choice of error text, the update's
  local guard and the button rule. It also holds the lemmas about them.
- `view_model.dfy` (module `ViewModel`) holds the five fields as one value
  and `Step`, the net effect of each transition on that value. `Run` folds
  `Step` over a sequence of events. The lemmas here are about every run of the
  page.
- `admin_page.dfy` (module `AdminPage`) holds the class `AdminView`. Its
  fields are the five state fields, and each handler is a method that updates
  them in the order the component's setters do. Each method is proved to
  produce `Step` of the old state, and its contract also spells out the new
  value of every field.

The backend is not modelled. Each call is replaced by a parameter that says
how it settled: a response with `success` set, a response without it, or an
exception that may carry a server message. `UpdateStatus` returns the update
request it sent (the order id and the new status), or `None` when its local
guard refused and nothing was sent.

The main invariant is `SelectionInOrders`: the selected order, if any, is an
element of `orders`. Every transition but a successful list fetch preserves
it. The fetch preserves it when nothing is selected yet. The component fetches
once, at mount, and before that fetch the list is empty, so nothing can be
selected. Hence every state reached from mount satisfies the invariant, and
no request is in flight in it (`ViewModel.MountedRunsKeepSelection`). It also
holds with duplicate ids, because the list entry equal to the selection is
rewritten to the same new value as the selection
(`Orders.ApplyStatusKeepsSelection`).

Three behaviours of the code are easy to misread. The model follows the code:
- A fetch response without `success` sets no error and changes nothing
  (src/Components/AdminPage.jsx:28). Only an exception surfaces an error.
- A failed fetch leaves `orders` as they were. The list is empty after it only
  because the fetch runs at mount, while the list is still empty.
- An update response without `success` (and no exception) leaves no error.
  Only the cleared `error` and the reset `loading` remain
  (src/Components/AdminPage.jsx:57, 65, 79).

Other points where the model follows the code:
- `updateStatus` itself does not refuse a call while `loading` is true, or when
  `status` equals the order's status. Only the button's `disabled` does.
- `status` is any string. Only the selector limits it to the six values of
  `Orders.StatusOptions`.
- An empty server message counts as absent (JavaScript `||`), so the generic
  text is shown instead.

## Model

| member | source | states |
|---|---|---|
| `Orders.FindIndex` | src/Components/AdminPage.jsx:41 | the position of the first order with the id; none exactly when no order has it |
| `Orders.Find` | src/Components/AdminPage.jsx:41 | `orders.find`: none exactly when no order has the id; otherwise an element of the list with that id, with no earlier entry carrying it |
| `Orders.ApplyStatus` | src/Components/AdminPage.jsx:67-69 | same length and order; each entry keeps its id; entries with the id get the new status, all others keep theirs; no other field changes |
| `Orders.FailureText` | src/Components/AdminPage.jsx:76 | the shown error is never empty; it is the server message when one is present and non-empty; otherwise it is the generic text |
| `Orders.ApplyStatusKeepsSelection` | src/Components/AdminPage.jsx:67-71 | a listed order, with its status replaced, is in the rewritten list, so the selection stays in sync with the list |
| `Orders.FindIndexAfterApply` | src/Components/AdminPage.jsx:67-69 | the rewrite moves no order: a lookup of any id finds the same position before and after |
| `Orders.FindAfterApply` | src/Components/AdminPage.jsx:67-69 | after the rewrite, selecting the rewritten id yields the same first order with the new status; selecting any other id yields what it did before |
| `Orders.ApplyStatusAbsent` | src/Components/AdminPage.jsx:67-69 | rewriting an id no entry has leaves the list unchanged |
| `Orders.ApplyStatusIdempotent` | src/Components/AdminPage.jsx:67-69 | rewriting the same status twice equals rewriting it once |
| `Orders.SelectorValuesSubmittable` | src/Components/AdminPage.jsx:14-21 | every value the selector offers passes the update's local status check |
| `ViewModel.Request` | src/Components/AdminPage.jsx:51-63 | a click sends a request exactly when an order is selected and the chosen status is non-empty; the request names the selected order's id and carries the chosen status |
| `ViewModel.StepKeepsSelection` | src/Components/AdminPage.jsx:40-80 | every transition but a successful list fetch keeps the selection in the list, and that fetch keeps it when nothing is selected |
| `ViewModel.StepIdle` | src/Components/AdminPage.jsx:50-80 | no transition leaves a request in flight: `loading` is false after every one that found it false |
| `ViewModel.StepBeforeLoad` | src/Components/AdminPage.jsx:40-54 | with an empty list and no selection, every transition but a successful fetch keeps the list empty and nothing selected |
| `ViewModel.ApplyStatusKeepsIds` | src/Components/AdminPage.jsx:67-69 | the status rewrite keeps the list's ids in the same order |
| `ViewModel.RunKeepsSelection` | src/Components/AdminPage.jsx:24-80 | along any run with at most one successful list fetch, started from a state with the invariant and nothing in flight, and from an empty list when it fetches, the invariant holds and nothing is in flight at the end |
| `ViewModel.MountedRunsKeepSelection` | src/Components/AdminPage.jsx:8-80 | every state reached from mount with the one list fetch has the selection in the list and no request in flight |
| `ViewModel.RunKeepsIds` | src/Components/AdminPage.jsx:67-70 | the page never adds, removes or reorders orders: with no list fetch, the ids of the list are the same after any run |
| `ViewModel.SelectChooseUpdate` | src/Components/AdminPage.jsx:40-80 | selecting a listed id, choosing a non-empty status and a successful update send the request for that id and status. Afterwards list entry and selection both carry the new status, re-selecting finds the selection, `loading` is false, no error is set and the button is disabled |
| `AdminPage.AdminView.constructor` | src/Components/AdminPage.jsx:8-12 | initial state: no orders, no selection, empty status, not loading, no error |
| `AdminPage.AdminView.LoadOrders` | src/Components/AdminPage.jsx:24-37 | a successful fetch replaces `orders` wholesale. A non-success response changes nothing. An exception keeps `orders` and sets the server message or "Failed to fetch orders.". Selection, status and loading never change. The invariant holds afterwards when nothing was selected |
| `AdminPage.AdminView.SelectOrder` | src/Components/AdminPage.jsx:40-47 | an id no order has changes nothing. Otherwise the selection becomes the first order with the id, `status` becomes its status and `error` is cleared. `orders` and `loading` never change. Afterwards the button is disabled and the invariant holds |
| `AdminPage.AdminView.SetStatus` | src/Components/AdminPage.jsx:183-192 | `status` becomes the value and nothing else changes; with an order selected, the button is enabled exactly when not loading and the value differs from the order's status |
| `AdminPage.AdminView.UpdateStatus` | src/Components/AdminPage.jsx:50-80 | a request is sent exactly when an order is selected and `status` is non-empty. When refused, only `error` changes, to "No order selected or invalid status.". When sent, the request names the selected order's id and `status`, and `loading` ends false. On success the list entries with that id and the selection get the new status, `error` is empty and the button is disabled. On a non-success response nothing changes but `error` is empty. On an exception, list and selection keep their values and `error` is the server message or "Failed to update order status.". `status` never changes. The invariant is preserved |

## Left out

- The HTTP layer: the GET and PUT calls, `BASE_API_URL` and the response
  shapes are replaced by the outcome parameters. The request `UpdateStatus`
  sends is returned as a value.
- Asynchrony and React scheduling. Each transition runs to completion before
  the next one starts, so `loading` is true only inside `UpdateStatus`. The
  model does not capture stale closures or a fetch settling after unmount.
- All rendering. This covers the order cards, the detail panel, the customer
  block fallbacks, the busy label and the error paragraph. It also covers
  CSS, `alert` and `console.error`.
- Date formatting with `toLocaleDateString` and `toLocaleString`. It is locale
  dependent library behaviour.
- The payment image's placeholder swap on load error. It is browser image
  loading.
- `totalAmount` and `price`. They are carried in the order values but never
  computed with, because the page only displays them.
- The human labels of the status options. They carry no behaviour.
- `AdminPage.AdminView.LoadOrders`: a fetch that succeeds after an order was
  selected may drop the selection out of `orders`, so the invariant is only
  promised when nothing was selected. The component fetches once, at mount,
  while the list is still empty and nothing can be selected.
