# Token manager client state machine

A model of the token manager's single React component (`frontend/app.jsx`) in
Dafny. The component keeps three pieces of state consistent:

- an editable draft (name, symbol, initial supply),
- an edit target (none in create mode, a record's id in edit mode),
- a snapshot of the registry's records, replaced wholesale by every refresh.

The model has two layers.

- `Machine` gives each handler as a function on a `State` value. The value holds the
  snapshot, the draft, the edit target and the log of calls made to the registry
  service. The lemmas state what each handler does. An invariant (`Consistent`) holds
  in every state reachable from the mount:
  - every add, update or delete in the log is immediately followed by a list-all;
  - the snapshot is exactly the answer of the last list-all.
- `App.Controller` is the component as an object. Its fields are the component state,
  and a ghost field holds the call log. Its handler methods assign the fields in the
  order the source does. Each method is proved to make exactly the `Machine`
  transition and to keep the invariant.

Supporting modules:
- `Records`: the registry's records and the four remote calls. It also has the rule
  for the table's supply cell.
- `Form`: the draft, the one-field change and the choice of remote call on submit.
- `Decimal`: `Number(text)` on integer-valued input text, and decimal printing.

Collaborators become parameters:
- The registry service (`declarations/backend`) is seen only through the calls the
  client makes. Its answer to each list-all is a parameter named `listed`, and the
  log records that answer (`ListAll(returned)`).
- `window.confirm` is the `confirmed` parameter of `HandleDelete`.
- The mount-time effect is the constructor, which performs one refresh.

Clearing the supply input stores 0, not NaN, because `Number("")` is 0 in
JavaScript (`Machine.ClearedSupplyIsZero`).

## Model

| member | source | states |
|---|---|---|
| `Decimal.NatText` | frontend/app.jsx:119 | the decimal text of a supply is non-empty, all digits, without leading zero, and is "0" exactly for zero |
| `Decimal.ParseNatText` | frontend/app.jsx:119 | reading the printed digits of n gives back n |
| `Decimal.ToNumberIntText` | frontend/app.jsx:19-24 | `Number` applied to the decimal text of any integer gives that integer |
| `Decimal.ToNumberNatText` | frontend/app.jsx:119 | `Number` applied to a supply's decimal text gives that supply |
| `Records.RefreshedRound` | frontend/app.jsx:36-38 | appending at most one call and then a refresh to a log whose mutations are all refreshed keeps them all refreshed |
| `Records.SupplyOrZero` | frontend/app.jsx:46 | `Number(totalSupply \|\| 0)` is the supply when present (zero included) and 0 when absent |
| `Records.DisplaySupply` | frontend/app.jsx:119 | the supply cell is all digits; it is "0" exactly when the supply is absent or zero; read back, it is the supply an edit loads into the draft |
| `Form.Change` | frontend/app.jsx:19-24 | the named field takes the coerced value (supply through `Number`, text verbatim); every other field keeps its value |
| `Decimal.ToNumber` | frontend/app.jsx:23 | definition of `Number` on the supply input's text; the empty text is 0, only a leading '-' makes the value negative, plain digits give a non-negative value; round-trips given by `Decimal.ToNumberIntText` |
| `Form.FromRecord` | frontend/app.jsx:43-47 | the draft an edit starts from has the record's name and symbol verbatim and, as supply, the number its supply cell shows |
| `Form.SubmitCalls` | frontend/app.jsx:29-35 | a submit issues at most one call and it is a mutation; in edit mode it always issues one; the gate itself is given by `Machine.SubmitInCreateMode` and `Machine.SubmitInEditMode` |
| `Form.SubmitLabel` | frontend/app.jsx:100 | the submit button reads "Add Token" exactly in create mode and "Update" exactly in edit mode |
| `Machine.LoadTokens` | frontend/app.jsx:14-17 | definition of the refresh transition; keeps `Machine.Consistent`; behaviour given by `Machine.LoadReplacesSnapshot` |
| `Machine.Mount` | frontend/app.jsx:6-12 | definition of the mounted state; it satisfies `Machine.Consistent`; exact value given by `Machine.MountRefreshesOnce` |
| `Machine.HandleChange` | frontend/app.jsx:19-24 | definition of the change transition; keeps `Machine.Consistent`; behaviour given by `Machine.ChangeReplacesOneField` |
| `Machine.HandleSubmit` | frontend/app.jsx:27-39 | definition of the submit transition; keeps `Machine.Consistent`; behaviour given by `Machine.SubmitInCreateMode`, `Machine.SubmitInEditMode` and `Machine.SubmitResets` |
| `Machine.HandleEdit` | frontend/app.jsx:41-48 | definition of the edit transition; keeps `Machine.Consistent`; behaviour given by `Machine.EditEntersEditMode` |
| `Machine.HandleDelete` | frontend/app.jsx:50-55 | definition of the delete transition; keeps `Machine.Consistent`; behaviour given by `Machine.DeleteDeclined` and `Machine.DeleteConfirmed` |
| `Machine.HandleCancel` | frontend/app.jsx:57-60 | definition of the cancel transition; keeps `Machine.Consistent`; behaviour given by `Machine.CancelResets` |
| `Machine.LoadReplacesSnapshot` | frontend/app.jsx:14-17 | a refresh replaces the snapshot with exactly the list returned, logs one list-all, and leaves draft and edit target alone |
| `Machine.MountRefreshesOnce` | frontend/app.jsx:6-12 | after mount the draft is empty, the mode is create, the snapshot is the first answer, and the log holds one list-all |
| `Machine.ChangeReplacesOneField` | frontend/app.jsx:19-24 | a change replaces only the named draft field; snapshot, edit target and log are unchanged |
| `Machine.RetypingShownSupplyIsNoOp` | frontend/app.jsx:19-24 | entering the text of the current supply into the supply input leaves the whole state unchanged |
| `Machine.ClearedSupplyIsZero` | frontend/app.jsx:23 | typing the text of any integer stores that integer; clearing the input afterwards stores 0, not the previous value |
| `Machine.SubmitInCreateMode` | frontend/app.jsx:29-32 | in create mode, an add with the draft and then one list-all are logged when name and symbol are both non-empty; otherwise only the list-all |
| `Machine.SubmitInEditMode` | frontend/app.jsx:33-35 | in edit mode, exactly one update of the edit target with the whole draft is logged and then one list-all, whether or not name or symbol are empty |
| `Machine.SubmitResets` | frontend/app.jsx:36-38 | after any submit the draft is empty, the mode is create, the snapshot is the refreshed list, and the log gains at most two calls and ends with the list-all |
| `Machine.EditEntersEditMode` | frontend/app.jsx:41-48 | an edit makes the record's id the edit target and copies name and symbol verbatim; supply is taken from the record, or 0 when absent, and equals the number the supply cell shows; no call is made |
| `Machine.EditFromRowTargetsListed` | frontend/app.jsx:115-123 | an edit started from a row of the snapshot makes a listed record's id the edit target |
| `Machine.EditThenSubmit` | frontend/app.jsx:27-48 | editing a record and submitting at once logs an update of that record with its own name, symbol and supply, then a refresh, and returns to create mode with an empty draft |
| `Machine.CancelResets` | frontend/app.jsx:57-60 | a cancel empties the draft and returns to create mode without a call; it is idempotent and changes nothing in create mode with an empty draft |
| `Machine.DeleteDeclined` | frontend/app.jsx:50-55 | a declined delete leaves the whole state, the log included, unchanged |
| `Machine.DeleteConfirmed` | frontend/app.jsx:50-55 | a confirmed delete logs one delete of the id and then one list-all, replaces the snapshot, and leaves draft and edit target unchanged |
| `Machine.DeletingEditTargetDangles` | frontend/app.jsx:27-55 | deleting the record being edited keeps it as the edit target, and the next submit still updates it |
| `Machine.StepKeepsConsistent` | frontend/app.jsx:14-60 | every handler keeps the invariant: each mutation is followed by a refresh and the snapshot is the last refresh's answer |
| `Machine.RunKeepsConsistent` | frontend/app.jsx:14-60 | any sequence of handled events keeps the invariant |
| `Machine.RunExtendsLog` | frontend/app.jsx:14-60 | the call log only grows: every earlier call stays in place |
| `Machine.MountedRunConsistent` | frontend/app.jsx:10-60 | every state reachable from the mount satisfies the invariant |
| `Machine.GoldScenario` | frontend/app.jsx:10-48 | mount with one record and edit it: draft {Gold, GLD, 1000}, edit target 1, only the mount's list-all logged; then type supply 2000 and submit: exactly a list-all, an update with 2000, a list-all, and create mode with an empty draft |
| `App.Controller.constructor` | frontend/app.jsx:6-12 | the new component is the mounted state: empty draft, create mode, snapshot and log from one refresh; the invariant holds |
| `App.Controller.LoadTokens` | frontend/app.jsx:14-17 | the fields become the `Machine.LoadTokens` transition of the old fields; the invariant is kept |
| `App.Controller.HandleChange` | frontend/app.jsx:19-24 | the fields become the `Machine.HandleChange` transition of the old fields; the invariant is kept |
| `App.Controller.HandleSubmit` | frontend/app.jsx:27-39 | the fields become the `Machine.HandleSubmit` transition of the old fields; the invariant is kept |
| `App.Controller.HandleEdit` | frontend/app.jsx:41-48 | the fields become the `Machine.HandleEdit` transition of the old fields; the invariant is kept |
| `App.Controller.HandleDelete` | frontend/app.jsx:50-55 | the fields become the `Machine.HandleDelete` transition of the old fields; the invariant is kept |
| `App.Controller.HandleCancel` | frontend/app.jsx:57-60 | the fields become the `Machine.HandleCancel` transition of the old fields; the invariant is kept |

## Left out

- Markup, labels, styling and the visibility of the Cancel button (frontend/app.jsx:62-131): these are presentation. Only the submit label and the supply cell are modelled.
- The registry service's own behaviour (identity assignment, storage, validation, what add returns): its code is not part of this model. It is seen only through the logged calls and the list it returns.
- Failed remote calls: the model assumes every call completes. In the source, a rejected call stops the handler before the reset and the refresh.
- Asynchronous interleaving: overlapping submits and the unawaited refreshes at lines 38 and 53. Each handler runs to completion, so the refresh lands before the next event.
- `Decimal.ToNumber`: the supply input is `type="number"` (frontend/app.jsx:93). Unless its text is a valid floating-point number, the browser hands `Number` the empty string, which gives 0. So hexadecimal, blanks, a leading '+' and non-numeric text give 0 both in the source and in the model. What the model loses: text with a fraction or an exponent (`"1.5"`, `"1e3"`) gives 0 instead of the floating-point number, and digit strings above 2^53 give the exact integer where `Number` rounds.
- `Records.SupplyOrZero`: the value is an exact `nat`. `Number(bigint)` loses precision above 2^53, and that is not modelled.
- React mechanics (setter batching, the functional update of `setForm`, effect dependency arrays): the setters are plain field assignments. `e.preventDefault()` is not modelled.
- `Form.Change`: only the three input names of the form are modelled. An input with any other `name` would add a fourth key to the draft object.
- The edit and delete buttons exist only on the rows of the snapshot (frontend/app.jsx:115-123), so the source edits and deletes only listed records. The model's `EditClicked` and `DeleteClicked` events accept any record or id, which is wider. `Machine.EditFromRowTargetsListed` states the source's rule for an edit started from a row.
