# API record store of the API management console

The console keeps a list of API definitions in the state of its root
component (`src/App.tsx`). This project models that store and the small
form controller around it:

- `types.dfy` (module `ApiTypes`): the `API` record, its method and status
  enumerations (with the string literals the source uses), the values the
  form submits, and the menu item. Dafny reserves `method` and `label`, so
  those fields are called `httpMethod` and `caption`.
- `text.dfy` (module `Text`): lower-casing and the substring test of
  JavaScript's `includes`, on which the search filter rests.
- `records.dfy` (module `ApiRecords`): the pure record transformations the
  handlers perform — the search filter, create (append), update by id and
  publish by id — plus the breadcrumb lookup, and lemmas about them: the
  exact membership of the filtered view, order and length preservation,
  "nothing else changes", the idempotence of publish, and that no sequence
  of operations removes a record or turns `published` back into `draft`.
- `app.dfy` (module `AppState`): class `App` with the component's state
  fields `apis`, `searchQuery`, `formVisible`, `editingApi` and
  `selectedMenu`, one method per handler, and the submit dispatch (update
  when a record is being edited, create otherwise). `Valid()` says that a
  record is only being edited while the form is open; every handler reached
  from the UI keeps it.

Clock readings (`Date.now()`, `new Date().toISOString()`) become `nat`
parameters, and the generated id becomes a `string` parameter. The model
follows the code; in particular:

- Create reads the clock twice, so the model does not promise
  `createdAt == updatedAt`; the id is the current time as a string, so it
  does not promise that ids are unique either.
- Update and publish set `updatedAt` to a new clock reading; nothing
  orders it after the previous one, so no timestamp ordering is claimed.
- Publishing an already published record sets the status again and moves
  `updatedAt` (the code has no "already published" branch); update of an
  id that no record has leaves the list unchanged without signalling it.
- Update and publish change every record carrying the id, not just one.

## Model

| member | source | states |
|---|---|---|
| `ApiTypes.ParseMethod` | src/types.ts:6 | a string is a method iff it is one of "GET", "POST", "PUT", "DELETE", and the parsed method prints back as that string |
| `ApiTypes.MethodNameRoundTrip` | src/types.ts:6 | each of the four methods survives printing and parsing |
| `ApiTypes.ParseStatus` | src/types.ts:7 | a string is a status iff it is "draft" or "published", and the parsed status prints back as that string |
| `ApiTypes.StatusNameRoundTrip` | src/types.ts:7 | each of the two statuses survives printing and parsing |
| `Text.LowerChar` | src/App.tsx:40-41 | the result is never an upper-case letter; an upper-case letter maps to the lower-case letter at the same alphabet position, every other character to itself |
| `Text.Lower` | src/App.tsx:40-41 | lower-casing keeps the length and lower-cases each character in place |
| `Text.LowerIdempotent` | src/App.tsx:40-41 | lower-casing twice is lower-casing once, so the already lower-cased query is looked up unchanged |
| `Text.Includes` | src/App.tsx:40-41 | the substring test holds iff the needle occurs at some index of the haystack |
| `Text.IncludesEmpty` | src/App.tsx:39-42 | the empty query occurs in every string |
| `Text.IncludesSelf` | src/App.tsx:39-42 | every string contains itself |
| `Text.NotIncludes` | src/App.tsx:39-42 | a needle whose first character is absent from the haystack does not occur in it |
| `Text.LowerExcludes` | src/App.tsx:40-41 | a letter absent from a string in both cases is absent from its lower-cased form |
| `ApiRecords.Filter` | src/App.tsx:39-42 | the view is never longer than the store and every record in it matches the query |
| `ApiRecords.FilterCount` | src/App.tsx:39-42 | a matching record appears in the view exactly as often as in the store; a non-matching one never |
| `ApiRecords.FilterMembership` | src/App.tsx:39-42 | a record is in the view iff it is in the store and the lower-cased query occurs in its lower-cased name or business |
| `ApiRecords.FilterKeepsOrder` | src/App.tsx:39-42 | the view is a subsequence of the store: store order is kept |
| `ApiRecords.FilterEmptyQuery` | src/App.tsx:30 | the initial empty query shows the whole store unchanged |
| `ApiRecords.FilterIgnoresQueryCase` | src/App.tsx:39-42 | two queries equal up to case give the same view |
| `ApiRecords.FilterLowerQuery` | src/App.tsx:40-41 | lower-casing the query beforehand does not change the view |
| `ApiRecords.NewRecord` | src/App.tsx:45-51 | the created record carries the submitted form fields, the generated id, status draft and the two clock readings, whatever the input |
| `ApiRecords.Create` | src/App.tsx:53 | create returns the old list with exactly one record appended: every earlier record unchanged in place, the new one draft with the submitted fields |
| `ApiRecords.Update` | src/App.tsx:66-70 | length and order kept; records with another id unchanged; every record with the id takes the submitted fields and update time and keeps id, status and creation time |
| `ApiRecords.UpdateAbsentId` | src/App.tsx:66-70 | updating an id no record has leaves the list identical |
| `ApiRecords.Publish` | src/App.tsx:79-83 | length and order kept; records with another id unchanged; every record with the id becomes published with the new update time and keeps its other fields |
| `ApiRecords.PublishTwice` | src/App.tsx:79-83 | publishing twice equals publishing once at the later time, so the status stays published |
| `ApiRecords.PublishAbsentId` | src/App.tsx:79-83 | publishing an id no record has leaves the list identical |
| `ApiRecords.ApplyNeverReverts` | src/App.tsx:44-87 | each of create, update and publish keeps every record in place with its id and creation time and never unpublishes |
| `ApiRecords.RunNeverReverts` | src/App.tsx:44-87 | no sequence of operations removes or moves a record, changes its id or creation time, or turns published back into draft |
| `ApiRecords.RunLength` | src/App.tsx:44-87 | after any sequence of operations the store has grown by exactly the number of creates |
| `ApiRecords.FindByKey` | src/App.tsx:94 | the lookup finds nothing iff no item has the key; otherwise it returns the first item with that key |
| `ApiRecords.Breadcrumb` | src/App.tsx:93-99 | the trail is "Home" then the label of the first item with the selected key, or "Unknown" when there is none or that label is empty |
| `ApiRecords.MenuBreadcrumbs` | src/App.tsx:19-26 | each of the six menu entries shows its own label |
| `ApiRecords.UnknownBreadcrumb` | src/App.tsx:97 | a key that is not on the menu shows "Unknown" |
| `AppState.App.constructor` | src/App.tsx:29-33 | the initial state: no records, empty query, form hidden, nothing being edited, page "apis" |
| `AppState.App.FilteredApis` | src/App.tsx:39-42 | a record is shown iff it is in the store and matches the query, each as often as in the store; the view keeps store order, and shows all records while the query is empty |
| `AppState.App.CurrentBreadcrumb` | src/App.tsx:93-99 | the breadcrumb is "Home" then the label of the selected menu entry, or "Unknown" for a key not on the menu |
| `AppState.App.HandleSearch` | src/App.tsx:35-37 | the search sets the query and changes nothing else |
| `AppState.App.SelectMenu` | src/App.tsx:158 | a menu click selects the page and changes nothing else |
| `AppState.App.OpenForm` | src/App.tsx:116 | the "New API" button shows the form and changes nothing else |
| `AppState.App.HandleCreate` | src/App.tsx:44-56 | create appends the new record and hides the form; the edited record and the rest are untouched |
| `AppState.App.HandleEdit` | src/App.tsx:58-61 | edit remembers the record and shows the form |
| `AppState.App.HandleUpdate` | src/App.tsx:63-76 | with nothing being edited nothing changes, in particular while the form is hidden; otherwise the records with the edited id are updated, the form is hidden and the edited record forgotten |
| `AppState.App.HandlePublish` | src/App.tsx:78-87 | publish applies to the store only; form and query untouched; nothing is unpublished |
| `AppState.App.Cancel` | src/App.tsx:174-177 | cancel hides the form and forgets the edited record, leaving the store alone |
| `AppState.App.Submit` | src/App.tsx:178 | submit is an update iff a record is being edited and a create otherwise; afterwards the form is hidden and nothing is being edited |
| `AppState.MissedByFirstChar` | src/App.tsx:39-42 | a query whose first letter occurs in neither the name nor the business does not match |
| `AppState.CheckoutFound` | src/App.tsx:39-42 | the query "checkout" matches a record of business "Checkout" |
| `AppState.NoLetterB` | src/App.tsx:40-41 | "Orders API" and "Checkout" lower-case to strings without the letter b |
| `AppState.BillingMissed` | src/App.tsx:39-42 | the query "billing" does not match the record "Orders API" of business "Checkout" |
| `AppState.OrdersWalkthrough` | src/App.tsx:44-87 | creating "Orders API" and publishing it leaves one published record that the query "checkout" shows and "billing" does not |

## Left out

- Rendering: the layout, menu, search box, table, modal and icons, and the
  table's tag colours, upper-cased status, publish button label and
  pagination are presentation only.
- Success toasts and the `console.log` of the view action are side effects
  with no state.
- Form validation (required fields, the method select) runs inside the UI
  library's `validateFields`; the model takes the submitted values to be
  the four validated form fields. The record type allows any subset of
  record fields there, but the form only ever submits these four.
- The table's name sorter uses locale-aware comparison from the browser and
  is not modelled; the table's rule that disables the publish button for a
  published record is presentation, and publish itself has no such guard.
- Menu icons are not modelled; a menu item is its key and its label.
- Text.Lower: lower-cases ASCII letters only, not full Unicode case mapping.
- AppState.App.HandleCreate: does not promise `Valid()` on its own, because
  it leaves a record being edited in place while hiding the form; only
  `Submit` calls it, and only when nothing is being edited.
- Timestamps are clock readings given as parameters, not ISO strings, and
  ids are parameters, not `Date.now()` strings.
