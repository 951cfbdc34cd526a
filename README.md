# User Management Dashboard: controller model

A Dafny model of the dashboard controller of the User Management Dashboard,
the React component `App` in `src/App.js`. The component keeps one state
object: the loaded user list, the four form fields (first name, last name,
email, department), an error message, the page cursor and page size, the id
of the user being edited, and a loading flag. Its event handlers fetch a page
of users, add a user, enter edit mode, update the edited user, delete a user,
page forward and back, and bind the form inputs.

Files:

- `records.dfy`, module `UserRecords`: the `User` record, the form `Draft`,
  the presence check, and the pure list transforms the handlers apply
  (`ReplaceById`, the `map` of an update; `RemoveById`, the `filter` of a
  delete) with lemmas about them.
- `paging.dfy`, module `Paging`: the page cursor arithmetic of the next and
  previous buttons, and the page reached after any run of presses.
- `dashboard.dfy`, module `Dashboard`: the component as a class `App` with one
  field per state key and one method per handler.

Network calls are not made by the model. A handler that talks to the server
is split in two methods: the step that runs when the user acts (it validates
and returns the `Request` it would send, or `None`) and the step that runs
when the response settles, which takes the server's answer as an
`Outcome<T> = Ok(T) | Err` parameter. The create response is an arbitrary
`User`, the fetch response an arbitrary `seq<User>`. The id captured when an
update is submitted is carried by the `Update` request and passed to
`UpdateSettled`; the deleted id is passed to `DeleteSettled`. The client-side
uuid of a new user is a `clientId` parameter; it appears only in the body of
the create request, since the stored record is the server's response.

The form submits as an update when the editing id is truthy. Ids are strings
here, so edit mode means "an id is set and it is not the empty string"
(`InEditMode`); entering edit mode on a user whose id is `""` makes the form
submit it as a new user, as `EditThenSubmit` states.

Three behaviours of the code are worth stating:

- A successful fetch and a successful delete leave the error message as it
  was; only a successful add or update clears it.
- A successful update replaces every listed user with the captured id, not a
  single one, and a successful delete removes every such user.
- A successful add appends the server's record whatever its id, so the list
  may hold two users with one id if the server reuses ids.

## Model

| member | source | states |
|---|---|---|
| `UserRecords.SetField` | src/App.js:133-135 | the edited field takes the new value and every other field keeps its value |
| `UserRecords.IsComplete` | src/App.js:40-43 | a draft passes the presence check exactly when none of its four fields is the empty string |
| `UserRecords.WithId` | src/App.js:45-51 | the record a submission sends carries the given id and, field by field, the draft's four values |
| `UserRecords.DraftOf` | src/App.js:67-75 | the draft copied from a user, sent back under the user's id, is exactly that user |
| `UserRecords.ReplaceById` | src/App.js:95-97 | the list after an update has the length of the list before it |
| `UserRecords.ReplaceByIdAt` | src/App.js:95-97 | at each position the result is the response record if the old user there had the id, else the old user |
| `UserRecords.ReplaceByIdPointwise` | src/App.js:95-97 | same length; every position whose user had the id now holds the response; every other position is unchanged |
| `UserRecords.ReplaceByIdUnchangedIff` | src/App.js:95-97 | the update leaves the list unchanged if and only if every user with that id already equals the response |
| `UserRecords.ReplaceByIdIdempotent` | src/App.js:95-97 | applying the same update response twice gives the same list as applying it once |
| `UserRecords.EditEchoIsNoOp` | src/App.js:67-97 | with unique ids, editing a listed user and submitting unchanged, answered with the request body, leaves the list as it was |
| `UserRecords.RemoveById` | src/App.js:113 | the list after a delete is no longer than before, and each remaining user was in the list and has a different id |
| `UserRecords.RemoveByIdAppend` | src/App.js:113 | removal distributes over concatenation, so survivors keep their relative order |
| `UserRecords.RemoveByIdSingleton` | src/App.js:113 | a single user is kept exactly when its id differs from the deleted one |
| `UserRecords.RemoveByIdCount` | src/App.js:113 | a user with the deleted id occurs zero times afterwards; any other user occurs as often as before |
| `UserRecords.RemoveByIdUnchangedIff` | src/App.js:113 | the delete leaves the list unchanged if and only if no listed user has that id |
| `UserRecords.RemoveByIdIdempotent` | src/App.js:113 | deleting the same id a second time changes nothing |
| `Paging.Next` | src/App.js:119-124 | the next page is strictly later than the current one, so a valid page stays valid |
| `Paging.Prev` | src/App.js:126-131 | the previous page is never below 1, is 1 from page 1, and is one back from any later page |
| `Paging.PrevUndoesNext` | src/App.js:119-131 | going back after going forward returns to the starting page |
| `Paging.PageAfter` | src/App.js:119-131 | from a valid page, every run of next and previous presses ends on a page of at least 1 |
| `Paging.PrevRepeated` | src/App.js:126-131 | n presses of previous from page p end on max(p - n, 1), so pressing at page 1 stays at page 1 |
| `Paging.NextRepeated` | src/App.js:119-124 | n presses of next from page p end on page p + n |
| `Dashboard.InEditMode` | src/App.js:146 | the editing id is falsy when unset or the empty string, and truthy for any other string |
| `Dashboard.App.constructor` | src/App.js:11-22 | initial state: empty list and form, no error, page 1, page size 5, add mode, not loading |
| `Dashboard.App.Mount` | src/App.js:24-26 | mounting raises the loading flag and requests the current page |
| `Dashboard.App.FetchUsers` | src/App.js:28-31 | a fetch raises the loading flag and requests the current page at the current page size, changing nothing else |
| `Dashboard.App.FetchSettled` | src/App.js:32-33 | success replaces the list wholesale and keeps the error; failure keeps the list and sets the fetch error; loading ends either way |
| `Dashboard.App.AddUser` | src/App.js:36-53 | an empty field sets the required-fields error and sends nothing; otherwise the draft is sent under the client id; nothing else changes |
| `Dashboard.App.AddSettled` | src/App.js:54-64 | success appends the returned user at the end and clears form and error; failure changes only the error; editing id and page untouched |
| `Dashboard.App.EditUser` | src/App.js:67-75 | the form holds the user's four fields and the editing id is the user's id; list and error untouched |
| `Dashboard.App.UpdateUser` | src/App.js:77-92 | an empty field sets the required-fields error and sends nothing; otherwise the draft is sent under the editing id; nothing else changes |
| `Dashboard.App.UpdateSettled` | src/App.js:93-106 | success replaces by the captured id, clears form and error and returns to add mode; failure changes only the error |
| `Dashboard.App.Submit` | src/App.js:146 | the form routes to update when the editing id is truthy and to add otherwise; an empty field changes only the error |
| `Dashboard.App.DeleteUser` | src/App.js:109-110 | a delete sends the delete request for the id and changes no state until it settles |
| `Dashboard.App.DeleteSettled` | src/App.js:111-116 | success removes the users with the id and keeps a stale error; failure keeps the list and sets the delete error |
| `Dashboard.App.NextPage` | src/App.js:119-124 | the page moves one forward and the new page is fetched |
| `Dashboard.App.PrevPage` | src/App.js:126-131 | the page moves one back, stays at 1 on page 1, and that page is fetched |
| `Dashboard.App.ChangeField` | src/App.js:133-135 | one input changes its own field of the form and nothing else |
| `Dashboard.EditThenSubmit` | src/App.js:67-92 | after editing a user and submitting at once, the form holds the user's fields under its id; complete fields send that very user under its own id and keep the error, an empty id submits as an add, an empty field sets only the required-fields error; list, page and loading flag untouched |

## Left out

- Rendering (`render`, the JSX of `src/App.js` from line 137) and `src/components/UserItem.js`: presentation only. The rows' edit and delete buttons call the handlers with the row's user or id, which are the arguments of `EditUser` and `DeleteUser`. The disabled state of the previous-page button is part of rendering.
- The HTTP calls and the URL strings: the server is outside the model, and each response is a parameter of a settling step.
- The uuid library: its value is a parameter, since the stored record is the server's response.
- React's scheduling and batching of state updates, and responses that overlap or arrive out of order: each handler and each settled response is one sequential step, applied to the state current at that step. Callers may interleave steps in any order; nothing in the model prevents or orders them.
- `event.preventDefault()` and the event objects: the form field and its new value are passed directly.
- Page-size arithmetic: the page size is the constant 5, only passed through to the request.
- Number-typed ids: the public mock server uses numeric ids, and JavaScript compares them with `===`; ids are strings here, so a number compared to a string is not modelled.
- Arbitrary state keys in the field-change handler: only the four form fields are targets, since no input is bound to any other state key.
