# User dashboard and registration form — a Dafny model

This project models the logic of a small single-page application. The application has a
user-management dashboard and a registration form. Both talk to a REST API.

- `js_values.dfy` (module `JsValues`) models the JavaScript value semantics the handlers rely on.
  That covers truthiness, strict equality, `isNaN` with its string-to-number coercion, and
  flat records, where a missing property reads as `undefined`.
- `roster.dfy` (module `Roster`) models the two local reconciliations of the cached roster.
  After a delete, `filter` drops the records with the deleted id. After an update, `map` with
  an object spread patches the records with the updated id. Both are recursive functions with
  lemmas.
- `dashboard.dfy` (module `UserDashboard`) models the dashboard component as the class
  `Dashboard`. Its fields are the component state: `users`, `selectedUser`, the drafts
  `newUser` and `updatedUser`, the three modal flags and the decoded session user. Each event
  handler is a method. The class invariant `Valid()` says that every request sent so far
  has the shape `IsSendable` admits: a DELETE of a truthy id, a PUT of a truthy, non-NaN
  id whose body holds `fullname` and `username` but no `user_id`, and a registration body
  of exactly the three draft fields. The token, decode and confirmation gates are not part
  of the invariant; each handler's own contract states them.
- `register.dfy` (module `Registration`) models the registration form as the class
  `RegisterForm`. It has the four text fields plus `error` and `loading`, and `HandleSubmit`
  is the submit handler.
- `routes.dfy` (module `Routes`) holds the login path both components navigate to.

Every handler runs to completion. What the outside world answers is a parameter: the `ok`
of a response, a refetched roster, the confirmation dialog's answer, the stored token, a
server's error message. What a handler does to the outside world is appended to a log on
the object. There are three logs: requests sent, dialogs shown and navigations made. The
log entries are values (`Request`, `Dialog`, a path). The dialog texts are the source's
own strings.

Behaviour of the code that a reader might not expect:

- Opening the add modal does not reset the add draft.
- Closing a modal does not discard its draft.
- The add handler does not check that the fields are filled in. It posts whatever the draft holds.
- The delete handler has no token check.
- When the id passed to the delete handler is falsy, the target is the logged-in user's id
  (`FalsyRowIdTargetsSessionUser`). When no user was decoded, reading `user.user_id` throws
  before any dialog is shown (outcome `NoSession`).
- If the user is created but the refetch fails, the add handler shows the creation error,
  although the user now exists on the server. The modal stays open.
- The modal flags are independent, so two modals can be open at once (`ModalsAreNotExclusive`).
- A successful registration does not clear an earlier `error`.
- `isNaN(true)` and `isNaN` of a blank string are false. So the update guard lets such ids
  through (`SelectionGuardByKind`, `SelectionGuardOnText`).

## Model

| member | source | states |
|---|---|---|
| `Roster.HasId` | src/Dashboard.jsx:222 | `user.user_id === id`: a NaN id matches no record, and a matching record's `user_id` is the id itself |
| `Roster.RemoveById` | src/Dashboard.jsx:123 | the filtered roster is no longer than the original and holds no record whose `user_id` strictly equals the target |
| `Roster.RemoveByIdCount` | src/Dashboard.jsx:123 | a record carrying the target id occurs 0 times after the delete; any other record occurs exactly as often as before |
| `Roster.RemoveByIdKeepsOrder` | src/Dashboard.jsx:123 | the records that survive the delete keep their relative order (the result is a subsequence of the roster) |
| `Roster.RemoveByIdWithoutMatch` | src/Dashboard.jsx:123 | deleting an id no record carries leaves the roster unchanged |
| `Roster.RemoveByIdIdempotent` | src/Dashboard.jsx:123 | deleting the same id twice gives the same roster as deleting it once |
| `Roster.MergeById` | src/Dashboard.jsx:220-224 | the update keeps the roster's length |
| `Roster.MergeByIdAt` | src/Dashboard.jsx:220-224 | at each position, a record whose `user_id` strictly equals the id becomes that record overridden by the payload; every other record is untouched |
| `Roster.MergeByIdKeepsIds` | src/Dashboard.jsx:220-224 | a payload without `user_id` leaves every record's id as it was |
| `Roster.MergeByIdWithoutMatch` | src/Dashboard.jsx:220-224 | updating an id no record carries leaves the roster unchanged |
| `Roster.MergeByIdIdempotent` | src/Dashboard.jsx:220-224 | applying the same payload twice gives the same roster as applying it once |
| `JsValues.DecimalDigitsAreNumbers` | src/Dashboard.jsx:178 | `isNaN` is false for a non-empty string of decimal digits |
| `JsValues.BlankStringsAreNumbers` | src/Dashboard.jsx:178 | `isNaN` is false for a string of white space only, which converts to 0 |
| `JsValues.TrailingLetterIsNaN` | src/Dashboard.jsx:178 | `isNaN` is true for a (possibly empty) run of decimal digits followed by one ASCII letter |
| `UserDashboard.SeedDraft` | src/Dashboard.jsx:80-84 | the seeded update draft carries the record's `fullname` and `username` (undefined when missing) and a falsy password |
| `UserDashboard.NewUserBody` | src/Dashboard.jsx:139-143 | the add request body holds exactly `fullname`, `username` and `password`, each taken from the add draft |
| `UserDashboard.DeleteTarget` | src/Dashboard.jsx:90 | the `id`, falling back to `user.user_id`: a truthy id is the target; otherwise the session user's `user_id`; no target (the read throws) exactly when the id is falsy and there is no session user |
| `UserDashboard.IsValidSelection` | src/Dashboard.jsx:178 | the update guard passes only for a selected record whose `user_id` is truthy and not NaN; such a record strictly matches its own id |
| `UserDashboard.HasToken` | src/Dashboard.jsx:191 | the token gate passes exactly when the parsed token is present and truthy (a non-empty string) |
| `UserDashboard.UpdatePayload` | src/Dashboard.jsx:184-188 | the update body always holds the draft's `fullname` and `username`; it holds `password` exactly when the draft's password is truthy, with the draft's value; it holds no other key |
| `UserDashboard.UneditedUpdateIsNoOp` | src/Dashboard.jsx:79-86 | an update submitted with the seeded draft unedited sends no password, and merging it into the record leaves every property reading as before |
| `UserDashboard.UpdatedRecordPassword` | src/Dashboard.jsx:184-224 | after a successful update, a matching cached record holds the typed password when one was typed, and its earlier cached password otherwise |
| `UserDashboard.SelectionGuardByKind` | src/Dashboard.jsx:178 | the update guard by the kind of `user_id`: a number passes if non-zero; a boolean passes if true; undefined, null, NaN and "" fail; a string passes if non-empty and not NaN |
| `UserDashboard.SelectionGuardOnText` | src/Dashboard.jsx:178 | an id held as a non-empty string of digits, or of white space only, passes the update guard |
| `UserDashboard.FalsyRowIdTargetsSessionUser` | src/Dashboard.jsx:90 | when the id passed to delete is falsy, the target is the logged-in user's `user_id` |
| `UserDashboard.Dashboard.constructor` | src/Dashboard.jsx:16-31 | the initial state: no user, empty roster, all modals closed, both drafts empty, nothing selected |
| `UserDashboard.Dashboard.Mount` | src/Dashboard.jsx:34-67 | a missing or empty token or an undecodable one goes to the login page without a request; otherwise the decoded user is kept and the roster is fetched; a failed fetch goes to the login page with the roster unchanged; a successful one replaces the roster |
| `UserDashboard.Dashboard.View` | src/Dashboard.jsx:74-77 | the record is selected and the view modal is open |
| `UserDashboard.Dashboard.OpenUpdate` | src/Dashboard.jsx:79-87 | the update draft is seeded with the record's `fullname` and `username` and a blank password; the record is selected; the update modal is open |
| `UserDashboard.Dashboard.OpenAdd` | src/Dashboard.jsx:264 | the add modal is open; nothing else changes, the add draft included |
| `UserDashboard.Dashboard.CloseView` | src/Dashboard.jsx:358 | the view modal is closed; nothing else changes |
| `UserDashboard.Dashboard.CloseAdd` | src/Dashboard.jsx:420 | the add modal is closed; its draft is kept |
| `UserDashboard.Dashboard.CloseUpdate` | src/Dashboard.jsx:510 | the update modal is closed; its draft is kept |
| `UserDashboard.Dashboard.EditNewUser` | src/Dashboard.jsx:431-467 | typing replaces one field of the add draft with the typed text; the other fields are kept |
| `UserDashboard.Dashboard.EditUpdatedUser` | src/Dashboard.jsx:521-557 | typing replaces one field of the update draft with the typed text; the other fields are kept |
| `UserDashboard.Dashboard.Delete` | src/Dashboard.jsx:89-129 | the target is the id, or the session user's id when the id is falsy. With a falsy id and no session user: nothing happens (reading `user.user_id` throws). Falsy target: an error dialog, no prompt, no request, roster unchanged. Declined: the prompt only, no request, roster unchanged. Confirmed: one DELETE of the target. If ok, the roster becomes the filtered roster; if not, the roster is unchanged and an error is shown. The class invariant is kept |
| `UserDashboard.Dashboard.AddUser` | src/Dashboard.jsx:132-174 | the add draft is posted as `fullname`/`username`/`password`. On failure: an error, roster and modal unchanged. Once created, the roster is refetched. If that fails: an error, roster and modal unchanged. Otherwise the roster is replaced wholesale by the refetched list and the modal closes |
| `UserDashboard.Dashboard.UpdateUser` | src/Dashboard.jsx:176-231 | no request unless the selection's `user_id` is truthy and not NaN and a non-empty token is present; each failed check shows its own error. Otherwise one PUT of the payload to the selected id. If accepted, the roster becomes the merged roster and the modal closes. If refused, the roster and the modal are unchanged and the error message is shown |
| `UserDashboard.ModalsAreNotExclusive` | src/Dashboard.jsx:18-20 | viewing a user and then opening the add modal leaves both modals open |
| `UserDashboard.DeleteScenario` | src/Dashboard.jsx:89-129 | after a declined and then a confirmed delete of id 5, a roster loaded with ids 3, 5, 7 holds the records with ids 3 and 7 |
| `Registration.RegisterBody` | src/Register.jsx:38-42 | the registration body has exactly the keys `fullName`, `username` and `passwordx`; the password is under `passwordx`; there is no `password` key |
| `Registration.RegistrationError` | src/Register.jsx:46 | the error shown after a failed registration is the server's message when that is truthy, and 'An error occurred during registration' otherwise; it is never blank |
| `Registration.RegisterForm.constructor` | src/Register.jsx:19-24 | all four fields and the error start empty; `loading` starts false |
| `Registration.RegisterForm.Edit` | src/Register.jsx:91-142 | typing replaces one of the four fields; the others are kept |
| `Registration.RegisterForm.HandleSubmit` | src/Register.jsx:26-49 | `loading` is false on every exit. A mismatched confirmation sets "Passwords don't match!" and posts nothing. Otherwise exactly one registration body is posted. On success the form goes to `/login` and the error is left as it was. On failure the error is set from the server's message |

## Left out

- Rendering: JSX markup, styling, hover handlers and the Bootstrap components.
- HTTP itself: URLs, headers (the bearer token), status codes and response parsing. Each is replaced by the outcome the handler sees. For the update, a non-JSON response body ends up as a refused reply.
- JSON serialisation of request bodies: the model logs the object handed to `JSON.stringify`. Keys whose value is `undefined` are therefore not dropped, and key order is not kept.
- Local storage, `JSON.parse` of the token and `jwtDecode`: these are library calls. The stored token is an `Option<string>` and the decoded user an `Option<Record>`. The delete, add and update handlers are modelled as if the stored token always parses, since the application only ever stores `JSON.stringify(token)` (src/Login.jsx:39). A token that failed to parse would send the delete and add handlers to their error dialogs before the DELETE or the refetch, and would end the update handler with no dialog at all.
- The logout handler (src/Dashboard.jsx:69-72): it only clears local storage and navigates, and storage is not modelled.
- Dialogs: each `Swal` dialog is a logged `Dialog` value, and the confirmation answer is a `bool` input. Console logging is left out.
- Numbers: they are finite reals. Infinity and the sign of zero are not modelled. Records are flat, so no property holds an object or an array.
- JsValues.IsNaN: white space is the fixed set of code points ToNumber trims in the ECMAScript standard. Digits outside ASCII are not digits, as in the standard.
- Registration.RegisterForm.HandleSubmit: the contract states only that `loading` is false on return. A handler that runs to completion cannot show the interval while the post is in flight, when `loading` is true. The `required` attributes and `preventDefault` of the browser form are not modelled.
- The server: whether a created user appears exactly once in the refetched roster depends on the server, so the model takes the refetched list as given.
- Asynchrony: the stale `users` closure read by the delete handler at src/Dashboard.jsx:123, overlapping handlers, and unmounting during a request. The handlers run one after another.
- src/Login.jsx, src/Navbar.jsx and vite.config.js: a login post, a storage toggle and build configuration, with no logic of their own.
