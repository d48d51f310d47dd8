# Bookmark page: a verified model

This project models the `Home` page of a small bookmark manager (`app/page.tsx`).
A signed-in user keeps a list of bookmarks, each a title and a url. One form
serves both for adding a bookmark and for editing one. Every save is guarded:
both trimmed fields must be non-empty, and the trimmed url must start with
`http://` or `https://`. Each row has "Edit" and "Delete" buttons, a change
feed refreshes the list, and "Logout" ends the session.

The project has five modules:

- `Messages` holds the fixed banner texts, as a datatype plus their wording.
- `Text` holds JavaScript's `String.prototype.trim` and
  `String.prototype.startsWith`. The whitespace set is ECMAScript's
  WhiteSpace and LineTerminator code points, written out.
- `Validation` holds `validateUrl` and the two-step guard shared by adding
  and updating (`CheckDraft`).
- `Form` gives each handler as a pure function from the page state before to
  the state after, plus the one backend request it sends. The backend's
  answer is an argument. This module also has a trace semantics (`Apply`,
  `Run`) over sequences of user actions (typing in the two inputs, the buttons) and feed events, with lemmas that
  hold over every trace.
- `Controller` has the class `Home`, whose fields are the page's state cells.
  Its methods are the handlers. They assign those cells one after another in
  the source's order, and each method is proved to leave exactly the state
  the matching `Form` function gives.

Backend calls (`select`, `insert`, `update`, `delete`, `signOut`) are not
performed. Each handler takes the backend's answer as a parameter: an
`Outcome` for writes, a `Fetched` for reads. Each handler returns the
`Request` it would send.

Two behaviours of the code are worth stating up front:

- `deleteBookmark` (app/page.tsx:161-173) checks nothing and always sends the
  delete.
- The page has no cancel control, so the edit target is cleared only after a
  successful update (app/page.tsx:155). An Edit click on a row with id 0
  leaves a falsy target, which the page treats as add mode (app/page.tsx:266).

## Model

| member | source | states |
|---|---|---|
| Messages.Wording | app/page.tsx:230-240 | every banner text is non-empty, so a set message is truthy and its banner renders |
| Text.Trim | app/page.tsx:96-100 | `trim`: the result is empty iff the input is all whitespace, is no longer than the input, and neither starts nor ends with whitespace |
| Text.StartsWith | app/page.tsx:88-90 | `startsWith`, compared character by character, is exactly the sequence-prefix relation |
| Text.TrimDropsLast | app/page.tsx:96-100 | a trailing whitespace character can be removed before trimming without changing the result |
| Text.TrimDecomposes | app/page.tsx:96-100 | `trim(s)` is a contiguous slice of `s` with only whitespace before and after it |
| Text.TrimIgnoresPadding | app/page.tsx:96-100 | whitespace added on either side of a string does not change its trim |
| Text.TrimPadded | app/page.tsx:96-100 | a string with no surrounding whitespace, padded with whitespace, trims back to itself |
| Text.TrimIdempotent | app/page.tsx:96-100 | trimming twice equals trimming once |
| Validation.ValidateUrl | app/page.tsx:88-90 | holds exactly when the value has `http://` or `https://` as a prefix |
| Validation.ValidateUrlAcceptsAnyRest | app/page.tsx:88-90 | `validateUrl` accepts `http://` or `https://` followed by anything, including an empty rest |
| Validation.ValidateUrlSplits | app/page.tsx:88-90 | every value `validateUrl` accepts is one of the two schemes followed by the rest |
| Validation.ValidateUrlRejectsLeadingSpace | app/page.tsx:88-90 | `validateUrl` alone rejects a url with leading whitespace, so the guard must trim first |
| Validation.CheckDraft | app/page.tsx:96-102 | the guard rejects with "required" iff either field is all whitespace. It rejects with the scheme message iff both fields have content but the trimmed url has neither scheme. When it accepts, the values are the trimmed fields and they are well-formed |
| Validation.CheckDraftIdempotent | app/page.tsx:130-136 | values the guard accepted pass it again unchanged |
| Validation.CheckDraftAcceptsWellFormed | app/page.tsx:130-136 | a well-formed pair, such as a stored row loaded for editing, passes the guard as it is |
| Validation.CheckDraftIgnoresPadding | app/page.tsx:96-102 | whitespace around either field does not change the guard's verdict |
| Validation.EmptyTitleRejected | app/page.tsx:96-98 | an empty title is rejected with "required" even when the url is valid |
| Validation.LeadingBlanksAccepted | app/page.tsx:100-102 | blanks typed before a valid url are trimmed away and the draft is accepted |
| Form.Truthy | app/page.tsx:266 | a nullable number edit target is truthy exactly when it is present and not 0 |
| Form.AfterFetch | app/page.tsx:73-86 | always sends a select for the user. On error only the error message changes. Otherwise the list is replaced by the returned rows, or emptied when there are none, and nothing else changes |
| Form.AfterAdd | app/page.tsx:92-124 | a rejected draft sends nothing and only sets the guard's message, with the success message cleared. An accepted draft sends an insert of the trimmed values under the session's user, and `loading` ends false. Success clears the draft and reports "added". Failure keeps the draft and reports the failure. Session, edit target and list never change |
| Form.AfterUpdate | app/page.tsx:126-159 | same guard as adding. An accepted draft sends an update of that id with the trimmed values only. Success leaves edit mode, clears the draft and reports "updated". Failure keeps the edit target and the draft |
| Form.AfterDelete | app/page.tsx:161-173 | always sends the delete, with no guard. Only the outcome's message is set and the other message is kept. Draft, edit target and list are unchanged |
| Form.AfterEditClick | app/page.tsx:296-300 | the clicked row becomes the edit target and its title and url fill the draft. Nothing else changes |
| Form.AfterSubmit | app/page.tsx:264-267 | a write is sent exactly when the guard accepts the draft. It is an update of the edit target exactly when that target is truthy, and an insert otherwise. The edit target is cleared only by a successful update; session and list are unchanged. The whole step is `AfterUpdate` of the target when it is truthy and `AfterAdd` otherwise |
| Form.AfterTitleTyped | app/page.tsx:252 | typing in the title input sets the draft's title to the input's value and changes nothing else |
| Form.AfterUrlTyped | app/page.tsx:260 | typing in the url input sets the draft's url to the input's value and changes nothing else |
| Form.AfterLogout | app/page.tsx:175-178 | sends sign-out and drops the session. Draft, messages and cached list are left as they were |
| Form.AfterChangeEvent | app/page.tsx:61-63 | a change-feed event re-fetches for the signed-in user: a failed select only sets the load message, and a successful one replaces the list by the rows (or `[]` for none), with nothing else changed |
| Form.EditThenSubmitUpdatesRow | app/page.tsx:264-300 | editing a stored row with a non-zero id and submitting unchanged sends an update of that row with its own values |
| Form.EditOfIdZeroInserts | app/page.tsx:264-300 | id 0 is falsy, so submitting after editing row 0 inserts a new row instead of updating it |
| Form.SwitchEditTarget | app/page.tsx:296-300 | clicking "Edit" on a second row replaces the first target completely |
| Form.AddedThenResubmitRejected | app/page.tsx:121-123 | after a successful add the draft is empty, so submitting again sends nothing and shows "required" |
| Form.UpdatedThenResubmitRejected | app/page.tsx:155-158 | after a successful update the page is in add mode with an empty draft, so submitting again sends nothing |
| Form.DeletedTargetStillUpdated | app/page.tsx:161-173 | deleting the row being edited does not leave edit mode: the next submit still sends an update for the deleted id |
| Form.ApplyWritesWellFormed | app/page.tsx:92-159 | any single event's insert or update carries a non-empty, trimmed title and url with an accepted scheme |
| Form.RunWritesWellFormed | app/page.tsx:92-159 | over any sequence of events (typing in either input included) and backend answers, every insert and update sent is well-formed |
| Form.RunStaysSettled | app/page.tsx:104-114 | every handler that sets `loading` resets it before it ends, so between handlers `loading` stays false over any sequence of events, typing included (this says nothing about the save button's gating while a request is in flight) |
| Form.ApplyKeepsSession | app/page.tsx:175-178 | no handler other than logout touches the session, and logout drops it |
| Form.RunListIsLastFetched | app/page.tsx:80-85 | over any sequence of events, typing in the inputs included, the list is exactly what `LastFetched` computes from the events: the rows of the last successful select made while signed in (`[]` for a `null` answer), failed selects keeping the list, and nothing after a logout changing it |
| Form.RunSignedOutKeepsList | app/page.tsx:189 | signed out, the dashboard and its change feed are gone, so no event changes the list |
| Form.LaterFetchWins | app/page.tsx:85 | a successful refresh after any history of events, typing included, that leaves the user signed in sets the list to exactly the returned rows, whatever was there before |
| Controller.Home.constructor | app/page.tsx:7-17 | every state cell starts at its initial value: no session, empty draft and list, not loading, no edit target, no messages |
| Controller.Home.FetchBookmarks | app/page.tsx:73-86 | assigns the cells exactly as `AfterFetch` says and returns the select it sends |
| Controller.Home.AddBookmark | app/page.tsx:92-124 | assigns the cells step by step, ending exactly as `AfterAdd` says, and returns the insert it sends (if any) |
| Controller.Home.UpdateBookmark | app/page.tsx:126-159 | assigns the cells step by step, ending exactly as `AfterUpdate` says, and returns the update it sends (if any) |
| Controller.Home.DeleteBookmark | app/page.tsx:161-173 | ends exactly as `AfterDelete` says and returns the delete it sends |
| Controller.Home.TitleChanged | app/page.tsx:252 | assigns the title cell and ends exactly as `AfterTitleTyped` says |
| Controller.Home.UrlChanged | app/page.tsx:260 | assigns the url cell and ends exactly as `AfterUrlTyped` says |
| Controller.Home.EditClicked | app/page.tsx:296-300 | ends exactly as `AfterEditClick` says |
| Controller.Home.Submit | app/page.tsx:264-267 | dispatches on the edit target's truthiness and ends exactly as `AfterSubmit` says |
| Controller.Home.Logout | app/page.tsx:175-178 | ends exactly as `AfterLogout` says and returns the sign-out |
| Controller.Home.OnBookmarksChanged | app/page.tsx:61-63 | re-fetches for the session's user and ends exactly as `AfterChangeEvent` says |
| Controller.EditSaveRefresh | app/page.tsx:264-300 | on one page object: edit a stored row, save it, then a feed refresh. The result is add mode, an empty draft, "updated", and the refreshed rows |

## Left out

- Session restore, `onAuthStateChange`, Google OAuth sign-in and `loadingAuth` (app/page.tsx:20-45, 180-211). These are authentication and I/O. The session is a cell the handlers read, and `Logout` clears it.
- The realtime channel's lifecycle: subscribing, the user-scoped filter and removal on teardown (app/page.tsx:48-70). Only "a change event triggers a re-fetch for the current user" is modelled.
- Server-side filtering by `user_id` and ordering by descending id (app/page.tsx:74-78). The rows a select returns are a parameter and are stored as given.
- Concurrency. Each handler runs to completion atomically, with the backend's answer given up front. Overlapping requests and late answers after logout or teardown are not modelled.
- Rendering and the `disabled={loading}` gating of the save button. `Form.RunStaysSettled` shows `loading` is false between handlers in this atomic model.
- Controller.Home.AddBookmark requires a session, as does Form.AfterAdd, because the source reads `session.user.id`, which throws without one. The dashboard that hosts the form is only rendered with a session (app/page.tsx:189).
- Text.Trim: JavaScript strings are UTF-16 code units and Dafny's `char` is a Unicode scalar value. The whitespace set is written out and does not track future Unicode versions.
- Logout's `signOut` result is ignored by the source, and the model does not represent it.
