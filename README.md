# DevTree front-end views, modelled in Dafny

DevTree is a "link in bio" service. Its browser front end has four views
with logic worth stating:

- **the link editor** (`LinkTreeView`): a working copy with one row per
  catalog network, and the user's stored link list;
- **the profile form** (`ProfileView`): handle, description and avatar;
- **the sign-up form** (`RegisterView`);
- **the sign-in form** (`LoginView`).

This project models each of them. The shared pieces are in two modules:

- `Types` holds the records (`SocialLink`, `User`), the react-query entry
  `['user']` as one shared object (`UserCache`), and the outcome of an API
  request.
- `FormRules` holds the field rules the forms declare, as predicates on
  strings. `MatchesHandle` is `^[a-zA-Z0-9_]+$`. `MatchesEmail` is the
  unanchored `\S+@\S+\.\S+`, with JavaScript's `\s` class.

The link editor is split in two. `LinkList` holds its `find`, `findIndex`,
`filter` and `map` expressions as recursive functions on sequences, with
lemmas about them. `LinkTreeView.LinkEditor` is a class whose handlers
commit those functions:

- the working rows are a field of the class;
- the stored list is `cache.user.links`, because the view re-reads it from
  the cache on every render;
- `isSaving` is a field.

The three forms are classes too. Each holds its field values and its busy
flag. A submit is ignored while the button is disabled or while any field
rule fails. A request is split in two steps, `Submit` and `Settle`.

What the proofs establish about the link editor, as the code is written:

- **The decrement almost never fires.** It is guarded by
  `link.id > indexToUpdate && indexToUpdate !== 0 && link.id === 1`, with
  `indexToUpdate` from `findIndex`. `DisableStored` proves the guard holds
  only when the disabled name is not stored at all, and then it turns
  rank 1 into rank 0.
- **Ranks can repeat.** `RanksCanRepeat` runs this sequence: switch on A,
  switch on B, switch off A, switch on C. B and C both end with rank 2.
- **An enabled link can lose its rank.** `EnabledLinkCanLoseRank`: a refused
  toggle of an unstored row takes the disable path, and that strips rank 1
  from a link that stays enabled.
- **Stored URLs never change.** `StoredUrlsNeverChange`: once a link is in
  the stored list, switching it on again keeps its first URL, whatever the
  row now holds.
- **A refused toggle still writes the stored list.**
  `RefusedToggleStillReranks`: the path is chosen by the row's `enabled`
  after the toggle. A refused toggle of a row that is already on re-runs
  the enable path, which recomputes its rank as the number of ranked entries
  plus 1. That number can equal the old rank, and then the list is unchanged.

What the code looks meant to do, and what the model shows it does instead
(the model follows the code throughout):

- The decrement at `LinkTreeView.tsx:131` looks meant to keep the non-zero
  ranks a contiguous `1..k`. The code does not keep them so: see
  `RanksCanRepeat`.
- The same decrement looks meant to lower every rank above the disabled one.
  By `DecrementGuard`, it only turns rank 1 into 0, and only when the name
  is not stored.
- The invalid-URL notification at `LinkTreeView.tsx:83-89` looks meant to
  cancel the toggle. The code leaves the working copy unchanged but still
  rewrites the stored list: see `RefusedToggleStillReranks` and
  `EnabledLinkCanLoseRank`.

## Model

| member | source | states |
|---|---|---|
| Types.OrEmpty | frontend/src/views/ProfileView.tsx:73 | JavaScript's `value or ''` on an optional string: the value when present, `''` when missing |
| Types.ErrorText | frontend/src/views/LoginView.tsx:35 | the error text is the server's `error` when present and non-empty, the fallback otherwise; never empty when the fallback is not |
| Types.FailureMessage | frontend/src/views/LoginView.tsx:32-41 | an error notification is shown exactly for HTTP errors, with ErrorText as its text |
| FormRules.MatchesHandle | frontend/src/views/ProfileView.tsx:278 | the anchored `^[a-zA-Z0-9_]+$`, matched one character at a time, holds iff the text is non-empty and every character is in `[a-zA-Z0-9_]` |
| FormRules.MatchesEmail | frontend/src/views/RegisterView.tsx:169 | `\S+@\S+\.\S+` holds iff some part of the text is a non-space, `@`, a non-empty non-space run, `.`, a non-space (EmailShapeAt); then the text has at least 5 characters, an `@` and a `.` |
| FormRules.HandleError | frontend/src/views/ProfileView.tsx:275-281 | no message iff the handle is a non-empty run of `[a-zA-Z0-9_]`; the required message iff empty; the pattern message iff non-empty with some other character |
| FormRules.EmailError | frontend/src/views/RegisterView.tsx:166-172 | no message iff the unanchored e-mail shape occurs; the required message iff empty; the pattern message otherwise |
| FormRules.EmailIsUnanchored | frontend/src/views/LoginView.tsx:138 | adding any text before or after an accepted e-mail keeps it accepted |
| FormRules.EmailHasAtThenDot | frontend/src/views/RegisterView.tsx:169 | an accepted e-mail has at least 5 characters and an `@` followed later by a `.` |
| FormRules.HandleIsNeverEmail | frontend/src/views/RegisterView.tsx:166-196 | no string passes both the handle rule and the e-mail rule |
| FormRules.EmailAcceptsAddress | frontend/src/views/LoginView.tsx:138 | `ana@mail.com` is accepted |
| FormRules.EmailAcceptsSurroundedAddress | frontend/src/views/LoginView.tsx:138 | `see ana@mail.com please` is accepted |
| FormRules.EmailAcceptsNonAddresses | frontend/src/views/LoginView.tsx:138 | `a@..c` and `@@@.@` are accepted |
| FormRules.EmailRefusesNoDot | frontend/src/views/LoginView.tsx:138 | `ana@mail` is refused |
| FormRules.EmailRefusesSpaceBeforeAt | frontend/src/views/LoginView.tsx:138 | `ana @mail.com` is refused |
| FormRules.EmailRefusesEmptyDomain | frontend/src/views/LoginView.tsx:138 | `ana@.com` is refused |
| FormRules.HandleExamples | frontend/src/views/ProfileView.tsx:278 | `dev_tree42` passes; the empty string, `-`, a space and a non-ASCII letter do not |
| LinkList.FindIndex | frontend/src/views/LinkTreeView.tsx:123 | -1 iff no entry has the name; otherwise an in-range index of an entry with that name, with none before it |
| LinkList.HasName | frontend/src/views/LinkTreeView.tsx:103 | `links.some`, as a scan from the front, holds iff some entry has the name |
| LinkList.Find | frontend/src/views/LinkTreeView.tsx:99 | none iff no entry has the name; otherwise an entry of the list with that name |
| LinkList.FindAtFindIndex | frontend/src/views/LinkTreeView.tsx:99-123 | `find` returns the entry at the index `findIndex` reports |
| LinkList.FindUnique | frontend/src/views/LinkTreeView.tsx:99 | with distinct names, `find` returns the one entry of that name |
| LinkList.CountRanked | frontend/src/views/LinkTreeView.tsx:102 | the number of entries with non-zero id is at most the length; 0 iff all ids are 0; the length iff none is 0 |
| LinkList.MergeRow | frontend/src/views/LinkTreeView.tsx:59-63 | a row with no stored namesake is returned as is; otherwise it takes url and enabled of the stored entry at the index `findIndex` reports |
| LinkList.MergeStored | frontend/src/views/LinkTreeView.tsx:57-66 | length, order, names and ids are kept; a row with no stored namesake is unchanged; a row with one takes the found entry's url and enabled |
| LinkList.FirstMatchIsFound | frontend/src/views/LinkTreeView.tsx:59 | an entry with no earlier namesake is the one `find` returns |
| LinkList.MergeTakesFirstStoredEntry | frontend/src/views/LinkTreeView.tsx:58-63 | a merged row equals the catalog row with url and enabled of the FIRST stored entry of its name, nothing else changed |
| LinkList.MergeStoredIdempotent | frontend/src/views/LinkTreeView.tsx:57-66 | merging a second time changes nothing |
| LinkList.SetUrl | frontend/src/views/LinkTreeView.tsx:68-73 | length, order, names, enabled and ids are kept; url becomes the new value exactly on rows with the given name |
| LinkList.SetUrlLastWins | frontend/src/views/LinkTreeView.tsx:68-73 | two URL edits of the same row leave the second |
| LinkList.ToggleRows | frontend/src/views/LinkTreeView.tsx:77-94 | length, order, names, urls and ids are kept; a row's enabled flips iff it has the name and its url passes `isValidUrl` |
| LinkList.UrlRejected | frontend/src/views/LinkTreeView.tsx:79-89 | the notification shows iff some row of that name has a url `isValidUrl` refuses |
| LinkList.InvalidUrlKeepsRows | frontend/src/views/LinkTreeView.tsx:80-91 | when the named rows' urls are refused, the working copy is exactly unchanged |
| LinkList.ToggleTwiceRestores | frontend/src/views/LinkTreeView.tsx:78-94 | toggling the same name twice gives the rows back |
| LinkList.AssignRank | frontend/src/views/LinkTreeView.tsx:104-114 | entries of the name become enabled with the given id, url kept; all other entries unchanged |
| LinkList.ResetRank | frontend/src/views/LinkTreeView.tsx:124-139 | entries of the name get id 0 and enabled false; the others are decremented exactly when the written guard holds |
| LinkList.DecrementGuard | frontend/src/views/LinkTreeView.tsx:131 | the guard as written holds iff the id is 1 and the index is negative |
| LinkList.EnableStored | frontend/src/views/LinkTreeView.tsx:101-121 | the new id is the count of non-zero ids plus 1; a stored name: only its entries change, to enabled with that id and the same url; otherwise the selected row is appended with that id |
| LinkList.DisableStored | frontend/src/views/LinkTreeView.tsx:122-140 | entries of the name end with id 0 and enabled false; another entry changes only if the name is not stored and its id is 1, and then only to id 0 |
| LinkList.UpdateStored | frontend/src/views/LinkTreeView.tsx:98-140 | the enable path with the toggled row when that row exists and is on; the disable path otherwise, including when `find` returns undefined |
| LinkList.EnableLinkStep | frontend/src/views/LinkTreeView.tsx:77-140 | a toggle keeps the rows' names and grows the stored list by at most one entry |
| LinkList.AcceptedToggleStep | frontend/src/views/LinkTreeView.tsx:77-140 | with distinct row names, an accepted toggle flips exactly the named row; the stored list takes the enable path with the flipped row if it is now on, the disable path otherwise |
| LinkList.RefusedToggleStillReranks | frontend/src/views/LinkTreeView.tsx:80-101 | an enabled row with a refused url keeps the working copy, yet the stored list takes the enable path |
| LinkList.RanksStayNonNegative | frontend/src/views/LinkTreeView.tsx:101-139 | if all stored ids are non-negative, they stay so after a toggle |
| LinkList.StoredUrlsNeverChange | frontend/src/views/LinkTreeView.tsx:101-139 | a toggle never removes a stored entry nor changes its name or url |
| LinkList.RanksCanRepeat | frontend/src/views/LinkTreeView.tsx:101-139 | on A, on B, off A, on C leaves B and C both enabled with id 2 |
| LinkList.EnabledLinkCanLoseRank | frontend/src/views/LinkTreeView.tsx:122-139 | after A is on, a refused toggle of unstored B turns A's id 1 into 0 while A stays enabled |
| LinkTreeView.LinkEditor.constructor | frontend/src/views/LinkTreeView.tsx:12-13 | the rows start as the catalog and nothing is saving |
| LinkTreeView.LinkEditor.LoadStoredLinks | frontend/src/views/LinkTreeView.tsx:57-66 | the rows become the merge of the rows with the cached user's links |
| LinkTreeView.LinkEditor.HandleUrlChange | frontend/src/views/LinkTreeView.tsx:68-73 | the rows become SetUrl of the old rows; the cache is not touched |
| LinkTreeView.LinkEditor.HandleEnableLink | frontend/src/views/LinkTreeView.tsx:77-147 | the rows are toggled; the cached user changes only in `links`, to the stored list updated by the toggled row; the notification shows iff a named row's url is refused |
| LinkTreeView.LinkEditor.ClickSave | frontend/src/views/LinkTreeView.tsx:149-152 | while saving, a click sends nothing; otherwise `isSaving` rises and the cached user is sent |
| LinkTreeView.LinkEditor.SaveSettled | frontend/src/views/LinkTreeView.tsx:52-54 | on success or error, `isSaving` is false afterwards |
| LinkTreeView.DoubleClickSave | frontend/src/views/LinkTreeView.tsx:245-247 | two clicks before the request settles send exactly one request |
| ProfileView.DescriptionError | frontend/src/views/ProfileView.tsx:298-304 | no message iff 1 to 200 characters; the required message iff empty; the max-length message iff over 200 |
| ProfileView.FormValid | frontend/src/views/ProfileView.tsx:275-304 | the form is accepted iff the handle rule holds and the description has 1 to 200 characters |
| ProfileView.ProfileEditor.constructor | frontend/src/views/ProfileView.tsx:14-21 | the fields start as the cached handle and description, and the preview as the cached image |
| ProfileView.ProfileEditor.SubmitDisabled | frontend/src/views/ProfileView.tsx:322 | the submit button is disabled while the update or the upload is pending |
| ProfileView.ProfileEditor.Submit | frontend/src/views/ProfileView.tsx:102-107 | nothing happens while either request is pending or the form is invalid; otherwise only handle and description of the cached user change, and that record is sent |
| ProfileView.ProfileEditor.UpdateSettled | frontend/src/views/ProfileView.tsx:38-59 | the update is no longer pending |
| ProfileView.ProfileEditor.ChooseImage | frontend/src/views/ProfileView.tsx:87-100 | choosing a file starts the upload; no file, no change |
| ProfileView.ProfileEditor.UploadSettled | frontend/src/views/ProfileView.tsx:72-80 | on success, the cached image and the preview both become `data` or `''` when it is missing or empty and nothing else in the user changes; on failure, only the pending flag drops |
| RegisterView.InitialValues | frontend/src/views/RegisterView.tsx:15-21 | all fields empty except the handle, which is the navigation-state handle when given |
| RegisterView.NameError | frontend/src/views/RegisterView.tsx:142-148 | no message iff at least 3 characters; required iff empty; too-short iff 1 or 2 characters |
| RegisterView.PasswordError | frontend/src/views/RegisterView.tsx:214-220 | no message iff at least 8 characters; required iff empty; too-short iff 1 to 7 characters |
| RegisterView.ConfirmationError | frontend/src/views/RegisterView.tsx:238-241 | no message iff non-empty and equal to the password; required iff empty; mismatch iff non-empty and different |
| RegisterView.FormValid | frontend/src/views/RegisterView.tsx:142-241 | accepted iff name has at least 3 characters, the e-mail and handle rules hold, the password has at least 8 and the confirmation equals it |
| RegisterView.MismatchIsNeverSent | frontend/src/views/RegisterView.tsx:238-241 | a confirmation that differs from the password makes the form invalid |
| RegisterView.RegisterPage.constructor | frontend/src/views/RegisterView.tsx:14-23 | the fields start as, and reset to, the initial values; not loading |
| RegisterView.RegisterPage.Submit | frontend/src/views/RegisterView.tsx:41-44 | a request is sent iff not loading and the form is valid; then `isLoading` is true and the sent values are the fields |
| RegisterView.RegisterPage.Settle | frontend/src/views/RegisterView.tsx:44-65 | `isLoading` is false on every outcome; the fields reset only on success; the error text is the server's or the fixed fallback |
| LoginView.PasswordError | frontend/src/views/LoginView.tsx:159-165 | no message iff at least 6 characters; required iff empty; too-short iff 1 to 5 characters |
| LoginView.FormValid | frontend/src/views/LoginView.tsx:135-165 | accepted iff the e-mail rule holds and the password has at least 6 characters |
| LoginView.LoginPage.constructor | frontend/src/views/LoginView.tsx:13-19 | both fields start empty and nothing is loading |
| LoginView.LoginPage.Submit | frontend/src/views/LoginView.tsx:21-24 | a request is sent iff not loading and the form is valid; then `isLoading` is true |
| LoginView.LoginPage.Settle | frontend/src/views/LoginView.tsx:24-44 | on success the token is stored under `AUTH_TOKEN` and nothing else in storage changes; on failure storage is untouched; the error text is the server's or `Error desconocido`; `isLoading` ends false |

## Left out

- HTTP calls (`api.post`, `updateProfile`, `uploadImage`) are not modelled. Their results are parameters of the `Settle` methods.
- `isValidUrl` and the `social` catalog are not part of this model. The URL check is a parameter, and the catalog is a constructor argument with distinct names.
- The JSON encoding of `links` is not modelled. The list is held decoded.
- The query cache is not modelled beyond the one shared `UserCache` entry. After a successful profile update the source marks that entry stale, so it is fetched again; the model leaves this out.
- Toasts are not modelled: their titles, success texts and action buttons (retry, navigation). Only the error texts are.
- The `FileReader` preview shown while an upload runs is left out, because it is asynchronous browser I/O.
- Particles, mouse-driven background offsets and animations are left out. They are floating point, DOM events and styling.
- Races between concurrent requests are left out; for example, a profile save while an upload runs. This is concurrency, not designed behaviour.
- The react-hook-form engine is left out. Only the rules the views declare, and the rule that a submit needs every rule to hold, are modelled.
- LinkTreeView.LinkEditor.HandleEnableLink reads the stored list from the cache when it runs. The source reads the list the last render parsed, which is the same list once the view has re-rendered after the previous write.
- Field lengths are counted in characters. JavaScript counts UTF-16 code units, which differ only for characters outside the Basic Multilingual Plane.
- `HomeView` holds no logic and is not modelled.
