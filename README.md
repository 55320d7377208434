# OKR tree front end — a verified model of its decision logic

This project models the behaviour of the OKR-tree web front end: a Next.js application that
displays a company's objectives as trees, with tasks attached to each objective. The model
covers these parts of the front end:

- **The tree shaper** (`formatDataForD3Tree`). It turns the objective graph the server returns
  into the view-model tree the renderer draws.
- **The tree controller** (`OKRTree`). It decides which root tree is selected and what is
  reloaded after a create, update or delete.
- **The per-objective task list and the user's own task page.** Each works in place on a list
  of tasks.
- **The task and objective dialogs.** This covers the assignee toggle, the user search,
  hydration on edit, reset on close, and which request a submit sends.
- **The session provider.** It reads the signed-in user out of the token cookie, falls back to
  the cached user or the token alone, and handles logout and profile updates.
- **The account page's fill-only-if-empty form and its e-mail pattern.**
- **The header's avatar initials.**
- **The route guard.**

Each module corresponds to one source file:

| module | source |
|---|---|
| `OkrTree` | `components/OKRTree.js` |
| `TaskList` | `components/TaskList.js` |
| `TaskForm` | `components/TaskForm.js` |
| `ObjectiveForm` | `components/ObjectiveForm.js` |
| `TasksPage` | `app/tasks/page.js` |
| `UserContext` | `context/UserContext.js` |
| `AccountPage` | `app/account/page.js` |
| `Header` | `components/Header.js` |
| `Middleware` | `middleware.js` |
| `Common` | values shared by the modules above |

`Common` holds nullable values, remote replies, the task and user records, JavaScript
truthiness, and the string built-ins the components use (`trim`, `split`, `join`,
`toLowerCase`, `includes`, `replace`).

### How the model is built

- **Components are classes.** A React component whose state the handlers update is a class
  whose fields are that state.
- **Handlers are atomic methods.** Each handler, asynchronous in the source, is one atomic
  method.
- **Remote replies are arguments.** Every reply a handler awaits is passed in as a `Reply`:
  `Ok(data)` or `Failed` (a rejected promise). A body that may be null or undefined is an
  `Option` inside `Ok`. Follow-up calls a handler starts without awaiting them, such as the
  reloads after a delete, take their own reply arguments.
- **Frames.** A method's `modifies` clause names exactly the fields it may change.
- **The tree controller's methods** are proved equal to pure step functions over its whole
  state (`State() == Step(old(State()), replies)`). Those step functions carry what the source
  promises. The invariant kept is that the displayed tree is always a shaper output.
- **JavaScript truthiness is written out.**
  - A null id and the id 0 are both falsy (`Truthy`).
  - `s || d` gives `d` for a missing or empty string (`StrOr`).
  - `n || 0` gives 0 for a missing number (`NumOrZero`).
- **Toasts.** Error notifications are counted in an `errorToasts` field.

### Behaviour of the code worth knowing

- **No clamping.** Task progress is never clamped to 0..100 in code; only the slider widget limits it.
- **No stale-reply check.** Nothing discards a reply that arrives late. Each handler is modelled as one atomic step.
- **Failed root-list request.**
  - The root list is left as it was unless the fallback request for tree 1 returns data.
  - The error message stays set even when that fallback succeeds.
- **Deleting the selected root** only refetches the root list, so `selectedRootId` keeps the deleted id.
- **Toggling an assignee twice** restores the selection only when the id was not selected. When it was, the id moves to the end (`TaskForm.ToggleTwicePresent`).

## Model

| member | source | states |
|---|---|---|
| `OkrTree.Present` | components/OKRTree.js:281 | the non-null child slots are never more than the slots |
| `OkrTree.PresentMembers` | components/OKRTree.js:281 | the shaper recurses into exactly the objectives held in non-null child slots |
| `OkrTree.Shape` | components/OKRTree.js:269-283 | null shapes to null and an objective to a node; the node is labelled with its title at every depth and has exactly one child per non-null child slot |
| `OkrTree.ShapeAll` | components/OKRTree.js:281 | the shaped children are exactly as many as the non-null slots, and each is a labelled node |
| `OkrTree.ShapeAllAppend` | components/OKRTree.js:281 | map-then-filter distributes over concatenation, so children keep their order |
| `OkrTree.ShapeAllDropsNull` | components/OKRTree.js:281 | a null child slot anywhere in the list contributes nothing |
| `OkrTree.ShapeAllInOrder` | components/OKRTree.js:281 | the i-th shaped child is the shape of the i-th non-null child |
| `OkrTree.ShapeUnshape` | components/OKRTree.js:269-283 | a labelled node is the shape of the objective read back from it, so no field is altered on the way |
| `OkrTree.ShapeUnshapeAll` | components/OKRTree.js:281 | the same round trip for a list of labelled children |
| `OkrTree.UnshapeShape` | components/OKRTree.js:269-283 | shaping loses exactly the null child slots: reading the objective back from its shape gives the objective with those slots pruned at every depth |
| `OkrTree.UnshapeShapeAll` | components/OKRTree.js:281 | the same for a list of child slots |
| `OkrTree.LabelledIffShaped` | components/OKRTree.js:269-283 | a view tree is a shaper output exactly when every node's name equals its title |
| `OkrTree.LevelLabel` | components/OKRTree.js:52-60 | the label is "Unknown Level" exactly for levels outside the four known ones |
| `OkrTree.FetchRoots` | components/OKRTree.js:194-239 | resolves to the non-empty root list, or the fallback tree 1 alone after a failure, or []. The root list takes that value, except that a failure with no fallback keeps the old one. An empty reply clears the tree. A failure sets the error message even when the fallback succeeds. Loading ends. Nothing else changes. The displayed tree stays a shaper output |
| `OkrTree.Mount` | components/OKRTree.js:241-249 | the first root is selected and shaped only when the list is non-empty and no root was selected; apart from the selection and the tree shown, the state is exactly the fetch's |
| `OkrTree.LoadTree` | components/OKRTree.js:252-266 | a reply with data selects that root and shows its shape; a failed or empty reply keeps both; only a failure adds an error toast, exactly one; loading ends and nothing else changes |
| `OkrTree.RequestDelete` | components/OKRTree.js:310-313 | the pending id is recorded and the dialog opened |
| `OkrTree.CancelDelete` | components/OKRTree.js:536 | the pending id is cleared and the dialog closed |
| `OkrTree.ConfirmDelete` | components/OKRTree.js:316-337 | no pending id: nothing changes. A failed delete adds one toast and changes nothing else. After a successful delete, the state is the root refetch's (`FetchRoots`, with its error) when the deleted id was the selected root, and the reload's (`LoadTree`, with its toast) otherwise. The pending id and dialog are cleared either way, and the selection is never changed |
| `OkrTree.ObjectiveCreated` | components/OKRTree.js:340-360 | both create dialogs close and the root list is the refetched one. With a prior selection the state is that of reloading that root (`LoadTree`). Without one, the last refetched root is selected and shown, and the rest of the state is the fetch's; with no roots the state is just the fetch's |
| `OkrTree.TaskCreated` | components/OKRTree.js:363-384 | the task dialog closes; the notification carries the dialog's objective id and the created task. With a selection, the state is that of reloading it (`LoadTree`); without one, nothing else changes |
| `OkrTree.ObjectiveUpdated` | components/OKRTree.js:387-393 | the update dialog closes. With a selection, the state is that of reloading it (`LoadTree`); without one, nothing else changes |
| `OkrTree.CancelledDeleteIsNoop` | components/OKRTree.js:310-318 | request, cancel, then confirm: the confirm changes nothing |
| `OkrTree.FirstRootIsSelected` | components/OKRTree.js:340-355 | creating the first root selects and shows it |
| `OkrTree.TreeController.constructor` | components/OKRTree.js:177-191 | the initial state: loading, nothing selected, no dialogs |
| `OkrTree.TreeController.FetchRootObjectives` | components/OKRTree.js:194-239 | the state and the returned list are those of `FetchRoots`; the invariant is kept |
| `OkrTree.TreeController.MountEffect` | components/OKRTree.js:241-249 | the new state is that of `Mount` |
| `OkrTree.TreeController.LoadTreeOf` | components/OKRTree.js:252-266 | the new state is that of `LoadTree` |
| `OkrTree.TreeController.HandleAddRootObjective` | components/OKRTree.js:286-289 | clears the current objective id and opens the root dialog, nothing else |
| `OkrTree.TreeController.HandleAddSubObjective` | components/OKRTree.js:292-295 | records the parent id and opens the sub-objective dialog, nothing else |
| `OkrTree.TreeController.HandleAddTask` | components/OKRTree.js:298-301 | records the objective id and opens the task dialog, nothing else |
| `OkrTree.TreeController.HandleUpdateObjective` | components/OKRTree.js:304-307 | records the node and opens the update dialog, nothing else |
| `OkrTree.TreeController.HandleDeleteObjective` | components/OKRTree.js:310-313 | the new state is that of `RequestDelete` |
| `OkrTree.TreeController.CancelDeleteObjective` | components/OKRTree.js:526-536 | the new state is that of `CancelDelete` |
| `OkrTree.TreeController.ConfirmDeleteObjective` | components/OKRTree.js:316-337 | the new state is that of `ConfirmDelete` |
| `OkrTree.TreeController.HandleObjectiveCreated` | components/OKRTree.js:340-360 | the new state is that of `ObjectiveCreated` |
| `OkrTree.TreeController.HandleTaskCreated` | components/OKRTree.js:363-384 | the new state and the notification are those of `TaskCreated` |
| `OkrTree.TreeController.HandleObjectiveUpdated` | components/OKRTree.js:387-393 | the new state is that of `ObjectiveUpdated` |
| `TaskList.WithoutTask` | components/TaskList.js:137 | exactly the tasks with another id remain |
| `TaskList.WithoutTaskAppend` | components/TaskList.js:130-141 | removal distributes over concatenation, so the other tasks keep their order |
| `TaskList.WithoutAbsentTask` | components/TaskList.js:137 | a list without the id is returned unchanged |
| `TaskList.WithProgress` | components/TaskList.js:181-186 | length kept; every task with the id gets the new progress; no other task and no other field changes |
| `TaskList.WithProgressIdempotent` | components/TaskList.js:181-186 | setting the same progress twice equals setting it once |
| `TaskList.UserNames` | components/TaskList.js:113-121 | each id maps, in order, to the user's name or to the id itself |
| `TaskList.AssigneeNames` | components/TaskList.js:113-121 | 'Not assigned' for a missing or empty list; a single id gives its name or the id |
| `TaskList.AssigneeNamesAppend` | app/tasks/page.js:97-101 | the label of a concatenated list is the two labels joined by ", ": names in input order (the page's renderAssignees is the same label) |
| `TaskList.StatusColor` | components/TaskList.js:213-224 | the neutral colour exactly for a status other than the three known ones (the task page's getStatusColor at app/tasks/page.js:104-115 is the same) |
| `TaskList.TaskListView.constructor` | components/TaskList.js:24-34 | the initial state: empty list, loading, nothing selected or pending |
| `TaskList.TaskListView.FetchData` | components/TaskList.js:53-74 | tasks replaced by the reply or [] on success, kept on failure; the name map loaded after them; one toast on failure; loading ends |
| `TaskList.TaskListView.RefreshTasks` | components/TaskList.js:37-50 | full replace by the reply or [], unchanged on failure with one toast; loading ends |
| `TaskList.TaskListView.HandleTaskRefresh` | components/TaskList.js:84-95 | another objective's notification changes nothing; a matching one appends the created task at the end, or refreshes when it carries none |
| `TaskList.TaskListView.OpenDeleteAlert` | components/TaskList.js:124-127 | the pending id is recorded and the alert opened |
| `TaskList.TaskListView.CancelDeleteTask` | components/TaskList.js:444-454 | the pending id is cleared and the alert closed |
| `TaskList.TaskListView.HandleDeleteTask` | components/TaskList.js:130-146 | no pending id: nothing changes. Success removes every task with that id; failure keeps the list and adds a toast. The pending id and alert are cleared either way |
| `TaskList.TaskListView.OpenTaskDetails` | components/TaskList.js:149-152 | selects the task and opens the details |
| `TaskList.TaskListView.OpenUpdateForm` | components/TaskList.js:155-158 | selects the task and opens the update form |
| `TaskList.TaskListView.OpenProgressDialog` | components/TaskList.js:161-165 | progress starts at the task's value or 0 |
| `TaskList.TaskListView.SetProgress` | components/TaskList.js:373-379 | the slider's value becomes the progress, unclamped |
| `TaskList.WithTaskProgress` | components/TaskList.js:174-177 | the body sent is the selected task with the new progress and every other field unchanged |
| `TaskList.SentTaskInList` | components/TaskList.js:174-186 | after a successful update the list holds exactly the body that was sent in place of the selected task |
| `TaskList.TaskListView.UpdateTaskProgress` | components/TaskList.js:168-196 | no selection: nothing is sent and nothing changes. Otherwise the request body is `WithTaskProgress` of the selected task. Success sets that progress on the tasks with its id (`WithProgress`) and closes the dialog. Failure keeps the list and adds a toast |
| `TaskList.TaskListView.HandleTaskUpdated` | components/TaskList.js:199-210 | the form closes; the list is replaced by the reply or [], kept on failure |
| `TaskForm.RemoveAll` | components/TaskForm.js:142 | exactly the other ids remain |
| `TaskForm.Toggle` | components/TaskForm.js:139-146 | the id is selected afterwards exactly when it was not before; other ids are untouched; an unselected id is appended at the end |
| `TaskForm.RemoveAllNoDup` | components/TaskForm.js:142 | filtering keeps a selection duplicate-free |
| `TaskForm.RemoveAllAbsent` | components/TaskForm.js:142 | filtering out an absent id changes nothing |
| `TaskForm.RemoveAllOnce` | components/TaskForm.js:142 | in a duplicate-free selection exactly one element is removed |
| `TaskForm.RemoveAllAppend` | components/TaskForm.js:142 | filtering distributes over concatenation |
| `TaskForm.ToggleNoDup` | components/TaskForm.js:139-146 | toggling keeps a selection duplicate-free |
| `TaskForm.ToggleTwiceAbsent` | components/TaskForm.js:139-146 | toggling an unselected id twice restores the selection |
| `TaskForm.ToggleTwicePresent` | components/TaskForm.js:139-146 | toggling a selected id twice keeps the same ids but moves that id to the end |
| `TaskForm.Options` | components/TaskForm.js:60-63 | one option per (id, name) entry, in order, labelled "name (id)" |
| `TaskForm.FilterEntries` | components/TaskForm.js:232-234 | exactly the entries whose lowercased name, or whose id as it is, contains the needle |
| `TaskForm.FilterEntriesAppend` | components/TaskForm.js:232-234 | filtering distributes over concatenation, so the kept entries stay in the order they were listed |
| `TaskForm.SearchResults` | components/TaskForm.js:229-247 | an empty query shows every entry; otherwise the matching entries, filtered in listed order (`FilterEntries`, `FilterEntriesAppend`) |
| `TaskForm.EmptyNeedleKeepsAll` | components/TaskForm.js:236-247 | the empty needle matches everything, so the reset branch agrees with the filter |
| `TaskForm.Today` | components/TaskForm.js:45 | the default due date is the timestamp's text before its first 'T' |
| `TaskForm.FieldsFrom` | components/TaskForm.js:76-85 | missing fields become '', 'PENDING', [] and 0 |
| `TaskForm.RequestFor` | components/TaskForm.js:104-126 | update mode updates `task.id`, create mode creates under the objective; the payload is the form data with `assignedTo` replaced by the selection; update mode without a task sends nothing |
| `TaskForm.TaskFormView.constructor` | components/TaskForm.js:36-50 | the form starts at its defaults with nobody selected |
| `TaskForm.TaskFormView.FetchUsers` | components/TaskForm.js:53-73 | the id-to-name entries are loaded and all listed; failure adds a toast |
| `TaskForm.TaskFormView.Hydrate` | components/TaskForm.js:76-87 | in update mode with a task, the values and the selection come from the task; otherwise nothing changes |
| `TaskForm.TaskFormView.ResetOnClose` | components/TaskForm.js:90-102 | closing resets every field to its defaults and clears the selection |
| `TaskForm.TaskFormView.ToggleUserSelection` | components/TaskForm.js:139-154 | the selection is toggled and the form's `assignedTo` receives the same list; no other field changes |
| `TaskForm.TaskFormView.Search` | components/TaskForm.js:236-247 | the listed options are those of `SearchResults` over the loaded entries |
| `TaskForm.TaskFormView.Submit` | components/TaskForm.js:104-136 | the request is that of `RequestFor`; onSuccess is called only on success, with the reply's task; otherwise a toast; submitting ends false |
| `ObjectiveForm.FieldsFrom` | components/ObjectiveForm.js:48-55 | an empty level becomes 'COMPANY'; the other fields are copied |
| `ObjectiveForm.RequestFor` | components/ObjectiveForm.js:69-90 | update mode always updates the objective, whatever the parent. Otherwise a truthy parent creates a sub-objective. Otherwise a root is created with tree level 0 and a null parent, overriding the data. Update mode with no objective sends nothing |
| `ObjectiveForm.ZeroParentCreatesRoot` | components/ObjectiveForm.js:77-89 | a parent id of 0 is falsy and creates a root |
| `ObjectiveForm.RootRequestIgnoresPosition` | components/ObjectiveForm.js:81-89 | the root request depends only on the form fields |
| `ObjectiveForm.ObjectiveFormView.constructor` | components/ObjectiveForm.js:36-45 | the form starts at '', '', 'COMPANY', 0 |
| `ObjectiveForm.ObjectiveFormView.Hydrate` | components/ObjectiveForm.js:47-55 | in update mode with an objective, the values come from it; otherwise nothing changes |
| `ObjectiveForm.ObjectiveFormView.ResetOnClose` | components/ObjectiveForm.js:58-67 | closing resets the form to its defaults |
| `ObjectiveForm.ObjectiveFormView.Submit` | components/ObjectiveForm.js:69-99 | the request is that of `RequestFor` on the form's values; onSuccess only after a successful request, a toast otherwise; submitting ends false |
| `TasksPage.MyTasksView.constructor` | app/tasks/page.js:24-30 | the initial state: empty list, loading, nothing selected |
| `TasksPage.MyTasksView.FetchData` | app/tasks/page.js:33-56 | without a user id nothing is fetched or changed; otherwise tasks are replaced by the reply or [], the name map is loaded, a failure adds a toast, and loading ends |
| `TasksPage.MyTasksView.OpenTaskDialog` | app/tasks/page.js:59-63 | progress starts at the task's value or 0 |
| `TasksPage.MyTasksView.SetProgress` | app/tasks/page.js:214-219 | the slider's value becomes the progress, unclamped |
| `TasksPage.MyTasksView.UpdateTaskProgress` | app/tasks/page.js:66-94 | no selection: nothing changes. Otherwise the body sent is `WithTaskProgress` of the selected task. Success sets the progress on the tasks with the selected id and nothing else. Failure keeps the list and adds a toast |
| `UserContext.TokenSegment` | context/UserContext.js:37 | absent exactly when the token has no dot; holds no dot |
| `UserContext.TokenSegmentAfterFirstDot` | context/UserContext.js:37 | the segment is the text after the first dot, up to the next dot or the end |
| `UserContext.Base64FromUrl` | context/UserContext.js:38 | '-' becomes '+', '_' becomes '/', nothing else changes |
| `UserContext.Base64ToUrl` | context/UserContext.js:38 | the inverse mapping, used to state the round trips |
| `UserContext.UrlRoundTrip` | context/UserContext.js:38 | a base64url segment comes back unchanged through the fix-up and its inverse |
| `UserContext.StandardRoundTrip` | context/UserContext.js:38 | a base64 string comes back unchanged through the inverse and the fix-up |
| `UserContext.ResolveUser` | context/UserContext.js:59-110 | the user always has the token's subject as id. API data comes first, with id and role from the token. Then the cached user, only when it has that id. Then the token's claims alone |
| `UserContext.OtherCachedUserIgnored` | context/UserContext.js:66-110 | a cached user with another id is never adopted |
| `UserContext.DecodeToken` | context/UserContext.js:37-39 | a token without a dot is malformed; otherwise the decoded payload is that of its fixed-up second segment |
| `UserContext.DecodeIssuedToken` | context/UserContext.js:37-39 | a token written as header, base64url payload and signature joined by dots decodes to exactly what its standard base64 payload decodes to |
| `UserContext.Check` | context/UserContext.js:27-119 | no or empty cookie: nothing happens. A cookie with no segment or an undecodable one: the token is removed. The user is signed in exactly when the cookie is non-empty and its payload decodes with a non-empty subject, and then it is the user `ResolveUser` gives |
| `UserContext.SignedInAsSubject` | context/UserContext.js:42-65 | a signed-in user's id is the token's non-empty subject |
| `UserContext.Merge` | context/UserContext.js:167-170 | every field the update carries overrides the user's; the others are kept |
| `UserContext.MergeIdempotent` | context/UserContext.js:167-170 | applying the same update twice equals applying it once |
| `UserContext.MergeEmpty` | context/UserContext.js:167-170 | an empty update keeps the user |
| `UserContext.Session.constructor` | context/UserContext.js:14-15 | no user, loading, the cookie and cache as found |
| `UserContext.Session.CheckUserLoggedIn` | context/UserContext.js:27-119 | user, cookie and cache change as `Check` decides; loading ends; a signed-in user is also cached |
| `UserContext.Session.Logout` | context/UserContext.js:152-157 | the cookie, the cached user and the user are all cleared |
| `UserContext.Session.UpdateUser` | context/UserContext.js:160-178 | with no user, nothing is sent and the update fails. Otherwise the update is sent for the user's id; on success it is merged into the user and cached. Loading ends either way |
| `AccountPage.Fill` | app/account/page.js:36-42 | a field holding text is never overwritten; an empty one takes the user's value |
| `AccountPage.FillOnce` | app/account/page.js:33-44 | once a field holds text, later user data leaves it as it is |
| `AccountPage.AccountForm.constructor` | app/account/page.js:25-30 | the fields start empty |
| `AccountPage.AccountForm.Hydrate` | app/account/page.js:33-44 | with no user nothing changes; otherwise each field is filled only if empty |
| `AccountPage.ValidEmail` | app/account/page.js:122 | accepts only strings with an '@' and a '.' |
| `AccountPage.ValidEmailMatchesPattern` | app/account/page.js:122 | the computed check accepts exactly the strings of the form local@domain.tld: allowed characters only, case-insensitive, a top-level domain of at least 2 letters |
| `AccountPage.EmailError` | app/account/page.js:119-125 | no message exactly for a string matching the pattern; an empty string is reported as required |
| `Header.FullNameParts` | components/Header.js:24-27 | for a trimmed name with a space, the first part starts with the name's first letter and the last part starts after the last space |
| `Header.NameInitials` | components/Header.js:24-29 | one or two characters for a trimmed non-empty name |
| `Header.NameInitialsOfFullName` | components/Header.js:25-28 | a name with a space gives the first letter and the letter after the last space, upper-cased |
| `Header.Initials` | components/Header.js:19-39 | 'U' for no user; never more than 2 characters; empty only when name and e-mail are blank and the id is empty |
| `Header.InitialsOfFullName` | components/Header.js:23-28 | for a user, a trimmed name with a space gives two upper-cased letters: the first of the name and the first after its last space |
| `Header.InitialsOfSingleName` | components/Header.js:29 | a name without a space gives its upper-cased first letter |
| `Header.InitialsWithoutName` | components/Header.js:33-38 | without a name, the e-mail's first letter; without either, the id's |
| `Header.DisplayName` | components/Header.js:70 | the name, or "User " and the id; never empty |
| `Middleware.Decide` | middleware.js:3-24 | no token off an auth page goes to /login with the path kept; a token on an auth page goes home; otherwise pass through. Exactly one outcome applies |
| `Middleware.DependsOnlyOnPresence` | middleware.js:5-21 | two tokens that are both present or both absent give the same decision |
| `Middleware.NoRedirectLoop` | middleware.js:12-21 | following either redirect does not redirect again |
| `Middleware.PrefixMatch` | middleware.js:8-9 | the prefix test admits "/loginx" and "/register/done" but not "/account" |
| `Common.Trim` | components/Header.js:23 | the result is a slice of the string with only whitespace cut from before and after it, and no whitespace left at either end; empty exactly for an all-whitespace string |
| `Common.Split` | components/Header.js:24 | at least one part; no part holds the separator; more than one part exactly when the separator occurs |
| `Common.JoinSplit` | components/Header.js:24 | joining the parts with the separator restores the string |
| `Common.SplitJoin` | components/Header.js:24 | splitting separator-free parts joined by it gives the parts back |
| `Common.SplitFirst` | context/UserContext.js:37 | the first part is the text before the first separator |
| `Common.SplitAtFirst` | context/UserContext.js:37 | the split is the text before the first separator, then the split of the rest |
| `Common.SplitLast` | components/Header.js:27 | the last part is the text after the last separator |
| `Common.LowerString` | components/TaskForm.js:231 | each character is lowercased, length kept |
| `Common.ReplaceAll` | context/UserContext.js:38 | every occurrence of one character is replaced, nothing else changes |

## Left out

- **I/O.** HTTP, cookies, local storage and routing are not modelled as operations.
  - Every reply is an argument.
  - The cookie and the cache are fields.
  - Router pushes are not modelled.
  - lib/api.js is not part of this model. Its `logout` removes the token cookie, and `Session.Logout` does that directly.
- **Token decoding.** `window.atob` and `JSON.parse` are one opaque function argument of `CheckUserLoggedIn`. Parsing the cached user (and its parse errors) is not modelled: the cache holds a `User`.
- **Toasts and logging.** Toasts are only counted, and only error toasts. Console logging is not modelled.
- **Async interleaving.** Out-of-order replies, the 100 ms timer, and the document-wide event of `handleTaskCreated` are not modelled.
  - Each handler is one atomic step.
  - Delivering the task-created notification is a call to `TaskListView.HandleTaskRefresh` with the notice `HandleTaskCreated` returns.
- **Effect re-runs.** The mount effect of the tree re-runs whenever `selectedRootId` changes. The environment is expected to call `MountEffect` again at those times; it is not called automatically.
- **Effect order on close.** The two dialog effects, hydration and reset, run in declaration order in the source. When a dialog closes, the reset therefore wins. The model leaves the calling order to the environment.
- **`toggleUserSelection` reads the selection twice.** It computes the new list once from the updater argument and once from the closure. In one atomic step these are the same list, so the model computes it once.
- **Rendering.** JSX rendering, the tree layout, date formatting, and the floating-point progress ring of TaskList.js are not modelled.
- **Strings.**
  - Case mapping is ASCII only. The e-mail pattern's `i` flag folds only ASCII letters, so it is exact there. `toUpperCase` of a non-ASCII first letter, such as 'ß' becoming "SS", is not modelled.
  - Whitespace for `trim` is the common set: ASCII whitespace, no-break space, the line and paragraph separators, and the byte-order mark. The other Unicode space separators are not included.
- **Shapes of server data.**
  - Objectives always have a children array, since the shaper dereferences it.
  - Users always carry a string `empId`.
  - A user record holds only id, role, name and e-mail; other fields an update may carry are not modelled.
  - `Object.entries` order of the users map is taken as the given order of the entries list.
- **The route guard's matcher list** (middleware.js:27-36) is not modelled. It only limits which paths the guard runs on.
- **Other parts of the application.** The login and register functions of the session provider, the login page, the layout, the home page and the build configuration are not part of this model: they hold page wiring, not decision logic. The account page's submit only calls `updateUser`, which `Session.UpdateUser` models.
- ObjectiveForm.FieldsFrom: the edited node always carries a title, a description and a progress, as the shaper copies them from the server's objective. So the `|| ''` and `|| 0` defaults of components/ObjectiveForm.js:50-53 only matter for an empty string or a zero, which they leave as they are. Defaults for missing fields are not modelled.
- **Form validation.** The forms' `required` rules keep `onSubmit` from running with an empty required field (components/TaskForm.js:171,184,197; components/ObjectiveForm.js:117,130; app/account/page.js:104-105). The `Submit` methods model `onSubmit` alone, so they accept any field values.
- **Characters.** A Dafny `char` is a Unicode scalar value, while JavaScript's `charAt(0)` returns one UTF-16 code unit. For a name or e-mail starting outside the Basic Multilingual Plane, such as an emoji, the header's initials keep the whole character, where components/Header.js yields a lone surrogate.
- **Progress ranges.** No clamp exists in the source, so none is claimed. The slider bounds it to 0..100 in steps of 5, and the model takes any integer.
