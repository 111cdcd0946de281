# Issue tracker client: a Dafny model

This project models the client side of a small React issue tracker. It has
projects and issues, kept on a JSON server. The model covers:

- **`Api`** (`src/services/api.ts`): the REST adapter. It maps the server's
  records (`RawProject`, `RawIssue`) to the client's `Project` and `Issue`. It
  also allocates numeric keys with `Math.max(ids, -1) + 1`, resolves each issue's
  owner through a `Map` from numeric key to client id, builds the partial PATCH
  body of `updateIssue`, and looks records up by `client_id`. Every HTTP exchange
  is a parameter of type `Response<T>`: a parsed body, an error status, or a
  rejected promise.
- **`App`** (`src/App.tsx`): the application state as a class `Store`. Its fields
  are `projects`, `issues`, `loading`, `error`, `selectedProjects`,
  `newProjectName` and `newIssue`. There is one method per handler. Each method
  takes the adapter call's outcome (`Reply<T>`: a value, possibly null, or a
  rejection) as a parameter. The toggle is split at its `await` into
  `BeginToggle` (the optimistic update) and `FinishToggle` (reconciliation), so
  that its two updates of `issues` can be seen in sequence. `ToggleIssue` runs
  both steps.
- **`CreateProjectForm`** and **`CreateIssueForm`** (`src/components/CreateProject.tsx`,
  `src/components/CreateIssue.tsx`): the form state machines as classes. Each
  handler is split at its `await` into `BeginAdd` and `FinishAdd`, so the
  `isCreating` flag can be observed while the call is pending. `AddProject` and
  `AddIssue` run both steps.
- **`IssuesListView`**, **`IssueRowView`**, **`ListProjectsView`** (`src/components/IssuesList.tsx`,
  `IssueRow.tsx`, `ListProjects.tsx`): the view rules as pure functions. These are
  the selection filter, the header count, the project-name fallback, the badge
  widths, the priority badge table, the due-date fallback, the `done` styling,
  the project options and the selection-count label.
- **`Text`** and **`Lists`**: the JavaScript behaviour these rules depend on.
  This means `trim`, `.length` in UTF-16 code units, `toString` and `parseInt` on
  integers, and `filter`/`map`/`find`/`findIndex`/`Math.max` on arrays.

Three behaviours of the code shape what the model proves:

- A toggle is reconciled by replacing the issue with the server's record as a
  whole (`App.tsx:135-137`). No field of the local issue is kept, `projectId`
  included. When `updateIssue` takes its fallback path (`api.ts:277-286`), the
  record comes back with owner "". `App.OwnerlessRecordLeavesView` shows that
  the toggled issue then drops out of every non-empty selection that does not
  list "".
- A missing priority is sent as `parseInt('') || 0`, so it is stored as 0 and
  read back as "0" (`api.ts:194`, `api.ts:44`). `IssueRowView.UnsetPriorityLosesBadge`
  shows that such an issue's row has no priority badge.
- The issue table shows nothing for an empty selection (`IssuesList.tsx:24-26`),
  while `App` shows all issues (`App.tsx:155-157`). `App.AppAndTableFilters`
  states both.

## Model

| member | source | states |
|---|---|---|
| Text.Trim | src/App.tsx:51 | `trim()` removes only JavaScript whitespace, and only before and after the result; the result neither starts nor ends with whitespace, and is empty exactly when the input is all whitespace |
| Text.TrimOfPadded | src/App.tsx:51 | whitespace padding around a text with no whitespace at its ends is exactly what `trim()` removes |
| Text.Utf16Length | src/components/IssuesList.tsx:39-41 | `.length` counts each character outside the Basic Multilingual Plane twice; it equals the character count for plain text |
| Text.IntToString | src/services/api.ts:44 | `toString` of an integer is a non-empty run of digits, with a leading "-" exactly when the number is negative |
| Text.ParseInt | src/services/api.ts:194 | `parseInt` is `NaN` for text without any digit, a non-negative number for text starting with a digit, and at most 0 for "-" followed by a digit |
| Text.ParseIntOfIntToString | src/services/api.ts:44 | `parseInt` reads back every integer `toString` writes, and stops at the first non-digit after it |
| Api.TransformProject | src/services/api.ts:36-39 | the client id becomes the project id and the title becomes the name |
| Api.TransformIssue | src/services/api.ts:41-48 | the owner is always "", the other fields are copied, and the priority becomes the decimal text of the stored number, which `parseInt` reads back |
| Api.ActiveProjects | src/services/api.ts:60 | `filter(p => p.active).map(transformProject)`: every active record appears transformed, each result comes from an active record, and there are no more results than records |
| Api.GetProjects | src/services/api.ts:53-65 | every active server project, and nothing else, appears transformed; the result is `[]` on a failed fetch |
| Api.ActiveProjectsConcat | src/services/api.ts:60 | filtering then mapping keeps input order: the result for a concatenation is the concatenation of the results |
| Api.NextId | src/services/api.ts:73 | the next key is at least 0, above every existing key, and is 0 or one above an existing key |
| Api.NewProjectRecord | src/services/api.ts:75-80 | the posted project is active, titled with the name, carries the fresh client id, and has a key above every existing key |
| Api.CreateProject | src/services/api.ts:68-100 | the result is a project exactly when both exchanges succeed, and it is the echoed record transformed |
| Api.CreateProjectRoundTrip | src/services/api.ts:75-95 | if the server echoes the posted record, the caller gets `Project(uuid, name)`, and the next `getProjects` lists the old projects followed by it |
| Api.FindRawProject | src/services/api.ts:108 | the lookup by client id finds the first project carrying it; "not found" exactly when no project carries it |
| Api.DeleteProject | src/services/api.ts:103-125 | the result is true exactly when the list was fetched, some project has the client id, and the PATCH returned ok |
| Api.IdMap | src/services/api.ts:147 | the map's keys are exactly the projects' numeric keys |
| Api.IdMapLastWins | src/services/api.ts:147 | for a duplicate key the map holds the client id of the last project with that key |
| Api.BuildIdMap | src/services/api.ts:147 | inserting the pairs one by one builds the same map |
| Api.JoinIssue | src/services/api.ts:149-152 | an issue of `getIssues` has the server record's fields, its priority as decimal text, and as owner the client id of the last project with its `project_id`, or "" when none has it |
| Api.ClientIdOf | src/services/api.ts:151 | `get(key) \|\| ''` gives "" for an unknown key and otherwise the client id of the last project with that key |
| Api.GetIssues | src/services/api.ts:131-157 | one issue per server issue, in order, each owned through the key map; `[]` when either fetch fails |
| Api.IssuesByProject | src/services/api.ts:160-168 | an order-preserving subsequence of `getIssues`: exactly the issues owned by the project |
| Api.IssuesByProjectConcat | src/services/api.ts:160-168 | the result for two server lists in a row is the result for each, in a row, and one server issue is kept exactly when its joined owner is the project; this fixes order and multiplicity |
| Api.PriorityNumber | src/services/api.ts:194 | `parseInt(text) \|\| 0`: the parsed number, or 0 when the text holds no number |
| Api.FindRawIssue | src/services/api.ts:230 | the lookup by client id finds the first issue carrying it; "not found" exactly when no issue carries it |
| Api.NewIssueRecord | src/services/api.ts:174-195 | no record when no project has the requested client id; otherwise the posted record with a fresh key, the numeric key of the first project with that client id, and the coerced priority |
| Api.CreateIssue | src/services/api.ts:171-218 | null for an unknown project or any failed exchange; otherwise the echo, transformed, owned by the requested project |
| Api.CreateIssueRoundTrip | src/services/api.ts:187-213 | if the server echoes the posted record, the caller gets the requested issue under the fresh id, with priority normalised to `parseInt(p) \|\| 0` |
| Api.PriorityRoundTrip | src/services/api.ts:194 | priorities "1", "2" and "3" survive creation; "" comes back as "0" |
| Api.NumericPriorityRoundTrip | src/services/api.ts:194 | any priority written as a non-negative decimal number is read back unchanged |
| Api.EmptyPriorityIsZero | src/services/api.ts:194 | an empty priority is stored as 0 and read back as "0" |
| Api.BuildRawChanges | src/services/api.ts:237-241 | the PATCH body has `done` whenever it is given, false included; title, due date and priority only when non-empty; the priority is parsed |
| Api.UpdateIssue | src/services/api.ts:221-292 | null when the issue is unknown or an exchange is rejected; otherwise the server's record, owned through the key map, or owned by "" when the project list answers with an error status |
| Api.DeleteIssue | src/services/api.ts:295-313 | the result is true exactly when the list was fetched, some issue has the client id, and the DELETE returned ok |
| IssuesListView.InProjects | src/components/IssuesList.tsx:25 | an order-preserving subsequence holding exactly the issues whose owner is selected |
| IssuesListView.InProjectsConcat | src/components/IssuesList.tsx:25 | the filter of two lists in a row is the filter of each, in a row, and one issue stays exactly when its owner is selected; this fixes order and multiplicity |
| IssuesListView.FilteredIssues | src/components/IssuesList.tsx:23-27 | nothing for an empty selection; otherwise the issues of the selected projects |
| IssuesListView.HeaderTitle | src/components/IssuesList.tsx:79 | the number after "Issue Übersicht (" is the count of shown issues |
| IssuesListView.EmptyRowText | src/components/IssuesList.tsx:106-113 | the placeholder row appears exactly when nothing is shown, with the prompt for an empty selection and the "no issues" text otherwise |
| IssuesListView.ProjectName | src/components/IssuesList.tsx:30-33 | the name of the first project with the id, else "Kein Projekt" |
| IssuesListView.LongestFrom | src/components/IssuesList.tsx:39-41 | the `reduce` returns a text at least as long as the start and as every text, and it is the start or one of the texts |
| IssuesListView.LongestFromIsFirst | src/components/IssuesList.tsx:39-41 | on ties the earlier text wins: the result is the start or the first text of its length, strictly longer than everything before it |
| IssuesListView.ProjectBadgeWidth | src/components/IssuesList.tsx:36-45 | 84 with no projects; otherwise the largest of 109 (the width for "Kein Projekt") and the widths the project names would need: at least each of them, and equal to one of them |
| IssuesListView.NameWidthsBound | src/components/IssuesList.tsx:43-44 | rounding keeps the order of widths: no name needs a wider column than the longest name, and the floor of 120 gives at least 109 |
| IssuesListView.WidthAttained | src/components/IssuesList.tsx:38-44 | the column is exactly as wide as "Kein Projekt" or some name needs |
| IssuesListView.LongestBadgeName | src/components/IssuesList.tsx:38-41 | the longest badge text has the length of "Kein Projekt" or of some project name |
| IssuesListView.PriorityTextsLongest | src/components/IssuesList.tsx:49-52 | the longest priority label is 10 UTF-16 units long |
| IssuesListView.DueDateTextsLongest | src/components/IssuesList.tsx:60-63 | the longest due-date text is 13 UTF-16 units long |
| IssuesListView.PriorityBadgeWidth | src/components/IssuesList.tsx:48-55 | the priority column is 100 px wide, above the 80 px floor |
| IssuesListView.DueDateBadgeWidth | src/components/IssuesList.tsx:58-66 | the due-date column is 134 px wide, above the 120 px floor |
| IssuesListView.Rows | src/components/IssuesList.tsx:116-128 | one row per shown issue, in order; each row's controls report the issue's id, its label is `getProjectName` of the owner, and it uses the three column widths |
| IssuesListView.RenderAll | src/components/IssuesList.tsx:116-128 | one `IssueRow` per issue, in order, with the issue's id on both controls, `getProjectName` as label, and the given widths |
| IssueRowView.PriorityBadges | src/components/IssueRow.tsx:52-83 | at most one priority badge; none exactly when the priority is not "", "1", "2" or "3" |
| IssueRowView.PriorityBadgeTable | src/components/IssueRow.tsx:52-83 | "1", "2", "3" and "" give Hoch/bg-danger, Mittel/bg-warning, Niedrig/bg-success and "-"/bg-secondary |
| IssueRowView.UnsetPriorityLosesBadge | src/components/IssueRow.tsx:76-83 | an issue created without a priority is read back with "0", and its row then shows no priority badge at all |
| IssueRowView.FormatDate | src/components/IssuesList.tsx:68-72 | an empty date string formats as "" |
| IssueRowView.DueDateBadge | src/components/IssueRow.tsx:86-101 | "Kein Datum" in the grey badge exactly when the due date is empty; otherwise the formatted date |
| IssueRowView.RowClass | src/components/IssueRow.tsx:25 | the row is marked `table-success bg-opacity-25` exactly when the issue is done |
| IssueRowView.TitleClass | src/components/IssueRow.tsx:36 | the title is struck through exactly when the issue is done |
| IssueRowView.Render | src/components/IssueRow.tsx:24-114 | the checkbox and the delete button report the issue's id, the label is `getProjectName(projectId)`, the three widths are used as given, the priority cell is the badge table's entry for the priority, the due-date cell is `DueDateBadge`, and the done styling follows `done` |
| ListProjectsView.Options | src/components/ListProjects.tsx:29-33 | one option per project, in order, with value = id and text = name |
| ListProjectsView.EmptyHint | src/components/ListProjects.tsx:35-40 | the hint is shown exactly when there are no projects |
| ListProjectsView.CountLabel | src/components/ListProjects.tsx:41-46 | shown exactly when something is selected; it starts with the count, and ends in "Projekt ausgewählt" exactly when the count is 1, otherwise in "Projekte ausgewählt" |
| ListProjectsView.TwoSelectedLabel | src/components/__tests__/ListProjects.test.tsx:138-148 | two selected projects read "2 Projekte ausgewählt" |
| ListProjectsView.SelectedValues | src/components/ListProjects.tsx:10-13 | a selection change reports the value of every selected option, and only such values |
| ListProjectsView.SelectedValuesConcat | src/components/ListProjects.tsx:11 | the values come in document order: the selection of two runs of options is the first run's followed by the second's |
| ListProjectsView.SelectedValuesOne | src/components/ListProjects.tsx:11 | one option contributes its value exactly when it is selected |
| ListProjectsView.SelectedValuesFirst | src/components/ListProjects.tsx:11 | the first value reported is that of the first selected option, which `App` sends as the owner of a new issue |
| ListProjectsView.Rendered | src/components/ListProjects.tsx:20-33 | the options as rendered, each selected exactly when its id is in the selection |
| ListProjectsView.SelectionReadBack | src/components/ListProjects.tsx:10-33 | reading the selection back from the list reports every selected project id, and nothing else |
| CreateProjectForm.ProjectRequest | src/components/CreateProject.tsx:14-21 | nothing is sent for a blank name; otherwise the trimmed, non-empty name |
| CreateProjectForm.ProjectRequestStable | src/components/CreateProject.tsx:19-21 | the name sent is already trimmed |
| CreateProjectForm.PaddedNameTrimmed | src/components/__tests__/CreateProject.test.tsx:130-146 | "  Test Project  " is sent as "Test Project" |
| CreateProjectForm.ButtonEnabled | src/components/CreateProject.tsx:64 | the button is enabled exactly when no creation is running and the name has a character that is not whitespace |
| CreateProjectForm.ButtonEnabledIffSends | src/components/CreateProject.tsx:64 | the button is enabled exactly when no creation is running and a click would send a request |
| CreateProjectForm.Form.constructor | src/components/CreateProject.tsx:11-12 | the form starts with an empty name and not creating |
| CreateProjectForm.Form.SetName | src/components/CreateProject.tsx:56 | typing replaces the name |
| CreateProjectForm.Form.BeginAdd | src/components/CreateProject.tsx:14-21 | a blank name changes nothing; otherwise `isCreating` is raised and the trimmed name is sent |
| CreateProjectForm.Form.FinishAdd | src/components/CreateProject.tsx:23-34 | a returned project goes to the parent and the name is cleared; null or a rejection reports "Fehler beim Erstellen des Projekts" and keeps the name; `isCreating` is false afterwards on every path |
| CreateProjectForm.Form.KeyPress | src/components/CreateProject.tsx:37-41 | Enter starts a creation only when none is running |
| CreateProjectForm.Form.AddProject | src/components/CreateProject.tsx:14-35 | the whole handler: request, outcome and the final state |
| CreateIssueForm.WithField | src/components/CreateIssue.tsx:53-55 | the named field takes the new value and the other two are unchanged |
| CreateIssueForm.IsFormValid | src/components/CreateIssue.tsx:57 | the form is valid exactly when a project is selected and the title has a character that is not whitespace |
| CreateIssueForm.IssueRequest | src/components/CreateIssue.tsx:20-31 | nothing is sent unless the trimmed title is non-empty and a project is selected; the payload has the trimmed title, priority and due date as typed, `done` false and the first selected project |
| CreateIssueForm.IssueRequestStable | src/components/CreateIssue.tsx:26 | the title sent is already trimmed |
| CreateIssueForm.ButtonEnabled | src/components/CreateIssue.tsx:121 | the button is enabled exactly when no creation is running, a project is selected and the title has a character that is not whitespace |
| CreateIssueForm.ButtonEnabledIffSends | src/components/CreateIssue.tsx:121 | the button is enabled exactly when no creation is running and a click would send a request |
| CreateIssueForm.Form.constructor | src/components/CreateIssue.tsx:13-18 | the form starts with an empty draft and not creating |
| CreateIssueForm.Form.Update | src/components/CreateIssue.tsx:53-55 | only the named field of the draft changes |
| CreateIssueForm.Form.BeginAdd | src/components/CreateIssue.tsx:20-31 | an invalid form changes nothing; otherwise `isCreating` is raised and the payload is sent |
| CreateIssueForm.Form.FinishAdd | src/components/CreateIssue.tsx:33-44 | a returned issue goes to the parent and the draft is reset; null or a rejection reports "Fehler beim Erstellen des Issues" and keeps the draft; `isCreating` is false afterwards on every path |
| CreateIssueForm.Form.KeyPress | src/components/CreateIssue.tsx:47-51 | Enter starts a creation only when none is running |
| CreateIssueForm.Form.AddIssue | src/components/CreateIssue.tsx:20-45 | the whole handler: request, outcome and the final state |
| App.WithoutIssue | src/App.tsx:99 | every issue with the id is removed and the others keep their order; the list is unchanged when the id is unknown |
| App.WithoutIssueConcat | src/App.tsx:99 | deleting from two lists in a row deletes from each, in a row, and one issue stays exactly when its id differs; this fixes order and multiplicity |
| App.FindIssue | src/App.tsx:110 | the first issue with the id, or none exactly when no issue has it |
| App.Optimistic | src/App.tsx:119-122 | the issues with the id get the new `done` and every other field and issue is unchanged |
| App.Replaced | src/App.tsx:135-137 | the issues with the id are replaced by the server's record as a whole; the others are unchanged |
| App.ReplacedOverridesOptimistic | src/App.tsx:119-137 | after a successful update the optimistic flip leaves no trace |
| App.OptimisticUndone | src/App.tsx:119-122 | flipping back restores the list when all issues with the id agreed on `done` |
| App.VisibleIssues | src/App.tsx:155-157 | all issues for an empty selection; otherwise the order-preserving subsequence whose owner is selected |
| App.VisibleIssuesConcat | src/App.tsx:155-157 | the visible issues of two lists in a row are those of each, in a row, and one issue is visible exactly when nothing is selected or its owner is; this fixes order and multiplicity |
| App.AppAndTableFilters | src/App.tsx:155-157 | App and the issue table agree on a non-empty selection; on an empty one App shows all issues and the table none |
| App.OwnerlessRecordLeavesView | src/App.tsx:135-137 | a server record with owner "" replaces the toggled issue, which then leaves every non-empty selection that does not list "" |
| App.Store.constructor | src/App.tsx:12-23 | empty lists, loading, no error, nothing selected, empty form fields |
| App.Store.BeginLoad | src/App.tsx:28-29 | loading is raised and the error cleared |
| App.Store.FinishLoad | src/App.tsx:31-44 | both lists are taken on success; a rejection sets the load error; `loading` is false on every path |
| App.Store.AddProject | src/App.tsx:50-68 | a blank name changes nothing; a returned project is appended at the end and the field cleared; null or a rejection sets the error and changes nothing else |
| App.Store.AddIssue | src/App.tsx:70-92 | nothing happens for a blank title or an empty selection; a returned issue is appended and the draft reset; null or a rejection sets the error and changes nothing else |
| App.Store.DeleteIssue | src/App.tsx:94-107 | on success every issue with the id goes and the rest keep their order; otherwise the list stays and the error is set |
| App.Store.BeginToggle | src/App.tsx:109-123 | an unknown id changes nothing; otherwise the negated `done` of the first match is applied to every match and sent |
| App.Store.FinishToggle | src/App.tsx:125-145 | a returned record replaces the matches; null keeps the optimistic list; a rejection keeps it and sets the local-only warning |
| App.Store.ToggleIssue | src/App.tsx:109-146 | the whole toggle: unknown ids change nothing; a found id sends the negation of the first match's `done`; a success ends in the server's record, a failure in the optimistic state |
| App.Store.SelectProjects | src/App.tsx:268 | the selection becomes the reported values |
| App.Store.SetNewProjectName | src/App.tsx:290 | typing replaces the project name |
| App.Store.SetNewIssueField | src/App.tsx:339 | only the named field of the draft changes |
| App.Store.DismissError | src/App.tsx:192 | closing the alert clears the error |
| App.Store.ProjectName | src/App.tsx:160-163 | the name of the first project with the id, else "Kein Projekt" |

## Left out

- `fetch`, JSON parsing, `Promise.all` and `console` output are left out. Each exchange is a parameter (`Response<T>` inside the adapter, `Reply<T>` for the components), so HTTP verbs, URLs and headers do not appear.
- `crypto.randomUUID()` is a foreign call. Its result is the parameter `uuid`, which may be any string.
- The locale formatting of `formatDate` (`toLocaleDateString('de-DE')`) is the function parameter `locale`. Only the empty-string case is modelled.
- Api.CreateProject, Api.CreateIssue, Api.DeleteProject, Api.DeleteIssue: the list fetches before the write are not checked for `ok` in the code (both of them in `createIssue`). An error body then either fails to parse or makes `.map`/`.find` throw. Both end in null/false, which is what the model gives for any non-`Ok` list.
- Api.IdMap: server keys are held as integers. The model assumes they are canonical decimal strings, so that `parseInt(p.id)`, `p.id` and `project_id.toString()` all name the same key. A non-numeric key, which makes `Math.max` return `NaN`, is not modelled.
- Text.ParseIntOfIntToString: `parseInt` is modelled for base 10 only. A leading "0x" prefix, which `parseInt` reads as hexadecimal, is not modelled.
- Text.ParseIntOfIntToString: numbers are unbounded integers here, while JavaScript numbers are doubles. The round trip holds in JavaScript for integers up to 2^53 in magnitude. From 10^21 on, `toString` writes exponent form ("1e+21"), and `parseInt` reads back only the digits before the "e".
- Api.NumericPriorityRoundTrip: the same bound applies. A digit string above 2^53 is rounded by `parseInt` to the nearest double, and `toString` then writes that number, not the typed text.
- IssuesListView.ProjectBadgeWidth: `Math.round(w * 0.7)` is computed exactly as `(7w + 5) / 10`. The width `w` is always even, so `7w` never ends in 5. A half-way tie therefore never arises, and the floating-point product lies far from any rounding boundary.
- React scheduling is left out. So are stale closures over `issues` (`App.tsx:99`, `120`) and the re-rendering between `setState` calls. Each handler runs to completion on the state it started from.
- Api.BuildRawChanges: a priority text that does not parse is sent as `NaN`, which `JSON.stringify` writes as `null`. The model keeps it as `NaN` and does not follow it into storage.
- `Header.tsx`, `Footer.jsx`, `Loading.tsx`, `ErrorAlert.tsx`, `ChooseProject.tsx` and `NewForm/NewForm.tsx` are static markup and are not modelled.
- The `disabled` attributes of the inputs while `isCreating` is raised are not modelled. The model assumes the name and draft do not change during a call.
