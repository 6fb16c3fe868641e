# TicketTracker policy model

A Dafny model of the ticket tracker's lifecycle and access-control rules.
It also covers the list and state helpers around them. The tracker is a
React application that manages tickets across their statuses.

- **Tickets and statuses.** Tickets move through nine statuses: DRAFT, CREATED, APPROVED, ACTIVE, IN_PROGRESS, RESOLVED, COMPLETED, CLOSED and CANCELLED.
- **Roles.** Users act in one of three roles: EMPLOYEE, a department officer (DO) or an executive officer (EO).
- **Steps.** A ticket carries workflow steps. Each step has document requirements, which are mandatory or optional and hold at most one uploaded file.
- **Audit trail.** A ticket also carries an audit trail.

The model holds one Dafny module per source file:

- `TicketView`: the detail view's transition table, its role narrowing and its edit/delete/status-change rights.
- `TicketModal`: the modal view's shorter, unfiltered table.
- `TicketCard`: the dashboard card's permission predicates and its action menu.
- `StatusTransition`: the status dialog's mandatory-document check and submit gates.
- `StepCompletion`: the step completion dialog.
- `StepManagement`: the step editor's role flags, `parseInt`-based next step number, requirement-list edits, step status dialog and assignee picker.
- `TicketContext`: the ticket store's lookup, role-scoped filter chain and the `updateStep` gate.
- `AuditTrail`: the audit panel's role filter and search, plus its in-place newest-first sort over an array.
- `Dashboard`: the dashboard's own filter chain, expand set and status-filter sync.
- `SearchPanel`: the search panel.
- `StatusCards`: the status cards.
- `DocumentViewer`: the document viewer, as a class with zoom, rotation, full-screen and image-loading fields.
- `FileContext`: the file store, as a class over a map.
- `Auth`: the authentication service's credential table, mock login, role-name mapping and module catalogue.

Shared pieces live in two modules:

- `TicketTypes`: the entity types.
- `Common`: `Option`, `Array.prototype.filter` with its ordering lemmas, and JavaScript's `trim`, `toLowerCase` and `includes`.

Dates are integer milliseconds, and the wall clock is a parameter `now`. Optional fields are `Option`s.

## Model

| member | source | states |
|---|---|---|
| TicketTypes.AllStatusesExact | src/types/index.ts:47 | TicketStatus has exactly nine values, listed once each in AllStatuses, and their names are pairwise distinct |
| TicketTypes.StatusNameInjective | src/types/index.ts:47 | two statuses have the same name exactly when they are the same status |
| TicketTypes.OfferedStepStatusesOmitClosed | src/components/ticket/StepManagement.tsx:735-737 | the step form offers every StepStatus except CLOSED, each once |
| Common.Filter | src/context/TicketContext.tsx:164-206 | `filter` keeps exactly the elements satisfying the test, never more elements (or more copies) than the input |
| Common.FilterIsSubseq | src/context/TicketContext.tsx:164-206 | a filter's result is an order-preserving subsequence of its input |
| Common.StageAfterFilter | src/context/TicketContext.tsx:179-206 | a conditional `if (f) r = r.filter(p)` after a filter equals one filter by the conjunction |
| Common.Dedup | src/components/dashboard/SearchPanel.tsx:47 | `[...new Set(s)]` has no duplicates and the same elements as `s` |
| Common.TrimEmptyIffBlank | src/components/ticket/AuditTrail.tsx:72 | `s.trim()` is empty exactly when every character of `s` is white space |
| Common.TrimIdempotent | src/components/ticket/StatusTransitionModal.tsx:85 | trimming a trimmed string changes nothing |
| TicketView.ViewTableShape | src/components/ticket/TicketView.tsx:104-114 | the nine-entry table is total, never targets CLOSED, has no self-loop and no repeated target |
| TicketView.ViewTransitions | src/components/ticket/TicketView.tsx:101-133 | for every role the offered targets are within the table entry of the ticket's status; no user gets none |
| TicketView.EoGetsWholeTableEntry | src/components/ticket/TicketView.tsx:116-120 | an EO receives exactly the table entry |
| TicketView.DoTransitionsIgnoreOwnership | src/components/ticket/TicketView.tsx:121-125 | a DO receives IN_PROGRESS from ACTIVE, RESOLVED from IN_PROGRESS, nothing otherwise, whatever the department or creator |
| TicketView.EmployeeOnlySubmitsDrafts | src/components/ticket/TicketView.tsx:126-129 | an EMPLOYEE receives [CREATED] from DRAFT and nothing otherwise |
| TicketView.ResolvedOnlyFromInProgress | src/components/ticket/TicketView.tsx:101-133 | RESOLVED is offered only from IN_PROGRESS and never to an EMPLOYEE |
| TicketView.NoUserNoRights | src/components/ticket/TicketView.tsx:74-102 | without a user canEdit, canDelete and canChangeStatus are false and no transition is offered |
| TicketView.CanDeleteCharacterised | src/components/ticket/TicketView.tsx:74-86 | canDelete implies canEdit, and equals canEdit plus (EO or status DRAFT/CREATED) |
| TicketView.CanChangeStatusByRole | src/components/ticket/TicketView.tsx:88-99 | EO and DO may always change status; an EMPLOYEE exactly as creator of a DRAFT or CREATED ticket |
| TicketView.EmployeeStatusButtonOnlyOnOwnDraft | src/components/ticket/TicketView.tsx:218 | an EMPLOYEE sees the status button exactly on a DRAFT ticket they created |
| TicketView.NotOverdueCases | src/components/ticket/TicketView.tsx:145 | no due date, COMPLETED or CANCELLED means not overdue; an overdue ticket stays overdue as time passes |
| TicketView.CompletedSteps | src/components/ticket/TicketView.tsx:135 | the count of COMPLETED steps is at most the number of steps, and equal to it exactly when every step is COMPLETED |
| TicketView.CompletedStepsLemma | src/components/ticket/TicketView.tsx:135 | the filtered count equals the length exactly when every step passes |
| TicketModal.ModalTransitions | src/components/ticket/TicketModal.tsx:93-115 | every signed-in role receives the same unfiltered table entry; no user receives none |
| TicketModal.ModalTableGaps | src/components/ticket/TicketModal.tsx:96-106 | IN_PROGRESS and RESOLVED have no entry (so yield []), are never targets, and ACTIVE leads to exactly [COMPLETED, CANCELLED] |
| TicketModal.ModalTableWithinViewTable | src/components/ticket/TicketModal.tsx:96-104 | every modal edge is an edge of the detail view's table, and ACTIVE→IN_PROGRESS is not a modal edge |
| TicketModal.CreatorEmployeeOnCreatedTicket | src/components/ticket/TicketModal.tsx:86-112 | a creator EMPLOYEE on a CREATED ticket may change status and is offered ACTIVE, APPROVED and CANCELLED here, nothing in the detail view |
| TicketModal.ViewWithinModalOffPath | src/components/ticket/TicketModal.tsx:93-115 | off the IN_PROGRESS/RESOLVED path, whatever the detail view offers, the modal offers too |
| TicketCard.CanModifyIsEditableEdit | src/components/dashboard/TicketCard.tsx:183-189 | canModify is the view's canEdit restricted to DRAFT/CREATED for every role, EO included, and implies canDelete |
| TicketCard.ApproveIsMarkInProgress | src/components/dashboard/TicketCard.tsx:191-214 | canApprove and canMarkInProgress are the same predicate: CREATED and EO or DO |
| TicketCard.StatusGatedEntries | src/components/dashboard/TicketCard.tsx:196-209 | close/cancel, reopen and reinstate hold exactly for an officer on ACTIVE, CLOSED and CANCELLED |
| TicketCard.EmployeeOnlyModifies | src/components/dashboard/TicketCard.tsx:191-214 | an EMPLOYEE never gets approve, in-progress, close, cancel, reopen or reinstate |
| TicketCard.StatusGroupsExclusive | src/components/dashboard/TicketCard.tsx:191-214 | at most one of the four status-gated groups is enabled |
| TicketCard.CardBeyondViewTable | src/components/dashboard/TicketCard.tsx:196-214 | the detail view's table has no ACTIVE→CLOSED and no CREATED→IN_PROGRESS edge, the moves of the card's Close and Mark In Progress entries; its Approve, Reopen and Reinstate moves are table edges |
| TicketCard.EntryOfRank | src/components/dashboard/TicketCard.tsx:255-321 | the entry at each position of the fixed menu order has that rank |
| TicketCard.RankBijective | src/components/dashboard/TicketCard.tsx:255-321 | menu positions are distinct and below the menu size |
| TicketCard.RankInverse | src/components/dashboard/TicketCard.tsx:255-321 | the entry at an entry's rank is that entry |
| TicketCard.AppendInMenuOrder | src/components/dashboard/TicketCard.tsx:255-321 | pushing an entry that outranks the list keeps it in menu order |
| TicketCard.MenuUpToMembers | src/components/dashboard/TicketCard.tsx:255-321 | the first k pushes hold exactly the offered entries ranked below k |
| TicketCard.MenuUpToOrdered | src/components/dashboard/TicketCard.tsx:255-321 | the first k pushes are in menu order |
| TicketCard.MenuProperties | src/components/dashboard/TicketCard.tsx:252-321 | the full push sequence holds exactly the offered entries, in order, ending with View Details |
| TicketCard.BuildActionMenu | src/components/dashboard/TicketCard.tsx:252-321 | the built list holds exactly the offered entries in the order Modify, Mark In Progress, Approve, Close, Cancel, Reopen, Reinstate, View Details; it is never empty and ends with View Details |
| TicketCard.HeadRanksFirst | src/components/dashboard/TicketCard.tsx:255-321 | in a list in menu order the head ranks below the rest, and the tail is in menu order |
| TicketCard.MenuDeterminedByOffered | src/components/dashboard/TicketCard.tsx:255-321 | two lists in menu order with the same entries are equal, so the menu is fixed by what is offered |
| StatusTransition.ValidateMandatoryDocuments | src/components/ticket/StatusTransitionModal.tsx:32-46 | the nested loops return exactly `MandatoryErrors`, the recursive error list: none unless a DO selects RESOLVED, then one message per unmet requirement in step then requirement order |
| StatusTransition.RequirementErrorsEmpty | src/components/ticket/StatusTransitionModal.tsx:37-41 | a step yields no message exactly when none of its requirements is mandatory and missing |
| StatusTransition.StepsErrorsEmpty | src/components/ticket/StatusTransitionModal.tsx:36-42 | the check reports nothing exactly when every mandatory requirement of every step has a file |
| StatusTransition.RequirementErrorsCount | src/components/ticket/StatusTransitionModal.tsx:38 | one message per mandatory requirement without a file; optional ones produce none |
| StatusTransition.SubmitStatusChange | src/components/ticket/StatusTransitionModal.tsx:58-86 | no status or trimmed remarks under 10 is refused; a sent request carries the ticket id, the selected status and the trimmed remarks, and passed the document check |
| StatusTransition.DocumentsBlockOnlyDoResolving | src/components/ticket/StatusTransitionModal.tsx:66-71 | documents stop a submission exactly for a DO resolving a ticket with a mandatory document missing |
| StatusTransition.SentRemarksAreTrimmed | src/components/ticket/StatusTransitionModal.tsx:82-86 | sent remarks have at least ten characters and are already trimmed |
| StatusTransition.EnabledIffAccepted | src/components/ticket/StatusTransitionModal.tsx:239 | with the shown errors in sync, the enabled button is exactly a submission that passes both gates |
| StatusTransition.StatusLabel | src/components/ticket/StatusTransitionModal.tsx:115-124 | the label is the status name itself exactly for the statuses without a label |
| StatusTransition.StatusDescription | src/components/ticket/StatusTransitionModal.tsx:126-137 | the description is empty exactly for DRAFT and CLOSED |
| StepCompletion.SubmitCompletion | src/components/ticket/StepCompletionModal.tsx:29-53 | trimmed remarks under 10 are refused; otherwise a DO without files is refused; an accepted update is COMPLETED at `now` with trimmed remarks, the user's role and the files or [] |
| StepCompletion.EnabledIffAccepted | src/components/ticket/StepCompletionModal.tsx:202-206 | the button is disabled while loading, and otherwise enabled exactly when the submission would be accepted |
| StepCompletion.AcceptedCompletionPassesStoreGate | src/context/TicketContext.tsx:241-246 | an update the dialog accepts passes the store's DO attachment gate for every role |
| StepCompletion.ResetFormIsDisabled | src/components/ticket/StepCompletionModal.tsx:55-57 | after a successful completion remarks and files are cleared and the button is disabled again; otherwise the form is kept |
| StepManagement.RoleFlagsOrdered | src/components/ticket/StepManagement.tsx:35-41 | only an EO creates steps; DO and EO upload and change step status; an EMPLOYEE has none of the three |
| StepManagement.DigitValue | src/components/ticket/StepManagement.tsx:94 | a digit's value is below 36 |
| StepManagement.DigitPrefix | src/components/ticket/StepManagement.tsx:94 | `parseInt` reads the longest prefix of digits of the radix |
| StepManagement.MaxWithZero | src/components/ticket/StepManagement.tsx:95 | `Math.max(0, ...v)` bounds every value and is 0 or one of them |
| StepManagement.NextStepValue | src/components/ticket/StepManagement.tsx:93-96 | the proposed number is at least 1, exceeds every parsed step number, and is 1 or one more than some step's |
| StepManagement.NatToDecimal | src/components/ticket/StepManagement.tsx:95 | `toString` of a natural number is a non-empty digit string without leading zero |
| StepManagement.DecimalDigitsValue | src/components/ticket/StepManagement.tsx:95 | the decimal digits of n denote n |
| StepManagement.DigitPrefixOfDigits | src/components/ticket/StepManagement.tsx:94 | a string of digits is its own digit prefix |
| StepManagement.MagnitudeOfDecimal | src/components/ticket/StepManagement.tsx:94-95 | the unsigned part of `parseInt` reads `toString(n)` back as n |
| StepManagement.ParseIntOfDecimal | src/components/ticket/StepManagement.tsx:94-95 | `parseInt(n.toString())` is n |
| StepManagement.NextStepNumberIsFresh | src/components/ticket/StepManagement.tsx:93-102 | a step given the proposed number parses above every existing step |
| StepManagement.AddRequirement | src/components/ticket/StepManagement.tsx:295-307 | adding appends exactly one mandatory requirement with the new id, an empty name and description and no file, keeping the rest |
| StepManagement.UpdateRequirement | src/components/ticket/StepManagement.tsx:309-316 | patching keeps length and order; an entry with the id takes each field the patch carries (name, description, type) and keeps the others, its id and its file; every other entry is unchanged |
| StepManagement.RenameNamesEntries | src/components/ticket/StepManagement.tsx:309-316 | renaming by id gives every entry with the id the new name, leaving its type and description, and leaves every other entry as it was |
| StepManagement.RemoveRequirement | src/components/ticket/StepManagement.tsx:318-323 | removal keeps exactly the entries without the id |
| StepManagement.RemoveKeepsOrder | src/components/ticket/StepManagement.tsx:318-323 | removal keeps the other entries in order and leaves no entry with the id |
| StepManagement.RemoveUndoesAdd | src/components/ticket/StepManagement.tsx:295-323 | adding a requirement with a fresh id and removing it restores the list |
| StepManagement.UpdateThenRemove | src/components/ticket/StepManagement.tsx:309-323 | removing after patching removes the same entries as removing alone |
| StepManagement.UpdateIdempotent | src/components/ticket/StepManagement.tsx:309-316 | applying the same patch twice is applying it once |
| StepManagement.UploadRequirementFile | src/components/ticket/StepManagement.tsx:265-290 | no file chosen changes nothing; otherwise only entries with the id get the new file record |
| StepManagement.UploadSatisfiesRequirement | src/components/ticket/StepManagement.tsx:280-287 | after an upload no entry with the id is mandatory-and-missing; others are as before |
| StepManagement.StepStatusSubmit | src/components/ticket/StepManagement.tsx:212-226 | no step or user returns; trimmed remarks under 5 are refused; the update carries the status, `completedAt` exactly for COMPLETED, no remarks and no attachments |
| StepManagement.DoCannotCompleteThroughStatusDialog | src/components/ticket/StepManagement.tsx:223-226 | a DO completing a step through this dialog is always refused by the store's attachment gate |
| StepManagement.OtherStatusChangesPassGate | src/components/ticket/StepManagement.tsx:223-226 | every other status change from this dialog passes the store's gate |
| StepManagement.AvailableAssignees | src/components/ticket/StepManagement.tsx:468-472 | the picker lists exactly the users the role may assign |
| StepManagement.AssigneesByRole | src/components/ticket/StepManagement.tsx:468-472 | the picker is always an ordered subsequence of the users; an EO gets all of them, an EMPLOYEE or no user none |
| TicketContext.GetTicketById | src/context/TicketContext.tsx:156-158 | the result is a ticket of the store with the id, and none exactly when no ticket has it |
| TicketContext.GetTicketByIdFirst | src/context/TicketContext.tsx:156-158 | the lookup returns the first ticket with the id |
| TicketContext.RoleScopedIsFilter | src/context/TicketContext.tsx:164-176 | the role switch is one filter by the role's visibility test |
| TicketContext.GetFilteredIsFilter | src/context/TicketContext.tsx:160-209 | the chain of six filters is one filter by the conjunction of the applied tests |
| TicketContext.FilteredTicketsCharacterised | src/context/TicketContext.tsx:160-209 | the result is an ordered subsequence of the store holding exactly the tickets every applied filter admits |
| TicketContext.RoleScopeHolds | src/context/TicketContext.tsx:164-176 | an EMPLOYEE only sees tickets they created, a DO only their department's |
| TicketContext.CreatedByIgnored | src/context/TicketContext.tsx:23-30 | the declared `createdBy` filter never changes the result |
| TicketContext.EoUnfilteredSeesAll | src/context/TicketContext.tsx:160-209 | an EO (or no user) with no filter gets the whole store |
| TicketContext.UpdateStepGate | src/context/TicketContext.tsx:237-246 | the call goes through only with a user and a module; the attachment refusal is only for a DO completing a step |
| TicketContext.UpdateStepGateCharacterised | src/context/TicketContext.tsx:241-246 | a signed-in user is refused exactly as a DO completing without attachments |
| AuditTrail.ActionDescription | src/components/ticket/AuditTrail.tsx:36-53 | STATUS_CHANGE reads "Status changed from old to new"; an unknown action is described by itself |
| AuditTrail.FindUser | src/components/ticket/AuditTrail.tsx:75 | the found user is in the list with the id; none exactly when no user has it |
| AuditTrail.FindUserFirst | src/components/ticket/AuditTrail.tsx:75 | the lookup returns the first user with the id, whatever follows |
| AuditTrail.SelectedEntries | src/components/ticket/AuditTrail.tsx:56-88 | the selected entries are a sub-multiset of the trail |
| AuditTrail.EmployeeSeesThreeActions | src/components/ticket/AuditTrail.tsx:56-65 | an EMPLOYEE sees only STATUS_CHANGE, CREATED and UPDATED entries |
| AuditTrail.BlankSearchKeepsAll | src/components/ticket/AuditTrail.tsx:72 | a blank term applies no search; EO and DO then get the whole trail |
| AuditTrail.SearchKeepsMatches | src/components/ticket/AuditTrail.tsx:72-87 | with a non-blank term an entry survives exactly when the role admits it and the lower-cased term occurs in author name, action, remarks or description |
| AuditTrail.SortNewestFirst | src/components/ticket/AuditTrail.tsx:91 | the in-place sort leaves the array newest first and a permutation of itself |
| AuditTrail.InsertingStart | src/components/ticket/AuditTrail.tsx:91 | a sorted prefix plus a new last entry is an insertion in progress |
| AuditTrail.InsertingSwap | src/components/ticket/AuditTrail.tsx:91 | exchanging the moving entry with an older predecessor keeps the insertion invariant |
| AuditTrail.InsertingDone | src/components/ticket/AuditTrail.tsx:91 | an insertion that has stopped leaves the prefix newest first |
| AuditTrail.InsertBackward | src/components/ticket/AuditTrail.tsx:91 | one insertion step extends the sorted prefix by one and permutes the array |
| AuditTrail.SwapWithPrevious | src/components/ticket/AuditTrail.tsx:91 | exchanging neighbours changes only those two cells |
| AuditTrail.FilteredAndSortedAuditTrail | src/components/ticket/AuditTrail.tsx:68-92 | the result is the selection newest first; without role filter and search it is the ticket's own array, reordered, and otherwise a new array with the trail untouched |
| AuditTrail.SortSelection | src/components/ticket/AuditTrail.tsx:91 | the selection is sorted newest first in the trail array when it is the trail, in a fresh array otherwise |
| AuditTrail.NoFilterSelectsAll | src/components/ticket/AuditTrail.tsx:63-72 | with no role filter and no search the selection is the whole trail |
| AuditTrail.PanelWithinTrail | src/components/ticket/AuditTrail.tsx:56-91 | the shown entries are a sub-multiset of the trail, so never more of them |
| Dashboard.FilteredIsFilter | src/App.tsx:54-96 | the chain of five filters is one filter by the conjunction of the applied tests |
| Dashboard.FilteredCharacterised | src/App.tsx:54-96 | the result is an ordered subsequence of the tickets holding exactly those passing search, status, priority and assignee |
| Dashboard.DepartmentIgnored | src/App.tsx:78-84 | the department filter never changes the result |
| Dashboard.UnassignedSelectsUnassigned | src/App.tsx:87-93 | `unassigned` keeps exactly the tickets without assignee, in order |
| Dashboard.ClearedShowsAll | src/App.tsx:54-96 | with no filter the whole list is shown |
| Dashboard.ToggleExpand | src/App.tsx:119-127 | toggling flips the membership of the id and of no other |
| Dashboard.ToggleTwice | src/App.tsx:119-127 | toggling twice restores the set |
| Dashboard.SyncStatus | src/App.tsx:47-52 | the sync is a single-key update of `status`: the card's status name, or '' when none |
| Dashboard.SyncedStatusFilters | src/App.tsx:47-96 | after selecting a card the list is the tickets of that status among those the other filters admit |
| SearchPanel.WithKey | src/components/dashboard/SearchPanel.tsx:27-32 | a filter change sets exactly the key and leaves the others unchanged |
| SearchPanel.FiltersExtensional | src/components/dashboard/SearchPanel.tsx:7-13 | filter records agreeing on every key are equal |
| SearchPanel.WithKeyLaws | src/components/dashboard/SearchPanel.tsx:27-32 | setting a key to its value changes nothing; the later of two settings wins |
| SearchPanel.ActiveIffNotCleared | src/components/dashboard/SearchPanel.tsx:34-45 | filters are active exactly when they differ from the cleared record, so clearing deactivates |
| SearchPanel.NonEmptyKeyActivates | src/components/dashboard/SearchPanel.tsx:27-45 | setting any key to a non-empty value makes the filters active |
| SearchPanel.Departments | src/components/dashboard/SearchPanel.tsx:47 | the mapped list has each user's department at the user's position |
| SearchPanel.AvailableDepartments | src/components/dashboard/SearchPanel.tsx:47 | the departments offered are distinct and exactly the users' departments |
| SearchPanel.DepartmentsCovered | src/components/dashboard/SearchPanel.tsx:47 | every user's department is offered and every offered one belongs to a user |
| SearchPanel.AvailableUsers | src/components/dashboard/SearchPanel.tsx:48-52 | the picker lists exactly the users the role admits |
| SearchPanel.PanelUsersByRole | src/components/dashboard/SearchPanel.tsx:48-52 | an EO or no user gets all users in order; an EMPLOYEE only users with their own id |
| StatusCards.StatusCount | src/components/dashboard/StatusCards.tsx:89-91 | a card's count is at most the number of tickets in the store |
| StatusCards.StatusCountCons | src/components/dashboard/StatusCards.tsx:89-91 | a further ticket raises its own status's count by one and no other |
| StatusCards.CountsSumCons | src/components/dashboard/StatusCards.tsx:89-97 | a further ticket raises the sum over the cards by how often its status is listed |
| StatusCards.OccurrencesAbsent | src/components/dashboard/StatusCards.tsx:14-87 | an unlisted status has no card |
| StatusCards.OccurrencesOfDistinct | src/components/dashboard/StatusCards.tsx:14-87 | a listed status in a list without duplicates occurs once |
| StatusCards.EachStatusOnce | src/components/dashboard/StatusCards.tsx:14-87 | every status has exactly one card |
| StatusCards.CountsSumToTotal | src/components/dashboard/StatusCards.tsx:14-97 | the nine counts add up to the number of tickets |
| StatusCards.EmptyCountsSum | src/components/dashboard/StatusCards.tsx:89-91 | with no tickets the card counts sum to zero |
| StatusCards.CardClick | src/components/dashboard/StatusCards.tsx:103 | clicking the active card clears the filter; any other card selects its status |
| StatusCards.ClickTwice | src/components/dashboard/StatusCards.tsx:103 | two clicks on a card that was not active leave the filter cleared |
| DocumentViewer.ZoomStaysValid | src/components/ticket/DocumentViewer.tsx:21-27 | zooming keeps the level a multiple of 25 in [25, 300], moving one step unless at the bound |
| DocumentViewer.ZoomInOutInverse | src/components/ticket/DocumentViewer.tsx:21-27 | zooming in then out (or out then in) returns to the level away from the bounds |
| DocumentViewer.FourQuarterTurns | src/components/ticket/DocumentViewer.tsx:29-31 | a quarter turn keeps the rotation in {0, 90, 180, 270}, always moves it, and four return to the start |
| DocumentViewer.ImageAndPdfExclusive | src/components/ticket/DocumentViewer.tsx:71-72 | no MIME type is both an image and a PDF |
| DocumentViewer.Viewer.constructor | src/components/ticket/DocumentViewer.tsx:15-19 | the viewer starts at 100 %, unrotated, windowed and loading |
| DocumentViewer.Viewer.ZoomIn | src/components/ticket/DocumentViewer.tsx:21-23 | zoom becomes min(zoom + 25, 300), and stays valid |
| DocumentViewer.Viewer.ZoomOut | src/components/ticket/DocumentViewer.tsx:25-27 | zoom becomes max(zoom - 25, 25), and stays valid |
| DocumentViewer.Viewer.Rotate | src/components/ticket/DocumentViewer.tsx:29-31 | rotation becomes (rotation + 90) mod 360, and stays valid |
| DocumentViewer.Viewer.ToggleFullscreen | src/components/ticket/DocumentViewer.tsx:33-35 | full-screen flips |
| DocumentViewer.Viewer.ImageLoaded | src/components/ticket/DocumentViewer.tsx:46-49 | loading ends without error |
| DocumentViewer.Viewer.ImageFailed | src/components/ticket/DocumentViewer.tsx:51-55 | loading ends with an error |
| DocumentViewer.Viewer.RetryImageLoad | src/components/ticket/DocumentViewer.tsx:57-59 | loading restarts with the error cleared |
| FileContext.NewEntry | src/context/FileContext.tsx:49-57 | a new entry carries its id, file and URL |
| FileContext.FileStore.constructor | src/context/FileContext.tsx:37 | the store starts empty |
| FileContext.FileStore.GetFile | src/context/FileContext.tsx:63-65 | the lookup finds the id's entry, or nothing when the id is absent |
| FileContext.FileStore.GetFileUrl | src/context/FileContext.tsx:67-69 | the URL is that of `getFile`'s entry, or absent |
| FileContext.FileStore.StoreFile | src/context/FileContext.tsx:39-61 | a stored id keeps its entry and returns its URL; a new id adds exactly one entry with the fresh URL, which is returned; ids and URLs stay consistent |
| FileContext.FileStore.RemoveFile | src/context/FileContext.tsx:71-81 | removes only the id, revoking its URL; an absent id changes nothing |
| FileContext.FileStore.Cleanup | src/context/FileContext.tsx:83-88 | every URL is revoked and the map is left empty |
| Auth.LoginsDistinct | src/services/authService.ts:106-117 | the ten credential pairs have ten distinct logins |
| Auth.PasswordDetermined | src/services/authService.ts:106-117 | each login has exactly one accepted password |
| Auth.FindByLogin | src/services/authService.ts:123 | the found user is in the list and matches by username or e-mail; none exactly when no user matches |
| Auth.FindByLoginFirst | src/services/authService.ts:123 | the lookup returns the first matching user |
| Auth.MockLogin | src/services/authService.ts:104-140 | null unless the pair is in the table and some demo user matches; a result is a matching user with a valid UUID and `lastLogin` set to now; a listed pair whose matching users all have valid UUIDs succeeds |
| Auth.DatabaseLogin | src/services/authService.ts:19-51 | the database branch succeeds exactly for a listed pair with a matching demo user, and returns such a user with `lastLogin` now |
| Auth.MockLoginFirst | src/services/authService.ts:123-136 | the mock path returns the first demo user the login matches, with `lastLogin` now, and null when that user's id is not a valid UUID, whatever later users match |
| Auth.DatabaseLoginFirst | src/services/authService.ts:38-50 | the database path returns the first demo user the login matches, with `lastLogin` now |
| Auth.LoginPathsAgree | src/services/authService.ts:8-56 | whichever path `login` takes, success needs a listed pair; with valid UUIDs both paths return the same user |
| Auth.LoginIgnoresWhichPassword | src/services/authService.ts:104-140 | two successful logins with the same login used the same password |
| Auth.RoleToDbValues | src/services/authService.ts:76-82 | DO maps to dept_officer and EO to eo; EMPLOYEE has no key and falls back to employee |
| Auth.RoleToDbInjective | src/services/authService.ts:76-82 | distinct roles get distinct database names |
| Auth.RoleOfName | src/types/index.ts:6 | a string names a role exactly when it is one of EMPLOYEE, DO, EO |
| Auth.OfficersRoundTrip | src/services/authService.ts:164 | DO and EO come back unchanged from the database |
| Auth.EmployeeDoesNotRoundTrip | src/services/authService.ts:164 | EMPLOYEE comes back as Employee, which names no role |
| Auth.RoleRoundTrip | src/services/authService.ts:164 | with employee mapped back to EMPLOYEE every role round-trips |
| Auth.AvailableModules | src/services/authService.ts:258 | the result is an ordered subsequence of the catalogue with only active modules |
| Auth.AllFiveModulesAvailable | src/services/authService.ts:184-265 | every module is active, so exactly the five defined modules are returned |
| Auth.ModulesWellFormed | src/services/authService.ts:184-245 | each module has five categories; ids and schema ids are pairwise distinct |

## Left out

- Rendering, styling lookups and date formatting are not modelled. This covers the colour and icon helpers, `Intl.DateTimeFormat`, and the menu position.
- The `(completedSteps / totalSteps) * 100` progress percentages are floating point. Only the integer counts are modelled.
- The wall clock (`new Date()`, `Date.now()`) is a parameter `now` in integer milliseconds.
- React scheduling is not modelled. Every handler runs sequentially on the current state, with no stale closures or batched updates. The status dialog's error list is assumed in sync with its selection; `EnabledIffAccepted` states that assumption.
- The asynchronous store operations (`createTicket`, `updateTicket`, `changeTicketStatus`, `deleteTicket`, `addStep`, `deleteStep`) and the reloads after them are not modelled. They call `TicketService`, which is not part of this model. Only the `updateStep` gate is modelled.
- `ensureUserExistsInDatabase`'s query and insert, and `getAllUsers`' query, are network calls. Only their role-name expressions are modelled.
- The `mockUsers` data list is not part of this model; it is a parameter. So is `validateUUID`/`isValidUUID` from the utilities module, which is a predicate parameter.
- The authentication mode and Supabase availability are boolean parameters of `Auth.Login`.
- File viewing and downloading are not modelled: `handleViewFile`, `handleDownloadFile`, `handleDownload`, and the DOM image reload in `retryImageLoad`. `URL.createObjectURL` is a fresh URL passed to `StoreFile`; `revokeObjectURL` is modelled as the URLs returned.
- `StepManagement`'s reference-file upload, step form, add/edit/delete step handlers and the `uploadedFiles` map are not modelled. They feed the store's asynchronous calls.
- `generateUUID` is not modelled; the new requirement or file id is a parameter.
- `Common.ToLower` lower-cases only ASCII A-Z. JavaScript's full Unicode case mapping is not modelled.
- `Common.IsJsWhitespace` covers the fixed white-space and line-terminator set of `trim`, not other Unicode space separators.
- String lengths are counted in characters, not UTF-16 code units.
- `StepManagement.ParseInt` models `parseInt` on sign, `0x` prefix and digit prefix. JavaScript numbers are unbounded here: no loss of precision for huge values, no `Infinity`. `Math.max` over an empty spread is modelled as 0, as `Math.max(0, ...[])` gives.
- Common.Dedup: the contract does not state that the result keeps the order of first occurrences, only that each element of the input appears once.
- `AuditTrail.SortNewestFirst` does not state stability. `Array.prototype.sort` is stable, but only sortedness and permutation are proved.
- A template literal renders a missing value as `undefined`; `AuditTrail.Shown` renders both `null` and `undefined` that way. JavaScript would print `null` for a null value.
- Console logging is not modelled; no modelled result depends on it. This covers `console.log`, `console.warn` and `console.error`, for example authService.ts lines 41, 129 and 247-263, and DocumentViewer.tsx line 54.

## Findings

| source | as written | input that shows it | evidently intended | confidence | as-written member | corrected member |
|---|---|---|---|---|---|---|
| src/services/authService.ts:164 | The role mapping has no `EMPLOYEE` key, so `EMPLOYEE` falls back to `employee` (line 82). The reverse mapping turns `employee` into `Employee`, which is not a role value. | a user with role `EMPLOYEE` written to the database and read back by `getAllUsers` | `employee` maps back to `EMPLOYEE`, so every role round-trips | not executed | Auth.EmployeeDoesNotRoundTrip | Auth.RoleRoundTrip |
