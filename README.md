# Operately front end: goal page, date field, blob uploads, status overview, paper sizes

This project models, in Dafny, the decision logic of six front-end files of
Operately, a company goal and project tracking application:

- **Blob uploads in the rich-text editor** (`BlobCommand`). Dropping files into
  the editor inserts one "uploading" placeholder node per file at the drop
  position and starts one upload per file. Progress, success and failure then
  rewrite or remove the placeholder, which is located by its temporary id.
  The editor view is a class over a document, modelled as a flat sequence of
  nodes in which a node's position is its index.
- **The date field** (`DateDisplayField`). It chooses the displayed text,
  the element, the error style and the empty-state button from its flags.
  It holds the popover's open state, and it passes a date change on to its
  owner only when the timestamp really changes.
- **The goal page sidebar** (`GoalSidebar`). The retrospective, the
  completion date, the last check-in and the overdue warning are each shown
  under their own guard; the parent goal, due date, champion and reviewer
  sections are always shown. Two actions move a
  person between champion and reviewer. Check-in and retrospective statuses
  map to border colours.
- **The goal page's data preparation and edit actions** (`GoalV3Page`).
  Loaded check-ins, parent goal, work-map tree and targets are turned into
  page state; a missing required field makes preparation throw. Renaming
  the goal rejects blank names. Renaming and editing the description call
  the API and, on success, invalidate the page's cache key.
- **The project status overview** (`StatusOverview`). A closed project shows
  nothing. Otherwise milestones are counted by status, and one of three
  completion displays is chosen: none set, all completed, or a pie chart
  with a "done/total milestones completed" caption.
- **Paper container sizes** (`PaperContainer`). Width and padding classes are
  looked up by page size. `usePaperSizeHelpers` covers every declared size
  except `tiny`, for which it throws.

Helpers whose code is not part of this model become parameters:

- `isOverdue`, `isCurrentYear`;
- the upload function's outcome;
- `generateUniqueId` and `URL.createObjectURL`, given as the ids and URLs
  they produce;
- the API's success.

A thrown exception is mostly modelled as `None` or `Err`. There are two exceptions:

- the throwing ProseMirror insert in `BlobCommand.Editor.CreateNode` becomes
  `inserted == false` with the document unchanged;
- the failure of the status match's `.run()` in
  `GoalSidebar.RetrospectiveSection` becomes the `UnmatchedStatus` view.

## Model

| member | source | states |
|---|---|---|
| `BlobCommand.PlaceholderAttrs` | turboui/src/RichEditor/Blob/AddBlobsEditorCommand.tsx:47-55 | The placeholder is a blob node with the temporary id, the preview URL as `src`, the file name as title and alt, the file's type and size, status "uploading". Attributes the schema would add with their defaults are not part of the model's node |
| `BlobCommand.Placeholder` | turboui/src/RichEditor/Blob/AddBlobsEditorCommand.tsx:47-55 | The node `createNode` builds is a blob carrying the temporary id, so the later updates can find it |
| `BlobCommand.UploadedAttrs` | turboui/src/RichEditor/Blob/AddBlobsEditorCommand.tsx:31 | A successful upload writes exactly three keys: its id, its URL as `src`, and status "uploaded" |
| `BlobCommand.Inserted` | turboui/src/RichEditor/Blob/AddBlobsEditorCommand.tsx:57 | Inserting at `pos` adds exactly one node, at `pos`; the nodes before keep their places and the nodes after shift by one |
| `BlobCommand.FirstIndexOf` | turboui/src/RichEditor/Blob/AddBlobsEditorCommand.tsx:84-98 | The first position whose node has the id; none exactly when no node has it |
| `BlobCommand.LastIndexOf` | turboui/src/RichEditor/Blob/AddBlobsEditorCommand.tsx:84-98 | The last position whose node has the id; none exactly when no node has it |
| `BlobCommand.FindNode` | turboui/src/RichEditor/Blob/AddBlobsEditorCommand.tsx:84-99 | Corrected search: walks the document and returns the first node with the id, with its position, or nothing |
| `BlobCommand.FindNodeAsWritten` | turboui/src/RichEditor/Blob/AddBlobsEditorCommand.tsx:84-99 | Search as written: returning false only skips the node's children, so the walk goes on and the last node with the id wins |
| `BlobCommand.FirstAndLastDisagreeIffRepeated` | turboui/src/RichEditor/Blob/AddBlobsEditorCommand.tsx:87-96 | The two searches differ exactly when two nodes carry the same id |
| `BlobCommand.FindNodeAsWrittenPicksLastMatch` | turboui/src/RichEditor/Blob/AddBlobsEditorCommand.tsx:92 | A document with the id at positions 1 and 2: the search as written returns 2, the corrected one 1 |
| `BlobCommand.AttrsUpdated` | turboui/src/RichEditor/Blob/AddBlobsEditorCommand.tsx:61-73 | Only the found node changes, by taking exactly the given keys over its own; no change when the id is absent or found at position 0 |
| `BlobCommand.Deleted` | turboui/src/RichEditor/Blob/AddBlobsEditorCommand.tsx:75-82 | Exactly the found node is removed and the rest keep their order; no change when the id is absent or found at position 0 |
| `BlobCommand.StackedLength` | turboui/src/RichEditor/Blob/AddBlobsEditorCommand.tsx:9-11 | Placeholders inserted one after another at one position: one per file |
| `BlobCommand.StackedPlaceholderAt` | turboui/src/RichEditor/Blob/AddBlobsEditorCommand.tsx:9-11 | Placeholders inserted one after another at one position come out in reverse file order: file k's sits at offset n-1-k |
| `BlobCommand.StartedUploadAt` | turboui/src/RichEditor/Blob/AddBlobsEditorCommand.tsx:23 | One upload per file, in file order, each reporting to its own placeholder id |
| `BlobCommand.StackStep` | turboui/src/RichEditor/Blob/AddBlobsEditorCommand.tsx:57 | Inserting the next placeholder at the drop position puts it in front of the earlier ones |
| `BlobCommand.PlaceholderFoundWhereInserted` | turboui/src/RichEditor/Blob/AddBlobsEditorCommand.tsx:57-58 | A placeholder inserted where no earlier node has its id is found again at its insertion position |
| `BlobCommand.FailedUploadRestoresDocument` | turboui/src/RichEditor/Blob/AddBlobsEditorCommand.tsx:33-36 | A failed upload removes its placeholder and gives back the document as it was before the insertion |
| `BlobCommand.SuccessfulUploadCompletesPlaceholder` | turboui/src/RichEditor/Blob/AddBlobsEditorCommand.tsx:29-32 | A successful upload turns the placeholder, in place, into a node with the upload's id and URL and status "uploaded", keeping its file attributes |
| `BlobCommand.CompletedPlaceholderAttrs` | turboui/src/RichEditor/Blob/AddBlobsEditorCommand.tsx:31 | The completed node has the new id, the new `src`, status "uploaded", and still the file's title and size |
| `BlobCommand.ProgressKeepsPlaceholderFindable` | turboui/src/RichEditor/Blob/AddBlobsEditorCommand.tsx:23-25 | A progress update does not change where the placeholder is found, so later updates still reach it |
| `BlobCommand.PlaceholderAtStartIsNeverSettled` | turboui/src/RichEditor/Blob/AddBlobsEditorCommand.tsx:62-64 | A placeholder inserted at position 0 is never updated or deleted, because position 0 reads as "not found" |
| `BlobCommand.Editor.CreateNode` | turboui/src/RichEditor/Blob/AddBlobsEditorCommand.tsx:43-59 | Inserts the placeholder at `pos` when `pos` lies in the document; otherwise the transaction throws and the document is unchanged |
| `BlobCommand.Editor.HandleUpload` | turboui/src/RichEditor/Blob/AddBlobsEditorCommand.tsx:16-25 | Placeholder first, then one upload started; a failed insertion starts nothing |
| `BlobCommand.Editor.AddBlobsEditorCommand` | turboui/src/RichEditor/Blob/AddBlobsEditorCommand.tsx:4-14 | Not editable: returns false and changes nothing. Editable: returns true, the document gains the stacked placeholders at `pos`, and one upload per file is started in file order |
| `BlobCommand.Editor.UpdateNodeAttrs` | turboui/src/RichEditor/Blob/AddBlobsEditorCommand.tsx:61-73 | Setting the attributes one key at a time, in one transaction, gives `AttrsUpdated` |
| `BlobCommand.Editor.DeleteNode` | turboui/src/RichEditor/Blob/AddBlobsEditorCommand.tsx:75-82 | The new document is `Deleted` of the old |
| `BlobCommand.Editor.OnProgress` | turboui/src/RichEditor/Blob/AddBlobsEditorCommand.tsx:23-25 | The progress value is written onto the placeholder |
| `BlobCommand.Editor.Settle` | turboui/src/RichEditor/Blob/AddBlobsEditorCommand.tsx:28-36 | Success writes id, URL and "uploaded" onto the placeholder; failure deletes it |
| `DateDisplayField.Defaults` | turboui/src/DateDisplayField/index.tsx:30-43 | The field's default flags and the texts "Set date" and "No date set" |
| `DateDisplayField.FormatDate` | turboui/src/DateDisplayField/index.tsx:217-223 | The year is shown exactly when the date is not in the current year |
| `DateDisplayField.EmptyStateButton` | turboui/src/DateDisplayField/index.tsx:187-215 | Nothing when readonly; otherwise a button with the empty-state text and the field's variant |
| `DateDisplayField.DateDisplay` | turboui/src/DateDisplayField/index.tsx:144-185 | The empty-state button exactly when there is no date and the flag asks for it. Otherwise: a span exactly when readonly; error style exactly for a present overdue date with the warning on; dimmed exactly without a date; text is the formatted date, or the readonly or editable empty text |
| `DateDisplayField.ChangeRequest` | turboui/src/DateDisplayField/index.tsx:46-50 | A change is passed on, once, exactly when the new timestamp differs from the current one |
| `DateDisplayField.DateField.Render` | turboui/src/DateDisplayField/index.tsx:73-92 | Readonly shows the display alone. Otherwise the display opens a popover whose picker selects the date and offers "Clear" exactly when a date is set |
| `DateDisplayField.DateField.HandleChange` | turboui/src/DateDisplayField/index.tsx:46-50 | Appends `ChangeRequest` to the `setDate` calls made |
| `DateDisplayField.DateField.ClearDate` | turboui/src/DateDisplayField/index.tsx:52-55 | Requests no date exactly when a date is set, and always closes the popover |
| `DateDisplayField.DateField.OnOpenChange` | turboui/src/DateDisplayField/index.tsx:85 | The popover's open state follows the request; no date change |
| `GoalSidebar.OverdueWarning` | turboui/src/GoalPage/Sidebar.tsx:234-247 | Shown exactly for a goal whose state is not "closed" and whose due date is set and overdue |
| `GoalSidebar.DueDate` | turboui/src/GoalPage/Sidebar.tsx:31-46 | The due date is readonly exactly when the user cannot edit or the goal has a closing date. Its overdue style is on exactly when there is no closing date. The warning box sits below it |
| `GoalSidebar.CompletedOn` | turboui/src/GoalPage/Sidebar.tsx:48-56 | Shown exactly when the goal has a closing date, readonly and without the overdue style |
| `GoalSidebar.ParentGoalSection` | turboui/src/GoalPage/Sidebar.tsx:58-64 | Company-wide exactly when there is no parent goal; otherwise the parent's link and name |
| `GoalSidebar.ChampionSection` | turboui/src/GoalPage/Sidebar.tsx:86-96 | The champion, readonly exactly when the user cannot edit, with "Set champion" and "No champion" as empty texts |
| `GoalSidebar.ReviewerSection` | turboui/src/GoalPage/Sidebar.tsx:111-121 | The reviewer, readonly exactly when the user cannot edit, with "Set reviewer" and "No reviewer" as empty texts |
| `GoalSidebar.AssignAsReviewer` | turboui/src/GoalPage/Sidebar.tsx:99-102 | (champion c, reviewer r) becomes (none, c) |
| `GoalSidebar.AssignAsChampion` | turboui/src/GoalPage/Sidebar.tsx:124-127 | (champion c, reviewer r) becomes (r, none) |
| `GoalSidebar.SwapRoundTrip` | turboui/src/GoalPage/Sidebar.tsx:97-128 | Moving the champion to reviewer and back restores them as champion; neither move leaves one person in both roles |
| `GoalSidebar.CheckInBorderColor` | turboui/src/GoalPage/Sidebar.tsx:142-150 | on_track is green, caution and concern are yellow, issue is red, and any other status gets no colour, each in both directions |
| `GoalSidebar.LastCheckIn` | turboui/src/GoalPage/Sidebar.tsx:136-182 | Hidden exactly when there are no check-ins or the state is "closed"; otherwise the first check-in with its border colour |
| `GoalSidebar.RetrospectiveColor` | turboui/src/GoalPage/Sidebar.tsx:190-195 | The colour match succeeds exactly for achieved, missed, dropped and partial: green exactly for achieved, red for missed, gray for dropped and yellow for partial |
| `GoalSidebar.RetrospectiveSection` | turboui/src/GoalPage/Sidebar.tsx:184-223 | Nothing unless the state is "closed" and a retrospective exists. Then the card with the status's colour, or the match's failure for any other status |
| `GoalSidebar.Sidebar` | turboui/src/GoalPage/Sidebar.tsx:17-29 | The sections agree: neither the last check-in nor the overdue warning appears beside a retrospective card or a failed status match; a completion date comes with a readonly due date without the overdue style; champion and reviewer are both editable exactly when the user can edit |
| `GoalSidebar.ClosedGoalSidebar` | turboui/src/GoalPage/Sidebar.tsx:136-138 | A goal in the "closed" state shows no last check-in and no overdue warning, and shows nothing in the retrospective section exactly when it has no retrospective; the card appears exactly when it has one and its status is achieved, missed, dropped or partial (any other status makes the match fail) |
| `GoalSidebar.RetrospectiveColorsDistinct` | turboui/src/GoalPage/Sidebar.tsx:190-195 | Distinct closing statuses get distinct colours |
| `GoalSidebar.ClosedGoalDatesAreInert` | turboui/src/GoalPage/Sidebar.tsx:31-56 | With a closing date, both dates render as plain spans without the error style, and the completion date shows its formatted date |
| `GoalSidebar.OpenOverdueGoalIsFlagged` | turboui/src/GoalPage/Sidebar.tsx:31-46 | An editable goal without a closing date and with an overdue due date shows it as a button in the error style; the warning box appears unless the state is "closed" |
| `GoalV3Page.PageCacheKey` | app/assets/js/pages/GoalV3Page/index.tsx:20-22 | The key is "v7-GoalPage.goal-" followed by the goal id and nothing else |
| `GoalV3Page.PageCacheKeyInjective` | app/assets/js/pages/GoalV3Page/index.tsx:20-22 | Distinct goal ids give distinct cache keys |
| `GoalV3Page.LeadingSpace` | app/assets/js/pages/GoalV3Page/index.tsx:101 | Counts the white space that opens the name: every counted character is white space and the next one is not |
| `GoalV3Page.TrailingSpace` | app/assets/js/pages/GoalV3Page/index.tsx:101 | Counts the white space that closes the name: every counted character is white space and the one before is not |
| `GoalV3Page.TrimStart` | app/assets/js/pages/GoalV3Page/index.tsx:101 | What is left is a suffix of the name, only white space was dropped, it does not start with white space, and it is empty exactly when the name is all white space |
| `GoalV3Page.TrimEnd` | app/assets/js/pages/GoalV3Page/index.tsx:101 | What is left is a prefix of the name, only white space was dropped, it does not end with white space, and it is empty exactly when the name is all white space |
| `GoalV3Page.Trim` | app/assets/js/pages/GoalV3Page/index.tsx:101 | `trim()` leaves the middle part of the name that starts after the leading white space, drops only white space around it, and leaves none at either end |
| `GoalV3Page.BlankIffAllWhitespace` | app/assets/js/pages/GoalV3Page/index.tsx:101 | A name trims to "" exactly when it consists of white space only |
| `GoalV3Page.GoalPageSession.UpdateGoalName` | app/assets/js/pages/GoalV3Page/index.tsx:100-113 | A blank name gives false with no API call and no invalidation. Otherwise the name is sent unchanged; the result is true exactly when the call succeeds, and only then is the goal's cache key invalidated |
| `GoalV3Page.GoalPageSession.UpdateDescription` | app/assets/js/pages/GoalV3Page/index.tsx:115-124 | Always calls the API; true and the cache key invalidated exactly when the call succeeds |
| `GoalV3Page.PrepareParentGoal` | app/assets/js/pages/GoalV3Page/index.tsx:152-158 | None exactly for an absent goal; otherwise the goal's link and name |
| `GoalV3Page.CheckInEntry` | app/assets/js/pages/GoalV3Page/index.tsx:133-148 | The three presence checks fail in order with their own messages. A complete activity gives the entry with the update's id, status, date and message, a link to that check-in, and comment count 4 |
| `GoalV3Page.FirstFailureShifts` | app/assets/js/pages/GoalV3Page/index.tsx:133 | The first failing activity after a good first one is the first failing activity of the whole list |
| `GoalV3Page.PrepareCheckIns` | app/assets/js/pages/GoalV3Page/index.tsx:132-150 | Succeeds exactly when every activity does, with one entry per activity in order; otherwise fails with the first failing activity's message |
| `GoalV3Page.PrepareWorkMapData` | app/assets/js/pages/GoalV3Page/index.tsx:160-165 | Defined exactly when every item at every depth has assignees; then the tree keeps its shape, items and order at every level |
| `GoalV3Page.PrepareTarget` | app/assets/js/pages/GoalV3Page/index.tsx:180-198 | Defined exactly when all seven fields are present; copies them and sets view mode |
| `GoalV3Page.PrepareTargetList` | app/assets/js/pages/GoalV3Page/index.tsx:180-199 | Defined exactly when every target is complete; then one entry per target, in order |
| `GoalV3Page.PrepareTargets` | app/assets/js/pages/GoalV3Page/index.tsx:177-200 | No target list gives an empty list; otherwise the list is mapped |
| `StatusOverview.Filter` | app/assets/js/pages/ProjectPage/StatusOverview.tsx:29-30 | Keeps every milestone with the given status as often as it occurs, and nothing else; its length is the number of such milestones |
| `StatusOverview.PendingCount` | app/assets/js/pages/ProjectPage/StatusOverview.tsx:29 | `pending.length` is the number of pending milestones |
| `StatusOverview.DoneCount` | app/assets/js/pages/ProjectPage/StatusOverview.tsx:30 | `done.length` is the number of done milestones |
| `StatusOverview.MilestonesPartitioned` | app/assets/js/pages/ProjectPage/StatusOverview.tsx:29-31 | Pending, done and other milestones together count every milestone once |
| `StatusOverview.TotalExcludesOtherStatuses` | app/assets/js/pages/ProjectPage/StatusOverview.tsx:31 | The total is pending plus done, and it misses exactly the milestones with other statuses |
| `StatusOverview.CompletionParts` | app/assets/js/pages/ProjectPage/StatusOverview.tsx:37-39 | Exactly one display. "Not yet set" iff both counts are 0, "all completed" iff nothing is pending and something is done, the pie iff something is pending, and then 0 <= done < total |
| `StatusOverview.Completion` | app/assets/js/pages/ProjectPage/StatusOverview.tsx:28-42 | The display is chosen from how many milestones are pending and how many are done, each milestone counted once per occurrence |
| `StatusOverview.StatusOverview` | app/assets/js/pages/ProjectPage/StatusOverview.tsx:8-17 | Nothing exactly for a "closed" project; otherwise its status and completion display |
| `StatusOverview.Decimal` | app/assets/js/pages/ProjectPage/StatusOverview.tsx:66 | A count renders as at least one decimal digit and nothing but digits, with no leading zero |
| `StatusOverview.PieCaption` | app/assets/js/pages/ProjectPage/StatusOverview.tsx:66 | The caption starts with the done count followed by "/", and ends with " milestones completed" |
| `StatusOverview.DecimalRoundTrip` | app/assets/js/pages/ProjectPage/StatusOverview.tsx:66 | A count's decimal text reads back as the count |
| `StatusOverview.PieCaptionShape` | app/assets/js/pages/ProjectPage/StatusOverview.tsx:66 | The caption is the done count, "/", the total and " milestones completed" |
| `StatusOverview.PieCaptionDeterminesCounts` | app/assets/js/pages/ProjectPage/StatusOverview.tsx:66 | Equal captions come only from equal done and total counts |
| `PaperContainer.MaxWidthClass` | app/assets/js/components/PaperContainer/index.tsx:32-39 | Large, xlarge and xxlarge, and only they, are first capped at 90% width on small screens; the other sizes get a plain maximum width |
| `PaperContainer.BodyPaddingClass` | app/assets/js/components/PaperContainer/index.tsx:68-75 | Every size has a body padding, starting with its horizontal padding |
| `PaperContainer.ClassNames` | app/assets/js/components/PaperContainer/index.tsx:51-59 | A class is in the result exactly when it is non-empty and given with a true condition |
| `PaperContainer.RootSize` | app/assets/js/components/PaperContainer/index.tsx:49 | No size means medium |
| `PaperContainer.RootClasses` | app/assets/js/components/PaperContainer/index.tsx:48-59 | The caller's class and the fixed classes are always present. The 90% width class is present exactly when fluid, and the size's maximum width exactly when not. No other class is present |
| `PaperContainer.BodyPadding` | app/assets/js/components/PaperContainer/index.tsx:95 | No padding when asked; otherwise the size's body padding |
| `PaperContainer.BodyInnerClasses` | app/assets/js/components/PaperContainer/index.tsx:110 | "pt-4" is present exactly when a banner is shown; the size's padding exactly when padding is on; the caller's class always. No other class is present |
| `PaperContainer.DefaultBodyPadding` | app/assets/js/components/PaperContainer/index.tsx:68-75 | A body in a container without a size gets medium's "px-12 py-10" |
| `PaperContainer.UsePaperSizeHelpers` | app/assets/js/components/PaperContainer/index.tsx:144-216 | Fails with "Unknown size tiny" exactly for tiny; for every other size returns the size and its three table entries |
| `PaperContainer.NegativeHorizontalMargin` | app/assets/js/components/PaperContainer/index.tsx:147-166 | A `-mx-` margin for every size but tiny, which has no case |
| `PaperContainer.NegativeTopMargin` | app/assets/js/components/PaperContainer/index.tsx:168-187 | A `-mt-` margin for every size but tiny, which has no case |
| `PaperContainer.HorizontalPadding` | app/assets/js/components/PaperContainer/index.tsx:189-208 | A `px-` padding for every size but tiny, which has no case |
| `PaperContainer.MarginUndoesPadding` | app/assets/js/components/PaperContainer/index.tsx:147-208 | The negative horizontal margin ends with `-mx-N` for the helper's `px-N`, and except for large that padding is the body's own horizontal padding |
| `PaperContainer.HelperExamples` | app/assets/js/components/PaperContainer/index.tsx:148-208 | xxlarge gives "-mx-16", "-mt-12", "px-16"; large gives "-mx-4 sm:-mx-12", "-mt-10", "px-12" |

## Left out

- Loaders and `PageCache.fetch`: remote I/O. The loaded goal, work map and activities are inputs.
- Upload concurrency: the interleaving of uploads, promise timing and callback order. The command starts the uploads; progress and settlement are separate `Editor` methods that may be called in any order.
- `generateUniqueId` (clock and randomness) and `URL.createObjectURL` (browser): their results are parameters of the command.
- ProseMirror: the schema, nesting and node sizes. Each node is a leaf taking one position, so a position is an index. The schema's default attributes are not modelled: a placeholder carries only what the command passes, and a `progress` attribute is kept whether or not the schema declares it. An insertion outside the document throws in ProseMirror; here it leaves the document unchanged and starts no upload, and the command still returns true.
- `isOverdue`, `isCurrentYear`, `durationHumanized` and `toLocaleDateString`: their code is not part of this model. The first two are function parameters. The warning's duration is represented by the due date it is computed from. A formatted date is represented by whether the year is included.
- BlobCommand.Editor.OnProgress: it writes the progress through the corrected first-match search, so with a repeated id it writes onto the first node; the source as written writes onto the last (see "## Findings").
- BlobCommand.Editor.Settle: it updates or deletes through the same first-match search, so with a repeated id it acts on the first node; the source as written acts on the last.
- BlobCommand.AttrsUpdated, BlobCommand.Deleted, BlobCommand.Editor.UpdateNodeAttrs and BlobCommand.Editor.DeleteNode use the corrected first-match search. When two nodes share an id they act on the first; the source as written acts on the last (see "## Findings").
- DateDisplayField.ChangeRequest and DateDisplayField.DateField.HandleChange: dates are integer timestamps, so an invalid date is not represented. In the source an invalid date's `getTime()` is `NaN`, which differs from itself, so re-selecting an unchanged invalid date still calls `setDate`.
- `Time.parse`, `JSON.parse` and `JSON.stringify` keep their input text as is.
- GoalV3Page.CheckInEntry: the message is kept as text. In the source `JSON.parse` throws on a missing or malformed message, and `prepareCheckIns` then fails where the model succeeds.
- BlobCommand.Editor.OnProgress: the upload's progress is a JavaScript number; the model keeps it as an integer (`Num`), so a fractional progress value is not represented.
- GoalV3Page.GoalPageSession.UpdateGoalName: `apiSucceeds` stands for the whole chain, the API call and the cache invalidation together. Failure of the invalidation alone is not distinguished.
- GoalV3Page.GoalPageSession.UpdateDescription: the same chain of API call and cache invalidation is folded into `apiSucceeds`. Failure of the invalidation alone is not distinguished.
- GoalV3Page.PrepareParentGoal: the goal's id and name are taken as present, as the non-null assertions in the source claim.
- StatusOverview.Completion: the pie chart's percentage is floating point and is not computed. Only the facts that make it well defined are stated: a positive total, with done below it.
- StatusOverview.Completion: the `milestones!` non-null assertion is taken as true; milestones are a sequence.
- Target numbers are reals. The pie's percentage and target values are not used in any arithmetic.
- JSX trees and Tailwind classes beyond the lookup tables. Also left out: the Popover, date-picker and editor wiring, and the `Page` component's prop assembly (`Paths`, timeframe parsing, unimplemented handlers).
- `classNames` joins its classes into one string; the model keeps the list of classes.
- Activity handlers, OwnerCell, ProfileV2Page, GoalEditParentPage, AccountPage, the Storybook configuration and OptionsMenu: outside the modelled files, or built on helpers whose code is not part of this model.

## Findings

| source | as written | input that shows it | evidently intended | confidence | as-written member | corrected member |
|---|---|---|---|---|---|---|
| turboui/src/RichEditor/Blob/AddBlobsEditorCommand.tsx:84-98 | `findNode` returns false from the `descendants` callback to "stop searching". In ProseMirror that only skips the matched node's children, so the walk goes on, each later match overwrites `result`, and the last node with the id is returned | a document whose nodes at positions 1 and 2 both carry id "t" (for example a copied placeholder): the as-written search returns position 2 | the first node in traversal order with the id, as the comment says | medium, not executed (rests on ProseMirror's `descendants` semantics) | `BlobCommand.FindNodeAsWritten`, shown by `BlobCommand.FindNodeAsWrittenPicksLastMatch` | `BlobCommand.FindNode` |
