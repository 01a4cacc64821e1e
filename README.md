# DriveMaster permission management, modelled in Dafny

DriveMaster audits and edits the sharing permissions of a Google Drive folder
tree. It walks the tree and writes one report row per item and permission.
It reads back an edited sheet whose `Action_Type` column asks for ADD, REMOVE
or MODIFY, and carries those actions out (live or as a dry run). Each action
becomes a row of an audit log, and a saved log can be turned into the
inverse actions to roll a run back. Three stand-alone scripts do the same
kind of work: one deletes, below a folder, every permission whose e-mail
address is one of a list of target addresses (ignoring case, whatever the
role), one tabulates every e-mail address against every item, and one
reports what a single address may do on each item.

The model is a set of Dafny modules. Most follow one source file; four
(`Rows`, `Sorting`, `Wrappers`, `ScriptDrive`) hold what several of them
share:

- `Config`: `ROLE_MAP` and its inverse `REVERSE_ROLE_MAP`.
- `Text`: the string helpers the Python code relies on (`strip`, `lower`,
  `upper`, `title`, `capitalize`, `isalnum`, `'/'.join`, `str` and `int` of
  a number).
- `Drive`: the Drive state, the answers of the Drive API, and a
  `DriveService` class whose methods change that state.
- `ReportGenerator`: the recursive listing with its paging and retries,
  and the report rows.
- `PermissionManager`: the planning of the actions, the live and dry-run
  execution, the audit log, and the rollback actions.
- `Controller`: the rules that `run_apply_changes` and `run_rollback`
  apply before and after `PermissionManager`.
- `Batch`: the split of requests into batches of 100 and the collection of
  their replies.
- `Spreadsheet`: the rows and columns `write_report_to_csv` writes.
- `PermissionsRemover`, `PermissionsCook`, `SingleEmail`: the three
  scripts. `ScriptDrive` holds the listing and fetching that the cook and
  single-address scripts share.
- `Rows`, `Sorting` and `Wrappers`: row maps and frames with the `Run`
  type (a value or a raised exception), string ordering and sorting, and
  the `Option` type.

The source's loops are `method`s with invariants. Each is proved against a
specification function, and the properties of that function are proved as
lemmas. The Drive service is a class, so the methods that change
permissions list it in their `modifies` clauses.

## Model

| member | source | states |
|---|---|---|
| PermissionManager.ApiRoleFor | projects/DriveMaster/src/permission_manager.py:136 | a role cell resolves exactly when its stripped, title-cased text is a UI name, and then to the API role whose UI name that is |
| PermissionManager.ApiRoleForIgnoresCaseAndSpaces | projects/DriveMaster/src/permission_manager.py:136 | a UI name written in any letter case with any surrounding white space resolves to its API role |
| PermissionManager.ApiRoleForReportCell | projects/DriveMaster/src/permission_manager.py:136 | the Role cell the report writes for a known API role resolves back to that role |
| PermissionManager.ApiRoleForOthers | projects/DriveMaster/src/permission_manager.py:136-137 | a blank cell or any text that is not a UI name in some case and spacing has no API role |
| PermissionManager.FirstMatch | projects/DriveMaster/src/permission_manager.py:14-18 | the position of the first permission with equal type, equal role and address equal ignoring case; None exactly when no permission matches |
| PermissionManager.FindPermission | projects/DriveMaster/src/permission_manager.py:10-21 | one listing request; the id of the first matching permission, None exactly when the listing failed or nothing matches |
| PermissionManager.FindPermissionId | projects/DriveMaster/src/permission_manager.py:10-21 | the search loop over the listed permissions returns what FindPermission specifies and leaves the Drive as it does |
| PermissionManager.Metadata | projects/DriveMaster/src/permission_manager.py:38 | item_metadata_map has an entry for every report row's Item ID |
| PermissionManager.RollbackBase | projects/DriveMaster/src/permission_manager.py:46-50 | the rollback dict has exactly the twelve columns, with the item id, its name and path, and the root id |
| PermissionManager.RollbackOf | projects/DriveMaster/src/permission_manager.py:43-70 | an entry yields a rollback action exactly when its command is ADD, REMOVE, MODIFY or SET_DOWNLOAD_RESTRICTION |
| PermissionManager.RollbackOfAdd | projects/DriveMaster/src/permission_manager.py:52-54 | ADD is undone by REMOVE of the logged New_* principal type, email and role, on the same item |
| PermissionManager.RollbackOfRemove | projects/DriveMaster/src/permission_manager.py:55-57 | REMOVE is undone by ADD of the logged Original_* type, email and role |
| PermissionManager.RollbackOfModify | projects/DriveMaster/src/permission_manager.py:58-67 | MODIFY is undone by MODIFY on the Original_* principal with Role the logged New_Role and New_Role the logged Original_Role |
| PermissionManager.RollbackOfRestriction | projects/DriveMaster/src/permission_manager.py:68-70 | a download-restriction change is undone by restoring the logged original value, with a blank Action_Type |
| PermissionManager.RollbackColumnsPresent | projects/DriveMaster/src/permission_manager.py:44-50 | every rollback action has the twelve columns, the root id, and the item's name from the live report or 'N/A' |
| PermissionManager.RollbackList | projects/DriveMaster/src/permission_manager.py:41-72 | at most one action per log entry |
| PermissionManager.RollbackListRoot | projects/DriveMaster/src/permission_manager.py:39-50 | every action in the list has the twelve columns and the root id taken from the live report |
| PermissionManager.SelectedOrdered | projects/DriveMaster/src/permission_manager.py:30-42 | the entries rollback inverts are visited in log order, each once |
| PermissionManager.SelectedExactly | projects/DriveMaster/src/permission_manager.py:30-70 | the inverted entries are exactly those with Status SUCCESS and an invertible command |
| PermissionManager.UndoPairsAt | projects/DriveMaster/src/permission_manager.py:42-72 | when actions pair with log positions, the k-th action is the inverse of the entry at the k-th position |
| PermissionManager.RollbackListSelects | projects/DriveMaster/src/permission_manager.py:42-72 | the actions are one per selected entry, in log order, the k-th undoing the k-th successful invertible entry |
| PermissionManager.RollbackListStep | projects/DriveMaster/src/permission_manager.py:42-72 | each further log entry adds its inverse to the actions exactly when it adds its position to the selection |
| PermissionManager.GenerateRollbackActions | projects/DriveMaster/src/permission_manager.py:23-72 | computes RollbackActions: [] for an unreadable log, no Status column or no SUCCESS entry, a KeyError for a missing live-report column, then a KeyError for a column a successful entry lacks, the inverse actions otherwise |
| PermissionManager.InvertLog | projects/DriveMaster/src/permission_manager.py:41-72 | the loop stops at the first successful entry that lacks a column it reads, with that KeyError, and otherwise collects the inverse actions in log order (InvertEntries) |
| PermissionManager.InvertEntries | projects/DriveMaster/src/permission_manager.py:41-72 | a KeyError exactly when some successful entry lacks a column it is read through, naming the column LogMissing gives; otherwise no more actions than log rows |
| PermissionManager.ToRowCells | projects/DriveMaster/src/permission_manager.py:115-129 | reading an audit entry back as a log row gives its item, command, status, root and principal/role fields; a restriction entry has no principal columns |
| PermissionManager.RestrictionsContents | projects/DriveMaster/src/permission_manager.py:106 | a value is among an item's restrictions exactly when one of the item's rows holds it, ignoring case and surrounding spaces |
| PermissionManager.Restrictions | projects/DriveMaster/src/permission_manager.py:106 | the list comprehension keeps at most one value per row and never a blank one (which values: RestrictionsContents) |
| PermissionManager.Desired | projects/DriveMaster/src/permission_manager.py:107-108 | TRUE if any of the item's rows says TRUE, else FALSE if any says FALSE, else no setting |
| PermissionManager.GroupIds | projects/DriveMaster/src/permission_manager.py:105 | the groupby keys are the distinct item ids of the frame, in sorted order |
| PermissionManager.DesiredMapContents | projects/DriveMaster/src/permission_manager.py:104-108 | desired_map pairs exactly the items that have a desired setting with that setting |
| PermissionManager.DesiredOf | projects/DriveMaster/src/permission_manager.py:106-108 | the comprehension and the if/elif over one group's restrictions compute Desired: TRUE beats FALSE, blank cells are ignored |
| PermissionManager.DesiredMap | projects/DriveMaster/src/permission_manager.py:104-108 | desired_map has at most one entry per group, each for one of the group ids and with value TRUE or FALSE (which items: DesiredMapContents) |
| PermissionManager.OriginalRestriction | projects/DriveMaster/src/permission_manager.py:103-111 | an item the live report does not list reads 'N/A' |
| PermissionManager.RestrictStep | projects/DriveMaster/src/permission_manager.py:110-123 | an entry is emitted exactly when the desired value differs from the upper-cased original; no request in dry run or without a change |
| PermissionManager.RestrictStepEntry | projects/DriveMaster/src/permission_manager.py:111-123 | the entry names the item, the upper-cased original and the desired value; DRY_RUN exactly in dry run; SUCCESS only once the file's restriction is set |
| PermissionManager.RestrictEntries | projects/DriveMaster/src/permission_manager.py:110-123 | the entries of the loop over desired_map are those of the changed settings, in order; dry run changes nothing |
| PermissionManager.RestrictEntriesChanged | projects/DriveMaster/src/permission_manager.py:110-123 | one entry per changed setting, in desired_map order, recording the item, the old value and a different new one |
| PermissionManager.ChangedDiffer | projects/DriveMaster/src/permission_manager.py:112 | every changed setting differs from the upper-cased original |
| PermissionManager.PrincipalIn | projects/DriveMaster/src/permission_manager.py:135-152 | a principal is read exactly when the lower-cased type and the address are non-blank and the role resolves; the role is then an API role |
| PermissionManager.LiveAdd | projects/DriveMaster/src/permission_manager.py:134-160 | missing info is SKIPPED without a request; SUCCESS only after a create request that appended the named permission; nothing else changes (the three statuses are LiveAddStatuses) |
| PermissionManager.LiveRemove | projects/DriveMaster/src/permission_manager.py:140-160 | missing info is SKIPPED without a request; a failure leaves the permissions unchanged; SUCCESS only after a request (the three statuses are LiveRemoveStatuses) |
| PermissionManager.LiveRemoveSucceeded | projects/DriveMaster/src/permission_manager.py:144-147 | a successful REMOVE deleted the first permission matching the row's principal and role |
| PermissionManager.LiveModify | projects/DriveMaster/src/permission_manager.py:149-160 | missing or invalid info is SKIPPED without a request; a failure leaves the permissions unchanged (the three statuses are LiveModifyStatuses) |
| PermissionManager.LiveModifySucceeded | projects/DriveMaster/src/permission_manager.py:153-156 | a successful MODIFY gave the first matching permission the new API role and changed nothing else |
| PermissionManager.LiveRow | projects/DriveMaster/src/permission_manager.py:133-161 | an unknown command is SKIPPED without a request; SUCCESS only for ADD, REMOVE or MODIFY after a request; items and restrictions never change (the three statuses are LiveRowStatuses) |
| PermissionManager.LiveRowAsWritten | projects/DriveMaster/src/permission_manager.py:133-161 | the source's handling agrees with LiveRow on ADD, REMOVE and MODIFY |
| PermissionManager.LiveAddStatuses | projects/DriveMaster/src/permission_manager.py:134-160 | an ADD with its principal read ends in the create request: the Drive after it, SUCCESS exactly when it answered Ok, ERROR with the status exactly when it raised; without one, SKIPPED with the Drive untouched |
| PermissionManager.LiveRemoveStatuses | projects/DriveMaster/src/permission_manager.py:140-160 | a REMOVE with its principal read is SKIPPED with the permissions untouched when the listing fails or nothing matches (the ValueError); otherwise it deletes the first match, SUCCESS exactly when the delete answered Ok, ERROR with its status otherwise |
| PermissionManager.LiveModifyStatuses | projects/DriveMaster/src/permission_manager.py:149-160 | a MODIFY with its principal and new role read is SKIPPED with the permissions untouched when the listing fails or nothing matches; otherwise it updates the first match, SUCCESS exactly when the update answered Ok, ERROR with its status otherwise |
| PermissionManager.LiveRowStatuses | projects/DriveMaster/src/permission_manager.py:133-161 | every live row is SKIPPED, with permissions untouched, exactly when it stops before a write request; otherwise the Drive is the one after that request, SUCCESS when it answered Ok and ERROR with its status when it raised |
| PermissionManager.LiveRowAdd | projects/DriveMaster/src/permission_manager.py:134-139 | the ADD case of LiveRowStatuses |
| PermissionManager.LiveRowRemove | projects/DriveMaster/src/permission_manager.py:140-148 | the REMOVE case of LiveRowStatuses |
| PermissionManager.LiveRowModify | projects/DriveMaster/src/permission_manager.py:149-157 | the MODIFY case of LiveRowStatuses |
| PermissionManager.CommandCanonical | projects/DriveMaster/src/permission_manager.py:128 | the command read from Action_Type is upper-case with no surrounding spaces, so reading it again gives itself |
| PermissionManager.ActionEntry | projects/DriveMaster/src/permission_manager.py:129 | the entry logged for an action row names its item, the root and its command, with status DRY_RUN in a dry run and PENDING otherwise, and no details |
| PermissionManager.UnknownCommandReportedAsSuccess | projects/DriveMaster/src/permission_manager.py:133-158 | as written, a misspelt command after an earlier live ADD, REMOVE or MODIFY row is logged SUCCESS with no request, and as the first live row it raises; LiveRow skips it |
| PermissionManager.ActionStep | projects/DriveMaster/src/permission_manager.py:126-162 | a blank Action_Type yields nothing; any other row exactly one entry for its item and command; dry run makes no request; live rows run the corrected LiveRow of the second Finding |
| PermissionManager.ActionEntries | projects/DriveMaster/src/permission_manager.py:126-162 | the entries of the action loop match the action rows one to one; dry run leaves the Drive unchanged |
| PermissionManager.ActionEntriesPerRow | projects/DriveMaster/src/permission_manager.py:126-162 | one entry per action row, in frame order, naming its item and command; DRY_RUN in dry run, otherwise SUCCESS, SKIPPED or ERROR |
| PermissionManager.ExpectedRowsAt | projects/DriveMaster/src/permission_manager.py:126 | the expected entries are those of the rows with a non-blank Action_Type, in order |
| PermissionManager.RestrictPhase | projects/DriveMaster/src/permission_manager.py:101-123 | the analysis never changes items or permissions; dry run or a KeyError leaves the Drive unchanged |
| PermissionManager.ProcessSpec | projects/DriveMaster/src/permission_manager.py:75-165 | no readable input or a blank root id gives no entries and N/A_RootID_FromProcess with nothing changed; a returned run carries the input's root id; a dry run changes no permission or restriction; items never change; with no live report given the report is the corrected one of the first Finding |
| PermissionManager.ProcessChanges | projects/DriveMaster/src/permission_manager.py:75-165 | the method computes ProcessSpec; with no live report given it builds the corrected report of the first Finding |
| PermissionManager.ProcessFrame | projects/DriveMaster/src/permission_manager.py:94-165 | once the frame and root are read: items never change, the returned root is that root, a dry run changes no permission or restriction |
| PermissionManager.ProcessEntries | projects/DriveMaster/src/permission_manager.py:75-165 | a run that finds a root id and returns has the Restrict Download entries first, then one entry per action row in frame order, recording its item and command |
| PermissionManager.FrameEntries | projects/DriveMaster/src/permission_manager.py:94-165 | the same layout for a frame already read |
| PermissionManager.RestrictPhaseEntries | projects/DriveMaster/src/permission_manager.py:101-123 | every entry of the Restrict Download analysis is a restriction entry |
| PermissionManager.RollbackActions | projects/DriveMaster/src/permission_manager.py:23-72 | an unreadable log, no Status column or no SUCCESS entry gives no action; a live report row missing Item ID, Item Name or Full Path raises the KeyError of the first such column of the first incomplete row (MissingDescriptionAt), and otherwise a first row without Root Folder ID raises that KeyError; with a complete live report, it raises exactly when a successful log entry lacks a column it is read through, with the KeyError LogMissing names (LogMissingAt); every error is the KeyError of a live-report or log column; never more actions than log rows |
| PermissionManager.FirstMissingKey | projects/DriveMaster/src/permission_manager.py:38 | one row of the comprehension raises for Item ID first, then Item Name, then Full Path, naming a column the row lacks |
| PermissionManager.MissingDescription | projects/DriveMaster/src/permission_manager.py:38 | the comprehension raises exactly when some live row lacks one of the three columns, and only for one of them |
| PermissionManager.MissingDescriptionAt | projects/DriveMaster/src/permission_manager.py:38 | the KeyError is the one of the first incomplete row |
| PermissionManager.EntryColumns | projects/DriveMaster/src/permission_manager.py:42-69 | the columns one successful entry is read through start with Item ID and Action_Command, all are log columns, and a command with no inverse reads no more |
| PermissionManager.FirstAbsent | projects/DriveMaster/src/permission_manager.py:42-69 | None exactly when the entry has every column of the list; otherwise a listed column the entry lacks |
| PermissionManager.FirstAbsentFirst | projects/DriveMaster/src/permission_manager.py:42-69 | the column found is the first missing one: every column listed before it is present |
| PermissionManager.EntryMissing | projects/DriveMaster/src/permission_manager.py:42-69 | only a successful entry raises, with a log column it lacks; a successful entry with every log column raises nothing |
| PermissionManager.LogMissing | projects/DriveMaster/src/permission_manager.py:41-70 | the column named is always a log column |
| PermissionManager.FirstErrorNone | projects/DriveMaster/src/permission_manager.py:41-70 | the loop over the first n entries raises nothing exactly when none of those entries raises |
| PermissionManager.FirstErrorKeeps | projects/DriveMaster/src/permission_manager.py:41-70 | once an entry has raised, later entries do not change the error: the loop stops there |
| PermissionManager.FirstErrorAt | projects/DriveMaster/src/permission_manager.py:41-70 | when entry k is the first to raise, the loop raises entry k's error |
| PermissionManager.LogMissingAt | projects/DriveMaster/src/permission_manager.py:41-70 | the KeyError is the one of the first entry that raises |
| PermissionManager.LogComplete | projects/DriveMaster/src/permission_manager.py:41-70 | a log whose entries have every log column raises no KeyError in the loop |
| PermissionManager.RollbackMissingCommand | projects/DriveMaster/src/permission_manager.py:42 | a log of one successful entry with no Action_Command column raises `KeyError: 'Action_Command'`, even against an empty live report |
| PermissionManager.ReadInput | projects/DriveMaster/src/permission_manager.py:81-92 | an action list is always read; a sheet is read exactly when it exists, has a Root Folder ID column and is not empty; the root id is the first row's Root Folder ID, or "" for an empty list |
| PermissionManager.RestrictCheck | projects/DriveMaster/src/permission_manager.py:101-105 | no error exactly when the report has Item ID and Restrict Download and the frame has Item ID; otherwise the KeyError of the first missing column |
| PermissionManager.AnalyseRestrictions | projects/DriveMaster/src/permission_manager.py:101-123 | the method computes RestrictPhase |
| PermissionManager.BuildDesiredMap | projects/DriveMaster/src/permission_manager.py:104-108 | the loop builds DesiredMap over all groups |
| PermissionManager.RestrictionsOf | projects/DriveMaster/src/permission_manager.py:106 | the comprehension computes Restrictions over the whole frame |
| PermissionManager.ApplyRestrictions | projects/DriveMaster/src/permission_manager.py:110-123 | the loop computes RestrictEntries |
| PermissionManager.ApplyRestriction | projects/DriveMaster/src/permission_manager.py:111-123 | one iteration computes RestrictStep |
| PermissionManager.ApplyActions | projects/DriveMaster/src/permission_manager.py:126-162 | the loop computes ActionEntries |
| PermissionManager.ApplyAction | projects/DriveMaster/src/permission_manager.py:128-162 | one iteration computes ActionStep |
| PermissionManager.ApplyLiveRow | projects/DriveMaster/src/permission_manager.py:133-161 | the try block computes LiveRow, the corrected member of the second Finding: an unknown command is SKIPPED |
| PermissionManager.ApplyAdd | projects/DriveMaster/src/permission_manager.py:134-139 | the ADD branch computes LiveAdd |
| PermissionManager.ApplyRemove | projects/DriveMaster/src/permission_manager.py:140-148 | the REMOVE branch computes LiveRemove |
| PermissionManager.ApplyModify | projects/DriveMaster/src/permission_manager.py:149-157 | the MODIFY branch computes LiveModify |
| Config.RoleMapContents | projects/DriveMaster/src/config.py:4-11 | ROLE_MAP has exactly the six API roles reader, commenter, writer, fileOrganizer, organizer and owner, with the six UI names as its values |
| Config.ReverseRoleMapContents | projects/DriveMaster/src/config.py:15 | the inverted dictionary pairs each of the six UI names with its API role |
| Config.ReverseRoleMapKeys | projects/DriveMaster/src/config.py:15 | the keys of REVERSE_ROLE_MAP are the six UI names |
| Config.ReverseAfterForward | projects/DriveMaster/src/config.py:15 | REVERSE_ROLE_MAP[ROLE_MAP[r]] == r for every API role r |
| Config.ForwardAfterReverse | projects/DriveMaster/src/config.py:15 | ROLE_MAP[REVERSE_ROLE_MAP[u]] == u for every UI name u, and the inverse has six entries |
| Config.UiNameIsTitled | projects/DriveMaster/src/config.py:4-11 | every UI name is unchanged by title-casing and by stripping, and begins and ends with a letter |
| Batch.NumBatches | projects/DriveMaster/src/batch_handler.py:16-20 | range(0, n, 100) has the fewest offsets whose batches reach n |
| Batch.Size | projects/DriveMaster/src/batch_handler.py:21 | every batch has between 1 and 100 requests and stays within the list; only the last can be short |
| Batch.BatchOf | projects/DriveMaster/src/batch_handler.py:21 | the slice requests[i:i+100] has the batch's size |
| Batch.ResponseOf | projects/DriveMaster/src/batch_handler.py:30-50 | a request has a response exactly when its callback was called without an exception |
| Batch.BatchOutcome | projects/DriveMaster/src/batch_handler.py:46-54 | one result per request of the batch; None for all of them when execute raises, otherwise each request's response by id |
| Batch.AllResults | projects/DriveMaster/src/batch_handler.py:17-54 | after b batches, min(100 b, n) results |
| Batch.AllResultsAt | projects/DriveMaster/src/batch_handler.py:20-54 | result p is what batch p / 100 gave its request p % 100 |
| Batch.Offsets | projects/DriveMaster/src/batch_handler.py:23-25 | the k-th progress call before the last is (100 k, total) |
| Batch.Progress | projects/DriveMaster/src/batch_handler.py:23-57 | each batch's start offset with the total, then (total, total); for no requests only the final call |
| Batch.ExecuteRequestsInBatches | projects/DriveMaster/src/batch_handler.py:4-59 | the loop returns AllResults over every batch, and makes the Progress calls exactly when a callback is given |
| Batch.ExecuteSlice | projects/DriveMaster/src/batch_handler.py:21-54 | one pass of the loop adds BatchOutcome for its slice |
| Batch.RegisterRequests | projects/DriveMaster/src/batch_handler.py:41-44 | request_map holds the batch's j-th request under str(j), for exactly the ids 0 to k-1 |
| Batch.IdSetNext | projects/DriveMaster/src/batch_handler.py:42-43 | str(len(request_map)) is always a new id |
| Batch.ExecuteBatch | projects/DriveMaster/src/batch_handler.py:46-54 | reading the responses in numeric id order gives BatchOutcome |
| Batch.Joined | projects/DriveMaster/src/batch_handler.py:20-21 | the first b slices, concatenated, are the first min(100 b, n) requests |
| Batch.BatchesCover | projects/DriveMaster/src/batch_handler.py:20-21 | the slices concatenate to the request list, and none is empty or longer than 100 |
| Batch.ResultsPerRequest | projects/DriveMaster/src/batch_handler.py:34-59 | exactly one result per request; None when its batch crashed or its callback reported an error, otherwise its response |
| Batch.IdsInOrder | projects/DriveMaster/src/batch_handler.py:42-49 | int(str(j)) == j and the ids are distinct, so sorting them numerically gives insertion order |
| Spreadsheet.Present | projects/DriveMaster/src/spreadsheet_handler.py:20 | a column is kept exactly when it is in column_order and in the frame |
| Spreadsheet.Positions | projects/DriveMaster/src/spreadsheet_handler.py:17-20 | the kept columns sit at increasing positions of column_order |
| Spreadsheet.ReportCsvShape | projects/DriveMaster/src/spreadsheet_handler.py:7-20 | nothing is written exactly for empty data; otherwise one line per row, the columns of column_order the frame has in that order, ACTION last and blank, every other cell the row's value |
| Spreadsheet.ReportCsvDropsOthers | projects/DriveMaster/src/spreadsheet_handler.py:17-20 | Allow Discovery and Expiration Time never reach the CSV |
| Spreadsheet.ReportCsv | projects/DriveMaster/src/spreadsheet_handler.py:5-22 | write_report_to_csv writes nothing exactly for empty data; otherwise one line per row, each as wide as the header (the columns themselves: ReportCsvShape) |
| Rows.Get | projects/DriveMaster/src/permission_manager.py:81-84 | fillna(''): a missing cell reads "" |
| Rows.Columns | projects/DriveMaster/src/permission_manager.py:86-101 | a frame's columns are exactly the keys of its rows |
| Rows.Frame | projects/DriveMaster/src/permission_manager.py:82 | pd.DataFrame(rows).fillna('') gives every row every column, "" where it had none |
| Rows.FrameColumns | projects/DriveMaster/src/permission_manager.py:82 | framing keeps the columns and every cell |
| Rows.StrGet | projects/DriveMaster/src/permission_manager.py:128-129 | str(row.get(col)) reads "None" when the frame has no such column |
| Rows.RawCell | projects/DriveMaster/src/permission_manager.py:103 | a cell of a frame built without fillna reads "nan" when missing |
| Rows.NaRead | projects/DriveMaster/src/permission_manager.py:29 | a cell read back from a file with fillna('') is "" exactly when it was "" or one of pandas' NA marker strings, and otherwise the cell written |
| Rows.NaReadIdempotent | projects/DriveMaster/src/permission_manager.py:85 | reading a cell back a second time changes nothing |
| Rows.LiteralsRead | projects/DriveMaster/src/permission_manager.py:44 | the command words ADD, REMOVE and MODIFY read back unchanged, and the 'N/A' placeholder reads back as "" |
| Rows.ReadBack | projects/DriveMaster/src/permission_manager.py:29 | a row read back keeps its columns, each cell read back |
| Rows.ReadBackMatch | projects/DriveMaster/src/permission_manager.py:85 | a row with the same columns whose every cell is the other row's cell read back is that row read back |
| Rows.ReadBackPlain | projects/DriveMaster/src/permission_manager.py:85 | a row without NA marker cells reads back unchanged |
| Rows.PlainCell | projects/DriveMaster/src/permission_manager.py:85 | each cell of a row without NA marker cells reads back unchanged, a missing one as "" |
| Rows.GetReadBack | projects/DriveMaster/src/permission_manager.py:29 | the fillna('') cell of a row read back is the cell written, read back |
| Text.Lower | projects/DriveMaster/src/permission_manager.py:17 | str.lower, character by character |
| Text.Upper | projects/DriveMaster/src/permission_manager.py:106-111 | str.upper, character by character |
| Text.LowerIdempotent | projects/DriveMaster/src/permission_manager.py:17 | lower-casing twice is lower-casing once |
| Text.Strip | projects/DriveMaster/src/permission_manager.py:106-126 | the result neither begins nor ends with white space |
| Text.StripIsSlice | projects/DriveMaster/src/permission_manager.py:106-126 | strip keeps a slice and drops only white space around it |
| Text.Title | projects/DriveMaster/src/permission_manager.py:136 | str.title keeps the length and which characters are letters |
| Text.TitleIdempotent | projects/DriveMaster/src/permission_manager.py:136 | title-casing twice is title-casing once |
| Text.TitleIgnoresCase | projects/DriveMaster/src/permission_manager.py:136 | strings equal ignoring case title-case alike |
| Text.LowerOfTitle | projects/DriveMaster/src/permission_manager.py:136 | title-casing changes only the case of letters |
| Text.Capitalize | projects/DriveMaster/src/report_generator.py:132 | str.capitalize: first character upper-cased, the rest lower-cased |
| Text.Join | projects/DriveMaster/Sergios_Code/single_email_permissions.py:178 | the parts joined by the separator: "" for no parts, the part itself for one, and otherwise starting with the first part and ending with the last |
| Text.JoinSnoc | projects/DriveMaster/Sergios_Code/single_email_permissions.py:178 | joining one more part appends the separator and that part |
| Text.DecimalString | projects/DriveMaster/src/batch_handler.py:42 | str(n): decimal digits without a leading zero |
| Text.ParseDecimalString | projects/DriveMaster/src/batch_handler.py:42-49 | int(str(n)) == n |
| Text.DecimalStringInjective | projects/DriveMaster/src/batch_handler.py:42 | different numbers give different ids |
| Sorting.AtMostTotal | projects/DriveMaster/src/permission_manager.py:105 | Python's string order is total |
| Sorting.Insert | projects/DriveMaster/Sergios_Code/drive_permissions_cook_V9_02May2025.py:225 | inserting keeps a list strictly sorted and adds exactly x |
| Sorting.SortedDistinct | projects/DriveMaster/Sergios_Code/drive_permissions_cook_V9_02May2025.py:225 | sorted(set(xs)) is strictly sorted and holds exactly the elements of xs |
| Sorting.SortedUnique | projects/DriveMaster/src/permission_manager.py:105 | a strictly sorted list is determined by its elements |
| Sorting.IndexOf | projects/DriveMaster/Sergios_Code/drive_permissions_cook_V9_02May2025.py:238 | list.index: the first position holding y |
| Controller.Filtered | projects/DriveMaster/src/controller.py:17 | the join keeps only alphanumeric characters, '_' and '-' |
| Controller.SanitizeFilename | projects/DriveMaster/src/controller.py:15-17 | never empty, only alphanumeric characters, '_' and '-', either "unnamed_item" or the kept text |
| Controller.KeptAppend | projects/DriveMaster/src/controller.py:16-17 | the replace-and-filter chain works character by character |
| Controller.KeptChar | projects/DriveMaster/src/controller.py:16-17 | a space, '/' or '\\' becomes '_'; an alphanumeric, '_' or '-' is kept; anything else is dropped |
| Controller.SanitizeIdempotent | projects/DriveMaster/src/controller.py:15-17 | sanitising a sanitised name returns it unchanged |
| Controller.SanitizeUnnamed | projects/DriveMaster/src/controller.py:17 | "unnamed_item" comes out when no character survives, otherwise the kept text |
| Controller.KeptEmpty | projects/DriveMaster/src/controller.py:16-17 | no character survives exactly when the name has neither a separator nor a kept character |
| Controller.CsvWrite | projects/DriveMaster/src/spreadsheet_handler.py:7-9 | writing report data produces a file exactly when the data is not empty |
| Controller.ResolveRoot | projects/DriveMaster/src/controller.py:61-98 | a non-empty override wins over the root id found in the file or log |
| Controller.ApplyOutcome | projects/DriveMaster/src/controller.py:59-78 | apply returns False exactly when the resolved root id is empty or 'N/A_RootID_FromProcess'; failing or with an empty trail it writes nothing and makes no request; otherwise it ends by saving the trail |
| Controller.TempRow | projects/DriveMaster/src/controller.py:116-117 | the row read back from the temporary sheet (read_excel, then fillna('') at permission_manager.py:85) has exactly the twelve columns, each the action's value read back: "" where the action lacks it or holds an NA marker |
| Controller.TempRowKeeps | projects/DriveMaster/src/controller.py:116-117 | for a row with exactly the twelve columns, the sheet gives that row read back |
| Controller.TempRowOfRollback | projects/DriveMaster/src/controller.py:116-117 | a rollback action comes back from the temporary sheet with each NA marker cell "" (an item missing from the live report has its 'N/A' path and name read back as ""), and unchanged when it has no NA marker cell |
| Controller.TempSheet | projects/DriveMaster/src/controller.py:117 | one sheet row per rollback action, in order |
| Controller.RollbackRootRule | projects/DriveMaster/src/controller.py:90-98 | rollback gives up exactly for an unreadable log, one without a Root Folder ID column, an empty one, or a blank first root id; otherwise a non-empty override wins |
| Controller.RollbackFinish | projects/DriveMaster/src/controller.py:105-131 | the run raises exactly when the undo raised, with the same exception and with the pre-rollback archive still written; otherwise it returns True; the archive is always the first file written |
| Controller.RollbackOutcome | projects/DriveMaster/src/controller.py:86-98 | rollback returns False, with no request made, exactly when the log is not usable |
| Controller.RollbackLogSaved | projects/DriveMaster/src/controller.py:126-128 | an audit log is saved exactly when the rollback trail is not empty, and it holds that trail |
| Controller.RollbackNothingToUndo | projects/DriveMaster/src/controller.py:110-112 | with no rollback action no request is made and the run returns True having written only the archive |
| Controller.GetItemName | projects/DriveMaster/src/controller.py:19-24 | one files.get request; the item's name, or "UnknownItem" when it fails |
| Controller.UndoLog | projects/DriveMaster/src/controller.py:110-122 | inverting the log and processing the temporary sheet with the live report given computes UndoSpec |
| Controller.CommandOfWord | projects/DriveMaster/src/permission_manager.py:128 | an Action_Type already in capitals is its own command |
| Controller.TempOfAdd | projects/DriveMaster/src/permission_manager.py:52-54 | a log row of an ADD gives the sheet row of a REMOVE of the logged new principal type, address and role, each read back |
| Controller.TempOfRemove | projects/DriveMaster/src/permission_manager.py:55-57 | a log row of a REMOVE gives the sheet row of an ADD of the logged original principal type, address and role, each read back |
| Controller.TempOfModify | projects/DriveMaster/src/permission_manager.py:58-67 | a log row of a MODIFY gives the sheet row of a MODIFY of the logged original principal with the two roles swapped, each read back |
| Controller.InverseOfAdd | projects/DriveMaster/src/permission_manager.py:29-54 | a logged ADD entry, read back from the log and inverted, gives a REMOVE of the entry's new principal type, address and role, each cell read back |
| Controller.InverseOfRemove | projects/DriveMaster/src/permission_manager.py:29-57 | a logged REMOVE entry gives an ADD of the entry's original principal type, address and role, each cell read back |
| Controller.InverseOfModify | projects/DriveMaster/src/permission_manager.py:29-67 | a logged MODIFY entry gives a MODIFY of the entry's original principal with the roles swapped, each cell read back |
| Controller.UndoAdd | projects/DriveMaster/src/permission_manager.py:52-54 | a logged successful ADD rolls back to a REMOVE of the principal type, address and role it added, on the same item, each cell as the log and the sheet read it back |
| Controller.UndoRemove | projects/DriveMaster/src/permission_manager.py:55-57 | a logged successful REMOVE rolls back to an ADD of the principal type, address and role it removed, each cell read back |
| Controller.UndoModify | projects/DriveMaster/src/permission_manager.py:58-67 | a logged successful MODIFY rolls back to a MODIFY of the same principal with the two roles swapped, each cell read back |
| Controller.RollbackTwiceRestores | projects/DriveMaster/src/permission_manager.py:52-67 | logging an ADD, REMOVE or MODIFY, rolling it back, logging that and rolling back again gives the original command, and the item and principal/role fields as a file read gives them back (NA markers as "") |
| Controller.RollbackTwicePlain | projects/DriveMaster/src/permission_manager.py:52-67 | for a row with an Item ID and no NA marker cell, the double rollback gives back the row's own item, principal and role cells exactly |
| Controller.RollbackRaisesOnReportAsWritten | projects/DriveMaster/src/permission_manager.py:39 | as written, rollback stops with a KeyError for Root Folder ID whenever the log has a successful entry and the live report a row |
| Controller.RestrictRaisesOnReportAsWritten | projects/DriveMaster/src/permission_manager.py:101-103 | as written, the Restrict Download analysis stops with a KeyError whenever the live report has a row |
| Controller.RollbackOnReport | projects/DriveMaster/src/permission_manager.py:38-50 | with corrected report rows and a log whose entries have every column the loop reads, rollback returns, with the twelve columns and the reported folder as root |
| Controller.RestrictOnReport | projects/DriveMaster/src/permission_manager.py:101-123 | with corrected report rows, the Restrict Download analysis never stops for a missing column |
| Controller.RunApplyChanges | projects/DriveMaster/src/controller.py:53-78 | the run computes ApplySpec: process the sheet, resolve the root, give up or stop early, archive the report and save the trail; the archived report is the corrected one of the first Finding |
| Controller.RunRollback | projects/DriveMaster/src/controller.py:80-131 | the run computes RollbackSpec: check the log, resolve the root, archive the live report, undo the log and save a non-empty trail; the live report is the corrected one of the first Finding |
| Controller.ApplySpec | projects/DriveMaster/src/controller.py:53-78 | items never change; a dry run changes no permission or restriction; no sheet and no override returns False with nothing written or changed; an exception from process_changes is raised with nothing written |
| Controller.ApplyFinish | projects/DriveMaster/src/controller.py:61-78 | giving up, stopping early or archiving and saving changes no Drive contents |
| Controller.RollbackRoot | projects/DriveMaster/src/controller.py:86-98 | a resolved root id is never blank; there is one exactly when the log is usable |
| Controller.RollbackSpec | projects/DriveMaster/src/controller.py:80-131 | items never change; a dry run changes no permission or restriction; an unusable log returns False with nothing written or changed |
| Controller.UndoSpec | projects/DriveMaster/src/controller.py:110-122 | items never change; a dry run changes no permission or restriction; with no rollback action nothing is changed and no entry is logged |
| Controller.RollbackTwiceAdd | projects/DriveMaster/src/permission_manager.py:52-54 | the ADD case of RollbackTwiceRestores |
| Controller.RollbackTwiceRemove | projects/DriveMaster/src/permission_manager.py:55-57 | the REMOVE case of RollbackTwiceRestores |
| Controller.RollbackTwiceModify | projects/DriveMaster/src/permission_manager.py:58-67 | the MODIFY case of RollbackTwiceRestores |
| ReportGenerator.FetchPermissions | projects/DriveMaster/src/report_generator.py:10-38 | the item's permissions or []; at most max_retries requests; Drive contents unchanged |
| ReportGenerator.FetchStopsOnOtherErrors | projects/DriveMaster/src/report_generator.py:26-36 | an error outside 403, 429, 500, 502, 503 and 504 ends the fetch after one request, with [] |
| ReportGenerator.FetchSucceedsFirstTime | projects/DriveMaster/src/report_generator.py:20-24 | a request without error returns the item's permissions after one request |
| ReportGenerator.GetFilePermissions | projects/DriveMaster/src/report_generator.py:10-38 | the retry loop computes FetchPermissions |
| ReportGenerator.ListFolder | projects/DriveMaster/src/report_generator.py:40-55 | nothing is listed when the folder's metadata cannot be read; no Drive contents change |
| ReportGenerator.ListPages | projects/DriveMaster/src/report_generator.py:57-94 | the page loop changes no Drive contents |
| ReportGenerator.ListEntries | projects/DriveMaster/src/report_generator.py:69-76 | the loop over one page's entries changes no Drive contents |
| ReportGenerator.ListFolderBelow | projects/DriveMaster/src/report_generator.py:52-76 | every listed item is strictly below the folder (so the folder is not listed), not trashed, and its path extends the folder's path '/' + name and ends with '/' and its own name |
| ReportGenerator.ListPagesBelow | projects/DriveMaster/src/report_generator.py:57-94 | every item listed from the pages is below the folder with a path under the folder's path |
| ReportGenerator.ListEntriesBelow | projects/DriveMaster/src/report_generator.py:69-76 | every item listed from a page's entries and their subtrees is below the folder |
| ReportGenerator.SubfolderBelow | projects/DriveMaster/src/report_generator.py:75-76 | what a subfolder lists is listed under its parent too |
| ReportGenerator.ListPagesFailed | projects/DriveMaster/src/report_generator.py:82-93 | a failed page is retried exactly for a retry status while retries < max_retries; otherwise the listing ends |
| ReportGenerator.ListPagesDone | projects/DriveMaster/src/report_generator.py:68-81 | a page that came back contributes its entries' listing, then the following pages with the retry counter reset |
| ReportGenerator.ListFilesRecursively | projects/DriveMaster/src/report_generator.py:40-55 | the method computes ListFolder |
| ReportGenerator.ListFolderPages | projects/DriveMaster/src/report_generator.py:57-94 | the while loop computes ListPages |
| ReportGenerator.ListOnePage | projects/DriveMaster/src/report_generator.py:58-93 | one files.list call: a retry only while retries < max_retries, else the page's listing and where the next page starts |
| ReportGenerator.ListPageEntries | projects/DriveMaster/src/report_generator.py:69-76 | the loop over a page's entries computes ListEntries |
| ReportGenerator.EmailCell | projects/DriveMaster/src/report_generator.py:131 | emailAddress, else domain, else 'anyoneWithLink' for type anyone, else 'N/A'; never blank |
| ReportGenerator.RoleCell | projects/DriveMaster/src/report_generator.py:132 | the UI name of a known role, which maps back to it; the capitalised raw role otherwise |
| ReportGenerator.OwnerCell | projects/DriveMaster/src/report_generator.py:123 | the Owner cell is never blank: the first owner's address, or 'N/A' |
| ReportGenerator.ReportRow | projects/DriveMaster/src/report_generator.py:125-136 | the corrected row keeps every cell of the row as written and adds Root Folder ID (the report's root) and Restrict Download (TRUE exactly when the item is restricted) |
| ReportGenerator.ReportRowAsWritten | projects/DriveMaster/src/report_generator.py:125-136 | the row as the source builds it has exactly the ten columns, so neither Root Folder ID nor Restrict Download |
| ReportGenerator.ReportRowCells | projects/DriveMaster/src/report_generator.py:123-136 | a row holds the item's name, id and path, the principal's type, the email cell and the role's UI name |
| ReportGenerator.HasUserAccess | projects/DriveMaster/src/report_generator.py:115-118 | the any() holds exactly when some permission's address equals the user's ignoring case (ItemRows uses it as the filter) |
| ReportGenerator.ItemRows | projects/DriveMaster/src/report_generator.py:109-136 | an item adds rows exactly when it has permissions and passes the user filter, and then one per permission, in order; the rows are the corrected ones of the first Finding (with Root Folder ID and Restrict Download) |
| ReportGenerator.ReportRows | projects/DriveMaster/src/report_generator.py:105-136 | the report loop changes no Drive contents; the rows are the corrected ones of the first Finding (with Root Folder ID and Restrict Download) |
| ReportGenerator.ItemRowsCarryRoot | projects/DriveMaster/src/report_generator.py:125-136 | every row of an item carries the columns the rollback path reads and the report's root |
| ReportGenerator.ReportRowsCarryRoot | projects/DriveMaster/src/report_generator.py:105-136 | every report row carries those columns and the root |
| ReportGenerator.PermissionReport | projects/DriveMaster/src/report_generator.py:96-139 | generating a report changes no Drive contents; the rows are the corrected ones of the first Finding (with Root Folder ID and Restrict Download) |
| ReportGenerator.PermissionReportCarriesRoot | projects/DriveMaster/src/report_generator.py:96-139 | every row of a folder's report names that folder as its root |
| ReportGenerator.GeneratePermissionReport | projects/DriveMaster/src/report_generator.py:96-139 | the method computes PermissionReport; the rows are the corrected ones of the first Finding (with Root Folder ID and Restrict Download) |
| ReportGenerator.ReportListedItems | projects/DriveMaster/src/report_generator.py:104-136 | the loop over the listed items computes ReportRows; the rows are the corrected ones of the first Finding (with Root Folder ID and Restrict Download) |
| Drive.FindItem | projects/DriveMaster/src/report_generator.py:51 | the first item with the id, None exactly when no item has it |
| Drive.ChildrenOf | projects/DriveMaster/src/report_generator.py:59 | exactly the items naming the folder as a parent, trashed ones left out when asked |
| Drive.ChildBelow | projects/DriveMaster/src/report_generator.py:75-76 | a listed child ranks below its folder, so the recursion ends |
| Drive.PageOf | projects/DriveMaster/src/report_generator.py:61-78 | a page is the next slice of the listing, and the next page token lies strictly beyond it |
| Drive.Respond | projects/DriveMaster/src/report_generator.py:20-23 | every request is counted and changes no Drive contents by itself |
| Drive.GetItem | projects/DriveMaster/src/report_generator.py:51 | files.get returns the item with that id, and changes nothing |
| Drive.ListPermissions | projects/DriveMaster/src/permission_manager.py:13 | permissions.list returns the item's permissions, and changes nothing |
| Drive.ListPermissionsPage | projects/DriveMaster/Sergios_Code/drive_permissions_remover.py:112-120 | one page of the item's permissions, and nothing changes |
| Drive.ListChildren | projects/DriveMaster/src/report_generator.py:59-66 | one page of the folder's children, and nothing changes |
| Drive.CreatePermission | projects/DriveMaster/src/permission_manager.py:138 | a successful create appends the permission, its address under emailAddress for users and groups and under domain otherwise; a failed one changes nothing |
| Drive.WithoutPermission | projects/DriveMaster/src/permission_manager.py:146 | exactly the permissions with another id remain |
| Drive.WithRole | projects/DriveMaster/src/permission_manager.py:155 | only the permission with that id gets the new role |
| Drive.DeletePermission | projects/DriveMaster/src/permission_manager.py:146 | a successful delete removes an existing permission by id and nothing else; a failed one changes nothing |
| Drive.UpdatePermission | projects/DriveMaster/src/permission_manager.py:155 | a successful update changes that permission's role and nothing else; a failed one changes nothing |
| Drive.SetRestricted | projects/DriveMaster/src/permission_manager.py:119 | a successful files.update sets copyRequiresWriterPermission and nothing else; a failed one changes nothing |
| Drive.DriveService.constructor | projects/DriveMaster/src/controller.py:56 | the service starts from the given Drive state |
| Drive.DriveService.Get | projects/DriveMaster/src/controller.py:21 | the request computes GetItem on the service's state |
| Drive.DriveService.ListPerms | projects/DriveMaster/src/permission_manager.py:13 | the request computes ListPermissions |
| Drive.DriveService.ListPermsPage | projects/DriveMaster/Sergios_Code/drive_permissions_remover.py:114-118 | the request computes ListPermissionsPage |
| Drive.DriveService.List | projects/DriveMaster/src/report_generator.py:61-66 | the request computes ListChildren |
| Drive.DriveService.Create | projects/DriveMaster/src/permission_manager.py:138 | the request computes CreatePermission |
| Drive.DriveService.Delete | projects/DriveMaster/src/permission_manager.py:146 | the request computes DeletePermission |
| Drive.DriveService.Update | projects/DriveMaster/src/permission_manager.py:155 | the request computes UpdatePermission |
| Drive.DriveService.Restrict | projects/DriveMaster/src/permission_manager.py:119 | the request computes SetRestricted |
| PermissionsRemover.PermPages | projects/DriveMaster/Sergios_Code/drive_permissions_remover.py:114-127 | the pages from an offset on, concatenated, are exactly the item's permissions from there; nothing changes |
| PermissionsRemover.ListPerms | projects/DriveMaster/Sergios_Code/drive_permissions_remover.py:107-128 | list_permissions gives all of the item's permissions or []; nothing changes |
| PermissionsRemover.ListPermsDiscards | projects/DriveMaster/Sergios_Code/drive_permissions_remover.py:121-123 | a failed page after a good one still gives []: the pages already fetched are discarded |
| PermissionsRemover.PermPagesStep | projects/DriveMaster/Sergios_Code/drive_permissions_remover.py:114-127 | a failed page request ends the listing; a good page comes before the following pages |
| PermissionsRemover.ListPermissionsMethod | projects/DriveMaster/Sergios_Code/drive_permissions_remover.py:107-128 | the while loop computes ListPerms |
| PermissionsRemover.DeleteWithRetry | projects/DriveMaster/Sergios_Code/drive_permissions_remover.py:131-152 | at most 5 requests; True only after a delete that removed an existing permission, with nothing else changed; False changes no permission |
| PermissionsRemover.DeleteStopsOnOtherErrors | projects/DriveMaster/Sergios_Code/drive_permissions_remover.py:148-150 | any error other than 403 or 429 returns False after one request |
| PermissionsRemover.DeleteGivesUp | projects/DriveMaster/Sergios_Code/drive_permissions_remover.py:136-152 | five 403 or 429 answers in a row give False after five requests |
| PermissionsRemover.DeletePermissionMethod | projects/DriveMaster/Sergios_Code/drive_permissions_remover.py:131-152 | the for-attempt loop computes DeleteWithRetry |
| PermissionsRemover.LowerAll | projects/DriveMaster/Sergios_Code/drive_permissions_remover.py:177-218 | the lower-cased target list |
| PermissionsRemover.MatchesIgnoringCase | projects/DriveMaster/Sergios_Code/drive_permissions_remover.py:177-218 | a permission matches exactly when it has an email equal to some target ignoring case |
| PermissionsRemover.StripOne | projects/DriveMaster/Sergios_Code/drive_permissions_remover.py:173-229 | a non-matching permission changes nothing; at most one entry is appended, for this item and permission, with a matching email, and only when that permission existed and the delete removed it; with no entry the permissions are unchanged; a matching permission whose delete succeeds is gone afterwards and is logged, always for a file and for a folder unless files.get raises |
| PermissionsRemover.StripFrom | projects/DriveMaster/Sergios_Code/drive_permissions_remover.py:173-229 | the loop only appends to removed_log, and only valid entries |
| PermissionsRemover.StripFromListed | projects/DriveMaster/Sergios_Code/drive_permissions_remover.py:173-229 | every appended entry records one of the listed permissions |
| PermissionsRemover.Traverse | projects/DriveMaster/Sergios_Code/drive_permissions_remover.py:155-233 | the walk never changes items and only appends valid entries (every logged permission was removed: StripTreeLoggedWereRemoved) |
| PermissionsRemover.TraversePages | projects/DriveMaster/Sergios_Code/drive_permissions_remover.py:190-233 | the page loop only appends to the log; a listing error keeps what was logged |
| PermissionsRemover.EntriesFrom | projects/DriveMaster/Sergios_Code/drive_permissions_remover.py:203-229 | the loop over one page's children only appends to the log |
| PermissionsRemover.TraverseChild | projects/DriveMaster/Sergios_Code/drive_permissions_remover.py:208-229 | a child, folder or file, only appends to the log |
| PermissionsRemover.StripPermissions | projects/DriveMaster/Sergios_Code/drive_permissions_remover.py:173-229 | the loop computes StripFrom |
| PermissionsRemover.StripPermission | projects/DriveMaster/Sergios_Code/drive_permissions_remover.py:174-188 | one iteration computes StripOne |
| PermissionsRemover.TraverseAndStrip | projects/DriveMaster/Sergios_Code/drive_permissions_remover.py:155-233 | the recursive method computes Traverse |
| PermissionsRemover.StripChildren | projects/DriveMaster/Sergios_Code/drive_permissions_remover.py:190-233 | the while loop computes TraversePages |
| PermissionsRemover.StripPage | projects/DriveMaster/Sergios_Code/drive_permissions_remover.py:203-229 | the for loop computes EntriesFrom |
| PermissionsRemover.StripChild | projects/DriveMaster/Sergios_Code/drive_permissions_remover.py:204-229 | one child computes TraverseChild |
| PermissionsRemover.AccountedChain | projects/DriveMaster/Sergios_Code/drive_permissions_remover.py:155-233 | accounting for removed permissions composes along the walk |
| PermissionsRemover.StripOneAccounted | projects/DriveMaster/Sergios_Code/drive_permissions_remover.py:177-188 | a permission that disappears is the matching one, and it is logged |
| PermissionsRemover.StripFromAccounted | projects/DriveMaster/Sergios_Code/drive_permissions_remover.py:173-188 | every permission that disappears in the loop is logged |
| PermissionsRemover.TraverseAccounted | projects/DriveMaster/Sergios_Code/drive_permissions_remover.py:155-233 | every permission that disappears in the walk of a folder is logged |
| PermissionsRemover.TraversePagesAccounted | projects/DriveMaster/Sergios_Code/drive_permissions_remover.py:190-233 | the same for the children pages |
| PermissionsRemover.EntriesFromAccounted | projects/DriveMaster/Sergios_Code/drive_permissions_remover.py:203-229 | the same for one page's children |
| PermissionsRemover.TraverseChildAccounted | projects/DriveMaster/Sergios_Code/drive_permissions_remover.py:208-229 | the same for one child |
| PermissionsRemover.StripTreeRemovesOnlyLogged | projects/DriveMaster/Sergios_Code/drive_permissions_remover.py:177-241 | a permission gone after a completed walk is logged under its item and id with a matching email |
| PermissionsRemover.StripTreeLoggedWereRemoved | projects/DriveMaster/Sergios_Code/drive_permissions_remover.py:155-241 | a completed walk adds no permission, and every removed_log entry names a permission id its item had before the walk and no longer has |
| PermissionsRemover.PermPagesComplete | projects/DriveMaster/Sergios_Code/drive_permissions_remover.py:114-127 | against a Drive that answers every request, the pages from an offset on are the item's permissions from there, or None for an item that does not exist |
| PermissionsRemover.ListPermsComplete | projects/DriveMaster/Sergios_Code/drive_permissions_remover.py:107-128 | against such a Drive, list_permissions returns all of an existing item's permissions, and [] for a missing item |
| PermissionsRemover.StripOneComplete | projects/DriveMaster/Sergios_Code/drive_permissions_remover.py:173-188 | against such a Drive, one permission never raises, permissions only disappear, a matching permission is gone afterwards, and one the item had is logged |
| PermissionsRemover.StripFromComplete | projects/DriveMaster/Sergios_Code/drive_permissions_remover.py:173-188 | against such a Drive, the loop never raises, permissions only disappear, and no listed matching permission is left on the item |
| PermissionsRemover.StripItemComplete | projects/DriveMaster/Sergios_Code/drive_permissions_remover.py:172-188 | against such a Drive, listing an existing item's permissions and stripping them leaves the item no matching permission |
| PermissionsRemover.TraverseComplete | projects/DriveMaster/Sergios_Code/drive_permissions_remover.py:155-233 | against such a Drive, traverse_and_strip never raises, the folder (when it exists) keeps no matching permission, and neither does any item below it through untrashed children |
| PermissionsRemover.TraversePagesComplete | projects/DriveMaster/Sergios_Code/drive_permissions_remover.py:190-233 | against such a Drive, the page loop never raises and every untrashed child from the offset on is finished: clean, and clean below when a folder |
| PermissionsRemover.EntriesFromComplete | projects/DriveMaster/Sergios_Code/drive_permissions_remover.py:203-229 | the same for the children of one page |
| PermissionsRemover.TraverseChildComplete | projects/DriveMaster/Sergios_Code/drive_permissions_remover.py:208-229 | against such a Drive, one listed child, folder or file, keeps no matching permission, nor does anything below it |
| PermissionsRemover.ChildrenFinished | projects/DriveMaster/Sergios_Code/drive_permissions_remover.py:155-159 | once every untrashed child of a folder is finished, every item below the folder keeps no matching permission |
| PermissionsRemover.FinishedShrinks | projects/DriveMaster/Sergios_Code/drive_permissions_remover.py:155-233 | a finished child stays finished while permissions only disappear, so later deletions cannot undo it |
| PermissionsRemover.HasShrinks | projects/DriveMaster/Sergios_Code/drive_permissions_remover.py:177-188 | when permissions only disappear, an id present afterwards was present before |
| PermissionsRemover.RemovedChain | projects/DriveMaster/Sergios_Code/drive_permissions_remover.py:155-233 | "only removed, and every new entry was removed" composes along the walk |
| PermissionsRemover.StripOneRemoves | projects/DriveMaster/Sergios_Code/drive_permissions_remover.py:177-188 | an entry appended for one permission names a permission the delete removed |
| PermissionsRemover.StripFromRemoves | projects/DriveMaster/Sergios_Code/drive_permissions_remover.py:173-188 | the same for the loop over an item's permissions |
| PermissionsRemover.TraverseRemoves | projects/DriveMaster/Sergios_Code/drive_permissions_remover.py:155-233 | the same for the walk of a folder |
| PermissionsRemover.TraversePagesRemoves | projects/DriveMaster/Sergios_Code/drive_permissions_remover.py:190-233 | the same for the children pages |
| PermissionsRemover.EntriesFromRemoves | projects/DriveMaster/Sergios_Code/drive_permissions_remover.py:203-229 | the same for one page's children |
| PermissionsRemover.TraverseChildRemoves | projects/DriveMaster/Sergios_Code/drive_permissions_remover.py:208-229 | the same for one child |
| PermissionsRemover.Folders | projects/DriveMaster/Sergios_Code/drive_permissions_remover.py:249 | exactly the folder entries |
| PermissionsRemover.Files | projects/DriveMaster/Sergios_Code/drive_permissions_remover.py:250 | exactly the file entries |
| PermissionsRemover.SummaryPartition | projects/DriveMaster/Sergios_Code/drive_permissions_remover.py:249-250 | when every entry is a folder or a file, the two counts add up to the log's length |
| PermissionsRemover.StripTree | projects/DriveMaster/Sergios_Code/drive_permissions_remover.py:155-241 | every entry main's walk logs has a matching email and type folder or file; against a Drive that answers every request the walk completes, and the root folder (when it exists) and every item reached through untrashed children keep no permission whose email matches a target |
| PermissionsRemover.WalkSummary | projects/DriveMaster/Sergios_Code/drive_permissions_remover.py:240-256 | the summary counts of a completed walk add up to the log's length |
| ScriptDrive.FetchPerms | projects/DriveMaster/Sergios_Code/single_email_permissions.py:87-107 | the item's permissions or []; at most one request plus max_retries retries; nothing changes |
| ScriptDrive.FetchPermsStopsOnOtherErrors | projects/DriveMaster/Sergios_Code/single_email_permissions.py:100-107 | an error outside 429 and 5xx ends the fetch after one request, with [] |
| ScriptDrive.FetchPermsGivesUp | projects/DriveMaster/Sergios_Code/single_email_permissions.py:100-107 | once max_retries retries were made any error ends the fetch with [] |
| ScriptDrive.FetchPermissions | projects/DriveMaster/Sergios_Code/drive_permissions_cook_V9_02May2025.py:149-169 | the retry loop computes FetchPerms |
| ScriptDrive.FetchedFor | projects/DriveMaster/Sergios_Code/drive_permissions_cook_V9_02May2025.py:218-220 | one list per item, each the item's permissions or []; nothing changes |
| ScriptDrive.HasGeneralAccess | projects/DriveMaster/Sergios_Code/drive_permissions_cook_V9_02May2025.py:172-179 | 'Yes' exactly when some permission's type is anyone, anyoneWithLink, domain or group, 'No' otherwise |
| ScriptDrive.IsGeneral | projects/DriveMaster/Sergios_Code/single_email_permissions.py:115 | the types group, domain and anyone count as general access; a single user never does |
| ScriptDrive.ListAll | projects/DriveMaster/Sergios_Code/single_email_permissions.py:50-84 | the recursive listing holds only Drive items and changes nothing |
| ScriptDrive.ListAllPages | projects/DriveMaster/Sergios_Code/single_email_permissions.py:59-83 | the page loop, with a retry counter never reset, holds only Drive items |
| ScriptDrive.ListAllEntries | projects/DriveMaster/Sergios_Code/single_email_permissions.py:68-71 | each page entry, a folder followed by its own listing, holds only Drive items |
| ScriptDrive.ListAllStopsOnOtherErrors | projects/DriveMaster/Sergios_Code/single_email_permissions.py:75-83 | an error outside 429 and 5xx on the first page lists nothing, after one request |
| ScriptDrive.ListAllRetries | projects/DriveMaster/Sergios_Code/single_email_permissions.py:76-80 | a 429 or 5xx while retries < max_retries asks for the same page again with one more retry counted |
| ScriptDrive.ListAllPagesFailed | projects/DriveMaster/Sergios_Code/single_email_permissions.py:75-83 | a failed page is retried exactly for 429 or 5xx while retries < max_retries; otherwise the listing ends keeping what it has |
| ScriptDrive.ListAllPagesDone | projects/DriveMaster/Sergios_Code/single_email_permissions.py:67-74 | a page that came back contributes its entries' listing, then the following pages |
| ScriptDrive.ListAllItems | projects/DriveMaster/Sergios_Code/drive_permissions_cook_V9_02May2025.py:84-116 | the while loop computes ListAll |
| ScriptDrive.ListPageItems | projects/DriveMaster/Sergios_Code/single_email_permissions.py:68-71 | the loop over a page's files computes ListAllEntries |
| ScriptDrive.Names | projects/DriveMaster/Sergios_Code/single_email_permissions.py:178 | the names along a path |
| ScriptDrive.FullPath | projects/DriveMaster/Sergios_Code/single_email_permissions.py:178 | '/' and the names joined by '/'; '/' + name for a one-step path |
| ScriptDrive.FullPathSnoc | projects/DriveMaster/Sergios_Code/drive_permissions_cook_V9_02May2025.py:235 | one more step adds '/' and its name at the end |
| ScriptDrive.ParentsBeforeConcat | projects/DriveMaster/Sergios_Code/drive_permissions_cook_V9_02May2025.py:212-213 | preorder survives concatenating flattenings |
| PermissionsCook.LastWithKey | projects/DriveMaster/Sergios_Code/drive_permissions_cook_V9_02May2025.py:64-67 | the last kept row with the key, None exactly when there is none |
| PermissionsCook.MappingLookup | projects/DriveMaster/Sergios_Code/drive_permissions_cook_V9_02May2025.py:64-67 | an email is mapped exactly when some row with at least 3 cells and a non-empty email cell has it, stripped and lower-cased, and then to the last such row's stripped name and title |
| PermissionsCook.ParseMapping | projects/DriveMaster/Sergios_Code/drive_permissions_cook_V9_02May2025.py:63-68 | the loop over the response rows computes the mapping |
| PermissionsCook.KeptRow | projects/DriveMaster/Sergios_Code/drive_permissions_cook_V9_02May2025.py:65 | a row is kept exactly when it has at least three cells and its email cell, before stripping, is non-empty |
| PermissionsCook.KeyOf | projects/DriveMaster/Sergios_Code/drive_permissions_cook_V9_02May2025.py:66 | the key is the email cell stripped and lower-cased: no upper-case letter, no white space at either end, and "" for a cell of white space only |
| PermissionsCook.SpaceEmailKept | projects/DriveMaster/Sergios_Code/drive_permissions_cook_V9_02May2025.py:65-67 | a three-cell row whose email cell is white space only is kept, under the key "" |
| PermissionsCook.EntryOf | projects/DriveMaster/Sergios_Code/drive_permissions_cook_V9_02May2025.py:67 | the value is the name and title cells stripped: no white space at either end of either, a cell without such white space kept as is |
| PermissionsCook.MappingOf | projects/DriveMaster/Sergios_Code/drive_permissions_cook_V9_02May2025.py:63-68 | every row with at least 3 cells and a non-empty email is a key of the mapping |
| PermissionsCook.MappingFetch | projects/DriveMaster/Sergios_Code/drive_permissions_cook_V9_02May2025.py:52-81 | at most max_retries requests; the mapping of the rows or {} |
| PermissionsCook.MappingFetchAnswered | projects/DriveMaster/Sergios_Code/drive_permissions_cook_V9_02May2025.py:59-68 | a sheet that answers at once gives the mapping of its rows after one request |
| PermissionsCook.GetEmailToNameTitleMapping | projects/DriveMaster/Sergios_Code/drive_permissions_cook_V9_02May2025.py:52-81 | the retry loop computes MappingFetch |
| PermissionsCook.NameTitles | projects/DriveMaster/Sergios_Code/drive_permissions_cook_V9_02May2025.py:203 | the merged map has every address of the three, second over bio over sponsors |
| PermissionsCook.IdIndex | projects/DriveMaster/Sergios_Code/drive_permissions_cook_V9_02May2025.py:126 | item_map names, for each id, an item carrying it |
| PermissionsCook.IdIndexLast | projects/DriveMaster/Sergios_Code/drive_permissions_cook_V9_02May2025.py:126 | every id is in item_map, naming the last item that carries it |
| PermissionsCook.Placement | projects/DriveMaster/Sergios_Code/drive_permissions_cook_V9_02May2025.py:129-133 | an item goes under the last item with its first parent's id when that id is listed, otherwise among the roots |
| PermissionsCook.Placed | projects/DriveMaster/Sergios_Code/drive_permissions_cook_V9_02May2025.py:128-133 | the items placed at one spot, in listing order |
| PermissionsCook.FolderSlots | projects/DriveMaster/Sergios_Code/drive_permissions_cook_V9_02May2025.py:123-125 | exactly the folders get a subitems list |
| PermissionsCook.HierShape | projects/DriveMaster/Sergios_Code/drive_permissions_cook_V9_02May2025.py:123-134 | the roots are the unplaced items in listing order |
| PermissionsCook.Hier | projects/DriveMaster/Sergios_Code/drive_permissions_cook_V9_02May2025.py:119-134 | a built hierarchy gives exactly the folders a subitems list and has no more roots than items |
| PermissionsCook.HierReturned | projects/DriveMaster/Sergios_Code/drive_permissions_cook_V9_02May2025.py:130-131 | build_item_hierarchy raises exactly when some item's first parent is listed but is not a folder |
| PermissionsCook.HierSubitems | projects/DriveMaster/Sergios_Code/drive_permissions_cook_V9_02May2025.py:128-133 | each folder's subitems are the items placed under it, each once, in listing order |
| PermissionsCook.HierRaisedSticks | projects/DriveMaster/Sergios_Code/drive_permissions_cook_V9_02May2025.py:128-133 | once an item cannot be placed the KeyError ends the function |
| PermissionsCook.PlacedOnce | projects/DriveMaster/Sergios_Code/drive_permissions_cook_V9_02May2025.py:128-133 | every item sits in exactly one list: the roots, or its parent's subitems |
| PermissionsCook.EmptySubitems | projects/DriveMaster/Sergios_Code/drive_permissions_cook_V9_02May2025.py:123-125 | the first loop gives every folder an empty list |
| PermissionsCook.BuildItemHierarchy | projects/DriveMaster/Sergios_Code/drive_permissions_cook_V9_02May2025.py:119-134 | the method computes the hierarchy |
| PermissionsCook.PlaceItems | projects/DriveMaster/Sergios_Code/drive_permissions_cook_V9_02May2025.py:126-134 | the second loop computes the hierarchy |
| PermissionsCook.HierConsistent | projects/DriveMaster/Sergios_Code/drive_permissions_cook_V9_02May2025.py:128-133 | every subitem of a built hierarchy is an item placed there |
| PermissionsCook.SubitemsBelow | projects/DriveMaster/Sergios_Code/drive_permissions_cook_V9_02May2025.py:128-133 | a subitem ranks below its folder, so flattening ends |
| PermissionsCook.Flatten | projects/DriveMaster/Sergios_Code/drive_permissions_cook_V9_02May2025.py:137-146 | the node's own path, the input path plus (id, name), comes first, and every row extends it |
| PermissionsCook.FlattenAll | projects/DriveMaster/Sergios_Code/drive_permissions_cook_V9_02May2025.py:144-145 | every child's row extends the node's path by at least one step |
| PermissionsCook.FlattenPreorder | projects/DriveMaster/Sergios_Code/drive_permissions_cook_V9_02May2025.py:137-146 | every path comes after its parent's path: preorder |
| PermissionsCook.FlattenAllPreorder | projects/DriveMaster/Sergios_Code/drive_permissions_cook_V9_02May2025.py:144-145 | the same over the children's flattenings |
| PermissionsCook.FlattenHasChildren | projects/DriveMaster/Sergios_Code/drive_permissions_cook_V9_02May2025.py:137-146 | each subitem's flattening, from the item's own path, is part of the item's flattening: every node of the subtree gets its rows |
| PermissionsCook.FlattenRowsFromChildren | projects/DriveMaster/Sergios_Code/drive_permissions_cook_V9_02May2025.py:137-146 | every row after the item's own path comes from some subitem's flattening |
| PermissionsCook.FlattenAllCovers | projects/DriveMaster/Sergios_Code/drive_permissions_cook_V9_02May2025.py:144-145 | the rows of the first n children are exactly the rows of their flattenings: each child's rows appear, and nothing else does |
| PermissionsCook.FlattenForest | projects/DriveMaster/Sergios_Code/drive_permissions_cook_V9_02May2025.py:211-213 | no flattened path is empty |
| PermissionsCook.ForestPreorder | projects/DriveMaster/Sergios_Code/drive_permissions_cook_V9_02May2025.py:211-213 | flattened is in preorder from the roots |
| PermissionsCook.RootsListed | projects/DriveMaster/Sergios_Code/drive_permissions_cook_V9_02May2025.py:127-134 | the roots of a built hierarchy are listed items |
| PermissionsCook.FlattenedPaths | projects/DriveMaster/Sergios_Code/drive_permissions_cook_V9_02May2025.py:211-213 | the loop over the roots computes FlattenForest |
| PermissionsCook.ItemIds | projects/DriveMaster/Sergios_Code/drive_permissions_cook_V9_02May2025.py:218-219 | the items' ids, in order |
| PermissionsCook.PermMap | projects/DriveMaster/Sergios_Code/drive_permissions_cook_V9_02May2025.py:216-220 | perm_map maps each id to the list fetched for the last item carrying it |
| PermissionsCook.EmailsOfMembers | projects/DriveMaster/Sergios_Code/drive_permissions_cook_V9_02May2025.py:221-224 | the lower-cased email of every permission that has one, and nothing else |
| PermissionsCook.EmailMet | projects/DriveMaster/Sergios_Code/drive_permissions_cook_V9_02May2025.py:217-224 | an email is collected exactly when some fetched list holds it |
| PermissionsCook.EmailsMet | projects/DriveMaster/Sergios_Code/drive_permissions_cook_V9_02May2025.py:217-224 | the same, for every email |
| PermissionsCook.EmailColumns | projects/DriveMaster/Sergios_Code/drive_permissions_cook_V9_02May2025.py:225 | the distinct lower-cased permission emails across all items, in ascending order |
| PermissionsCook.CollectPermissions | projects/DriveMaster/Sergios_Code/drive_permissions_cook_V9_02May2025.py:216-224 | the loop computes perm_map and all_emails from the fetched lists |
| PermissionsCook.NameOf | projects/DriveMaster/Sergios_Code/drive_permissions_cook_V9_02May2025.py:228 | an address the mapping lacks is named 'Unknown', a mapped one by its mapped name |
| PermissionsCook.TitleOf | projects/DriveMaster/Sergios_Code/drive_permissions_cook_V9_02May2025.py:229 | an address the mapping lacks has the title 'Unknown', a mapped one its mapped title |
| PermissionsCook.NameTitleFromSheet | projects/DriveMaster/Sergios_Code/drive_permissions_cook_V9_02May2025.py:63-68 | over a sheet's mapping, an address's name and title are the stripped cells of the last kept row with that key, 'Unknown' when no kept row has it |
| PermissionsCook.PermsFor | projects/DriveMaster/Sergios_Code/drive_permissions_cook_V9_02May2025.py:237 | an item the permission map lacks has no permissions, a mapped one its mapped list |
| PermissionsCook.NamesHeader | projects/DriveMaster/Sergios_Code/drive_permissions_cook_V9_02May2025.py:228 | 'Full Path', 'Item ID', each email's name ('Unknown' when unmapped), then '' |
| PermissionsCook.TitlesHeader | projects/DriveMaster/Sergios_Code/drive_permissions_cook_V9_02May2025.py:229 | two blanks, each email's title ('Unknown' when unmapped), then '' |
| PermissionsCook.EmailsHeader | projects/DriveMaster/Sergios_Code/drive_permissions_cook_V9_02May2025.py:230 | two blanks, the emails, then '' |
| PermissionsCook.CellOf | projects/DriveMaster/Sergios_Code/drive_permissions_cook_V9_02May2025.py:238-243 | 'No Access' when no permission has the email, otherwise the role of the last one that has it |
| PermissionsCook.PartialCellStep | projects/DriveMaster/Sergios_Code/drive_permissions_cook_V9_02May2025.py:239-243 | writing a permission's role changes only the column of its email |
| PermissionsCook.DataRow | projects/DriveMaster/Sergios_Code/drive_permissions_cook_V9_02May2025.py:234-245 | the full path, the item id, one cell per email column, then the general-access cell |
| PermissionsCook.ColumnCellSorted | projects/DriveMaster/Sergios_Code/drive_permissions_cook_V9_02May2025.py:238-243 | with sorted distinct columns each column holds the role of the last permission for its email, or 'No Access' |
| PermissionsCook.WidthsAgree | projects/DriveMaster/Sergios_Code/drive_permissions_cook_V9_02May2025.py:228-245 | the three header rows and every data row have the same width |
| PermissionsCook.RowPerms | projects/DriveMaster/Sergios_Code/drive_permissions_cook_V9_02May2025.py:238-243 | the loop fills every column with its cell |
| PermissionsCook.MatrixRows | projects/DriveMaster/Sergios_Code/drive_permissions_cook_V9_02May2025.py:233-245 | one row per flattened path, in order |
| PermissionsCook.MatrixRow | projects/DriveMaster/Sergios_Code/drive_permissions_cook_V9_02May2025.py:235-245 | one pass computes the path's DataRow |
| PermissionsCook.DataRows | projects/DriveMaster/Sergios_Code/drive_permissions_cook_V9_02May2025.py:233-245 | one row per flattened path, in order, each with the path, the id, one cell per email and the general-access cell |
| PermissionsCook.CookSheet | projects/DriveMaster/Sergios_Code/drive_permissions_cook_V9_02May2025.py:206-245 | from a built hierarchy: items unchanged, the three header rows and every data row have the same width, at least three columns, and the email columns are strictly ascending |
| PermissionsCook.CookMatrix | projects/DriveMaster/Sergios_Code/drive_permissions_cook_V9_02May2025.py:210-245 | flattening, the permission fetches, the sorted addresses and the row loop compute CookSheet |
| PermissionsCook.CookReport | projects/DriveMaster/Sergios_Code/drive_permissions_cook_V9_02May2025.py:180-245 | main raises exactly when build_item_hierarchy does; otherwise a rectangular sheet with strictly ascending email columns; items never change |
| PermissionsCook.BuildReport | projects/DriveMaster/Sergios_Code/drive_permissions_cook_V9_02May2025.py:180-253 | the method computes CookReport from the merged name and title mapping |
| SingleEmail.Target | projects/DriveMaster/Sergios_Code/single_email_permissions.py:140 | the stripped, lower-cased target has no upper-case letter |
| SingleEmail.Under | projects/DriveMaster/Sergios_Code/single_email_permissions.py:158-161 | parent_map[p] holds only items naming p as a parent |
| SingleEmail.AddUnderList | projects/DriveMaster/Sergios_Code/single_email_permissions.py:160-161 | appending an item under its parents adds it to p's list once per time it names p |
| SingleEmail.AddUnder | projects/DriveMaster/Sergios_Code/single_email_permissions.py:160-161 | appending under parents ps keeps the old keys and adds exactly the keys of ps |
| SingleEmail.ParentMapOfUnder | projects/DriveMaster/Sergios_Code/single_email_permissions.py:158-161 | parent_map lists each item under every one of its parents, in listing order |
| SingleEmail.ParentMapOf | projects/DriveMaster/Sergios_Code/single_email_permissions.py:158-161 | parent_map has a key exactly for each parent some item names |
| SingleEmail.ParentMap | projects/DriveMaster/Sergios_Code/single_email_permissions.py:158-161 | the loops compute ParentMapOf |
| SingleEmail.CountDistinct | projects/DriveMaster/Sergios_Code/single_email_permissions.py:160 | a parent named once is counted once |
| SingleEmail.UnderIsChildren | projects/DriveMaster/Sergios_Code/single_email_permissions.py:158-161 | when no item names a parent twice, parent_map[p] is exactly p's children, once each, in listing order |
| SingleEmail.ParentMapBelow | projects/DriveMaster/Sergios_Code/single_email_permissions.py:158-161 | every child in parent_map ranks below its parent |
| SingleEmail.Recurse | projects/DriveMaster/Sergios_Code/single_email_permissions.py:164-169 | the item's own path first, the input path plus (id, name); every row extends it |
| SingleEmail.RecurseAll | projects/DriveMaster/Sergios_Code/single_email_permissions.py:167-168 | every child's row extends the item's path |
| SingleEmail.RecursePreorder | projects/DriveMaster/Sergios_Code/single_email_permissions.py:164-169 | every path comes after its parent's path |
| SingleEmail.RecurseAllPreorder | projects/DriveMaster/Sergios_Code/single_email_permissions.py:167-168 | the same over the children's flattenings |
| SingleEmail.RecurseHasChildren | projects/DriveMaster/Sergios_Code/single_email_permissions.py:164-169 | each child in parent_map gets its flattening, from the item's own path, into the item's rows |
| SingleEmail.RecurseRowsFromChildren | projects/DriveMaster/Sergios_Code/single_email_permissions.py:164-169 | every row after the item's own path comes from some child's flattening |
| SingleEmail.RecurseAllCovers | projects/DriveMaster/Sergios_Code/single_email_permissions.py:167-168 | the rows of the first n children are exactly the rows of their flattenings: each child's rows appear, and nothing else does |
| SingleEmail.FirstMatch | projects/DriveMaster/Sergios_Code/single_email_permissions.py:180 | the first permission whose lower-cased email is the target, None exactly when there is none |
| SingleEmail.RoleFor | projects/DriveMaster/Sergios_Code/single_email_permissions.py:180 | the role of the first permission whose lower-cased address is the target, 'No Access' when none is |
| SingleEmail.Headers | projects/DriveMaster/Sergios_Code/single_email_permissions.py:175 | four headers |
| SingleEmail.OutputRow | projects/DriveMaster/Sergios_Code/single_email_permissions.py:177-182 | four cells: the full path, the item id, the target's role, the general-access cell |
| SingleEmail.PathIds | projects/DriveMaster/Sergios_Code/single_email_permissions.py:177 | the item each path ends at |
| SingleEmail.OutputRowsSnoc | projects/DriveMaster/Sergios_Code/single_email_permissions.py:176-182 | each path adds its own row after the previous ones |
| SingleEmail.BuildRows | projects/DriveMaster/Sergios_Code/single_email_permissions.py:174-182 | one row per flattened path, in order, from the permissions fetched for it |
| SingleEmail.OutputRows | projects/DriveMaster/Sergios_Code/single_email_permissions.py:174-182 | one output row per fetched path, in order, each that path's OutputRow |
| SingleEmail.RankedListed | projects/DriveMaster/Sergios_Code/single_email_permissions.py:147 | items of a ranked listing are ranked |
| SingleEmail.SingleEmailReport | projects/DriveMaster/Sergios_Code/single_email_permissions.py:134-185 | four headers, and every row has four cells |
| SingleEmail.ReportForEmail | projects/DriveMaster/Sergios_Code/single_email_permissions.py:134-185 | main computes SingleEmailReport |

## Left out

- Authentication, the GUI, the command-line parsing and every `print` or logging call are not part of this model.
- Waiting (`time.sleep` and the random part of the back-off) is not modelled: only the number of attempts and which statuses are retried are.
- Page sizes only bound the size of each page. The model lets the service return pages of any length.
- `run_fetch` (controller.py:26-51) only chains the listing, the report and the Excel writer, so it is not part of this model.
- Written files (`write_report_to_excel`, `save_audit_log`, the scripts' Excel and CSV writers) are modelled as the rows and headers they receive. File formats, file names on disk and pandas dtype inference are left out. Where the rollback reads a written file back (the audit log at permission_manager.py:29, the temporary sheet at permission_manager.py:85), only pandas' default NA marker strings turning into "" is modelled (`Rows.ReadBack`); `read_csv` without `dtype=str` would also turn numeric-looking cells into numbers.
- Controller.RollbackSpec, Controller.RunRollback: writing the temporary rollback sheet is taken never to fail, so the `return False` after a failed `to_excel` (controller.py:117-119) is not modelled.
- Reading the rollback log, including the `Path.resolve` containment check (controller.py:86-96), needs the file system. `Controller.RunRollback` receives the log already read, or `None` when it cannot be read.
- Timestamps are a parameter (`now`/`stamp`). The clock is not read.
- Text helpers follow ASCII: Python's Unicode `isalnum`, `upper` and `title` are narrowed to ASCII letters and digits.
- The Sheets and Drive services are answer scripts given as parameters, or the `Drive.DriveService` state. Network failures other than the listed HTTP statuses are left out.
- A permission with no `role` field is modelled with the role `""`.
- Folder trees are assumed acyclic (a rank map, passed as a parameter, decreases from parent to child). On a cycle the source would recurse without end.
- `items_by_id` in the single-address script (single_email_permissions.py:154-155) is built but never read, so it is left out.
- SingleEmail.RoleFor: a permission without a `role` key would raise `KeyError` at single_email_permissions.py:180, and the model gives the role `""` instead.
- The shared `removed_log` list of the remover script is modelled as a log threaded through the calls and returned, not as an aliased list.
- The cook script's `all_emails` set is modelled as the sequence of the addresses in the order they are met, possibly with repeats. The model states only which addresses it holds.
- A folder whose `get('name')` is `None` is modelled with the name `""`.
- PermissionsRemover.Traverse: the order (an item's own permissions before its children) is part of its definition. No separate lemma states it. Its own contract states only safety (items unchanged, a growing log of valid entries). Completeness is proved apart, by TraverseComplete, and only against a Drive that answers every request: it says nothing matching is left. Under failing answers the walk may legitimately leave permissions behind.
- PermissionsRemover.StripFrom: its own contract states only that the log grows with valid entries. That no listed matching permission is left is StripFromComplete, proved against a Drive that answers every request.
- PermissionsRemover.TraversePages, PermissionsRemover.EntriesFrom, PermissionsRemover.TraverseChild: their own contracts state only safety. Their completeness is TraversePagesComplete, EntriesFromComplete and TraverseChildComplete, against a Drive that answers every request.
- PermissionsCook.Flatten, PermissionsCook.FlattenAll: their own contracts give the first row and the shared path prefix. That the rows are exactly the subtree's is stated by FlattenHasChildren, FlattenRowsFromChildren and FlattenAllCovers. No lemma counts the rows against the number of nodes.
- SingleEmail.Recurse, SingleEmail.RecurseAll: the same split. RecurseHasChildren, RecurseRowsFromChildren and RecurseAllCovers state the coverage; no lemma counts the rows.
- ReportGenerator.ListPages: that the retry counter resets after a successful page is stated only through ListPagesDone, not as a lemma of its own.
- ReportGenerator.ItemRows, ReportGenerator.ReportRows, ReportGenerator.PermissionReport, ReportGenerator.GeneratePermissionReport, ReportGenerator.ReportListedItems: build the corrected 12-column rows of the first Finding, not the 10-column rows the source builds (ReportGenerator.ReportRowAsWritten models those). PermissionManager.ProcessSpec, PermissionManager.ProcessChanges, Controller.RunApplyChanges and Controller.RunRollback therefore run on rows the source never produces, and `Drive.RestrictedOf` reads a restriction field that the source's listing does not request.
- PermissionManager.ApplyLiveRow, PermissionManager.ApplyAction, PermissionManager.ApplyActions, PermissionManager.ActionStep, PermissionManager.ActionEntries, PermissionManager.ActionEntriesPerRow, PermissionManager.ProcessFrame, PermissionManager.ProcessSpec, PermissionManager.ProcessChanges, Controller.ApplySpec, Controller.RunApplyChanges, Controller.UndoSpec, Controller.RollbackSpec, Controller.RunRollback: run the corrected LiveRow of the second Finding. A live row whose command is not ADD, REMOVE or MODIFY is logged SKIPPED with no request. The source (permission_manager.py:158) logs it SUCCESS with no request when an earlier live ADD, REMOVE or MODIFY row bound `p_address`, and otherwise raises `UnboundLocalError` out of `process_changes`. LiveRowAsWritten models that behaviour row by row; the loop and the runs above do not.
- Text.Strip, Text.IsSpace: treat only ' ' and '\t' to '\r' as white space. Python's `str.strip` also strips '\x1c' to '\x1f' and the Unicode spaces.
- Text.Lower: lower-cases ASCII letters only; Python's `str.lower` also maps non-ASCII letters.
- Drive.ErrorText: an HTTP error is rendered as "HttpError <status>" where the source writes `str(e)` (permission_manager.py:122 and 160), whose text comes from the client library.
- PermissionsCook.BuildReport: the three `get_email_to_name_title_mapping` results are parameters; fetching them is modelled by GetEmailToNameTitleMapping. Writing the CSV file (cook script lines 248-253) is modelled as the returned Sheet value.
- ReportGenerator.OwnerCell: an item whose owners are unknown is read as having no `owners` key, giving 'N/A'. A present but empty `owners` list, on which line 123 of report_generator.py would raise IndexError, is not distinguished.
- PermissionsRemover.ListPerms: follows `nextPageToken` across pages. The request at drive_permissions_remover.py:118 asks only for `permissions(id,emailAddress,role)`, and under the Drive API's partial-response rule that field mask leaves the token out, so the script reads only the first page. The model reads all pages, which differs only for items (on shared drives) whose permissions span more than one page.

## Findings

| source | as written | input that shows it | evidently intended | confidence | as-written member | corrected member |
|---|---|---|---|---|---|---|
| projects/DriveMaster/src/permission_manager.py:39 | `generate_rollback_actions` reads `Root Folder ID` from the first live report row, and `process_changes` (line 103) reads its `Restrict Download` column. The rows that `generate_permission_report` builds (report_generator.py:125-136) have neither key. | A rollback whose log holds one SUCCESS entry, on a folder with one shared file. The live report is non-empty, so `KeyError: 'Root Folder ID'` is raised. The temporary rollback sheet has a `Restrict Download` column, so `process_changes` would then raise `KeyError: 'Restrict Download'`. | Report rows carry the root folder id and the item's download restriction, so a rollback returns its actions and the restriction comparison runs. | high; not executed | ReportGenerator.ReportRowAsWritten, Controller.RollbackRaisesOnReportAsWritten, Controller.RestrictRaisesOnReportAsWritten | ReportGenerator.ReportRow, Controller.RollbackOnReport, Controller.RestrictOnReport |
| projects/DriveMaster/src/permission_manager.py:133-158 | A live row whose command is not ADD, REMOVE or MODIFY matches no branch and falls through to the SUCCESS status. Its message reads `p_address`, which is only bound by an earlier live ADD, REMOVE or MODIFY row (lines 135, 141, 150). | The live row `{"Item ID": "f1", "Action_Type": "ADDD"}` after an earlier live ADD, REMOVE or MODIFY row (one that bound `p_address`) is logged as SUCCESS although no request was made. As the first live row, or after only misspelt live rows, it raises `UnboundLocalError`. In a dry run no row reaches line 158. | An unknown command is skipped as unsupported and no request is sent. | high; not executed | PermissionManager.LiveRowAsWritten, PermissionManager.UnknownCommandReportedAsSuccess | PermissionManager.LiveRow |
