# gitops-nginx, modelled in Dafny

gitops-nginx keeps the nginx configuration of groups of servers in a git
repository and mirrors three views of it into an etcd store: the committed
tree of the configured branch (the git prefix), the working copy of the
repository (the preview prefix) and the files actually on each server, read
over SSH (the remote prefix).  A Go backend serves a small HTTP API over those
three views (the group/host menu, a file tree with per-file status, a triple
diff of one file, a configuration check, and a prepare/apply update that
copies the configuration to a server and reloads nginx), and a React console
drives it.

This project models the core of that system and proves properties of the
model:

- the console (`console.dfy`, `update_modal.dfy`, `auto_refresh.dfy`,
  `git_status_drawer.dfy`, `diff_view.dfy`, `tree_builder.dfy`): the page's
  state hooks as one record held by a class whose handlers and completions
  replace the parts they set, the
  update result dialog's gates, the auto-refresh and drift-polling timers, the
  diff viewer and the tree builder;
- the HTTP handlers (`api_files.dfy`, `api_ops.dfy`, `api_git.dfy`,
  `api_groups.dfy`, `server.dfy`, `wire.dfy`): every error path with its
  status and message, and what a successful reply holds;
- the SSH layer (`scp.dfy`, `pool.dfy`): the store-to-server copy with its
  mirror deletes, and the SFTP client pool;
- the three syncers (`git_syncer.dfy`, `preview_syncer.dfy`,
  `nginx_syncer.dfy`) and what they share (`sync_utils.dfy`): selection,
  skip-if-current, the write order, and the mirror delete;
- configuration validation (`config.dfy`) and the unified-diff counter
  (`diff_stats.dfy`); `text.dfy` holds the string and path operations of Go
  and JavaScript the rest relies on.

The etcd store is a `map<string, string>` value that the modelled operations
take and return; operations that fail (a put, a delete, a read) are sets or
options given as inputs.  Git, SSH, the file system, the clock, hashing and
the diff algorithm are outside the model: their results are parameters.

The tree builder is modelled from `ui/src/utils/treeBuilder.tsx`; the page
itself runs an identical copy of it, `buildTree` in `ui/src/App.tsx` (lines
61-157, with the same segment lookup at line 78), and the console's tree is
that copy as written (`TreeBuilder.BuildTreeAsWritten`).


## Model

| member | source | states |
|---|---|---|
| TreeBuilder.Segments | ui/src/utils/treeBuilder.tsx:13 | the segments of a path are non-empty and contain no slash |
| TreeBuilder.IndexOf | ui/src/utils/treeBuilder.tsx:20 | the lookup finds the first sibling of that name, and none before it has the name |
| TreeBuilder.BuildHierarchy | ui/src/utils/treeBuilder.tsx:12-31 | the insertion loop builds the hierarchy of all paths, and it is well formed: each node's key is the prefix joined to its relative path, its status is that path's status, and leaves have no children |
| TreeBuilder.InsertWellFormed | ui/src/utils/treeBuilder.tsx:15-30 | inserting one path keeps the hierarchy well formed |
| TreeBuilder.HierarchyWellFormed | ui/src/utils/treeBuilder.tsx:12-31 | the hierarchy built from any list of paths is well formed, by induction over the insertions |
| TreeBuilder.InsertIdempotent | ui/src/utils/treeBuilder.tsx:20-28 | an existing node is never replaced, so inserting the same path twice changes nothing |
| TreeBuilder.InsertBelowLeaf | ui/src/utils/treeBuilder.tsx:29 | a path that continues below an existing leaf adds nothing (the walk goes on in a detached `{}`) |
| TreeBuilder.SettledStays | ui/src/utils/treeBuilder.tsx:12-31 | once a path is present, inserting other paths keeps it present |
| TreeBuilder.InsertReaches | ui/src/utils/treeBuilder.tsx:15-30 | inserting a path creates or finds a node for every segment, so the whole path reaches a node, unless a segment is blocked or an earlier part of the path is a file |
| TreeBuilder.InsertKeepsReach | ui/src/utils/treeBuilder.tsx:20-28 | inserting another path keeps every node reachable, and a file stays a file |
| TreeBuilder.HierarchyKeepsReach | ui/src/utils/treeBuilder.tsx:12-31 | what the first paths' hierarchy reaches, the whole hierarchy reaches, files staying files |
| TreeBuilder.ReachWellFormed | ui/src/utils/treeBuilder.tsx:17-26 | a node reached along a path carries the key and the status of that relative path |
| TreeBuilder.HierarchyHasPath | ui/src/utils/treeBuilder.tsx:12-31 | every input path with a segment ends up in the hierarchy as a node with its own key and status, unless one of its segments is blocked or an earlier part of it is a file |
| TreeBuilder.ReinsertChangesNothing | ui/src/utils/treeBuilder.tsx:12-31 | re-inserting any path of the list leaves the built hierarchy unchanged, so duplicate paths are harmless |
| TreeBuilder.NameLessIrreflexive | ui/src/utils/treeBuilder.tsx:86 | the name order standing in for `localeCompare` is irreflexive |
| TreeBuilder.NameLessTransitive | ui/src/utils/treeBuilder.tsx:86 | the name order is transitive |
| TreeBuilder.NameLessTotal | ui/src/utils/treeBuilder.tsx:86 | any two different names are ordered |
| TreeBuilder.BeforeAsymmetric | ui/src/utils/treeBuilder.tsx:82-87 | the sibling comparator (changed nodes first, then by name) is asymmetric |
| TreeBuilder.BeforeSplits | ui/src/utils/treeBuilder.tsx:82-87 | the comparator is a strict weak order |
| TreeBuilder.InsertSorted | ui/src/utils/treeBuilder.tsx:82-87 | one step of the sort is a permutation that adds the element |
| TreeBuilder.InsertSortedKeepsOrder | ui/src/utils/treeBuilder.tsx:82-87 | one step of the sort keeps a sorted list sorted |
| TreeBuilder.SortViews | ui/src/utils/treeBuilder.tsx:82-87 | the sorted siblings are a permutation of the input and sorted changed-first, then by name |
| TreeBuilder.CollectMeaning | ui/src/utils/treeBuilder.tsx:39-80 | the collected siblings are exactly the shown entries in order, and the group flag is whether any subtree holds a truthy status |
| TreeBuilder.ProcessFlag | ui/src/utils/treeBuilder.tsx:49-53 | a level reports a change iff some entry's subtree carries a truthy status |
| TreeBuilder.ShownMembers | ui/src/utils/treeBuilder.tsx:55-57 | every shown node comes from an entry that is changed, unless all files are shown |
| TreeBuilder.ShownComplete | ui/src/utils/treeBuilder.tsx:55-57 | every changed entry, or every entry when all files are shown, is shown |
| TreeBuilder.ShownLength | ui/src/utils/treeBuilder.tsx:55-57 | showing all files drops no entry |
| TreeBuilder.ProcessShowsExactly | ui/src/utils/treeBuilder.tsx:33-90 | a processed level is a permutation of the shown entries: nothing added, nothing lost |
| TreeBuilder.ProcessWellShaped | ui/src/utils/treeBuilder.tsx:33-90 | every sibling list at every depth is sorted changed-first, then by name; without showAll it holds only changed nodes; and a directory with a changed child is itself flagged changed |
| TreeBuilder.DirFlagFromChildren | ui/src/utils/treeBuilder.tsx:43-49 | a directory whose processed children include a changed node has a changed subtree |
| TreeBuilder.BuildTreeWellShaped | ui/src/utils/treeBuilder.tsx:92 | the returned forest is well shaped, for the corrected builder and for the builder as written |
| TreeBuilder.EmptyInputEmptyForest | ui/src/utils/treeBuilder.tsx:12-13 | paths without a non-empty segment give an empty forest, with either builder |
| TreeBuilder.HierarchyOfHiddenPaths | ui/src/utils/treeBuilder.tsx:12-31 | paths that have no non-empty segment, or whose first segment is blocked, build an empty hierarchy |
| TreeBuilder.InheritedNameDropped | ui/src/utils/treeBuilder.tsx:20 | as written, a file named like a member inherited by `{}` ("valueOf") is missing from the tree; the corrected build shows it |
| TreeBuilder.ChangedFileKeepsItsDirectory | ui/src/utils/treeBuilder.tsx:49-57 | with only changed files shown, a changed file keeps its directory, flagged changed, and an unchanged file is hidden |
| TreeBuilder.ScenarioHierarchy | ui/src/utils/treeBuilder.tsx:12-31 | two paths build a directory with a marked leaf, then a plain leaf |
| TreeBuilder.ScenarioFirstPath | ui/src/utils/treeBuilder.tsx:15-28 | the first path creates its directory and its leaf with the leaf's status |
| TreeBuilder.ScenarioSecondPath | ui/src/utils/treeBuilder.tsx:15-28 | a second top-level file is appended after the existing directory |
| TreeBuilder.ScenarioSegments | ui/src/utils/treeBuilder.tsx:13 | a nested path splits into its two segments |
| Console.ModeName | ui/src/App.tsx:227 | the mode parameter is "preview" exactly in preview mode and "prod" otherwise |
| Console.MenuKeyRoundTrip | ui/src/App.tsx:302-309 | a menu key `group/host` splits back into its group and host when neither contains "/" |
| Console.MenuKeySlashInGroup | ui/src/App.tsx:302-309 | a group name containing "/" does not round-trip: the host read back is the second half of the group name |
| Console.TreeOfResponse | ui/src/App.tsx:229-233 | a tree response is shown as the tree that the page's own buildTree, as written, builds from its prefix, paths and statuses, and that tree is well shaped; an error body (no paths) shows the empty tree |
| Console.InheritedNameHidden | ui/src/App.tsx:78 | the page shows the empty tree for a reply whose every path starts with a name inherited by `{}` (such as "valueOf" or "__proto__"), however deep the path |
| Console.ValueOfHidden | ui/src/App.tsx:229-233 | a reply listing only "valueOf" shows the empty tree |
| Console.ContextResetClears | ui/src/App.tsx:216-240 | a change of group, host or mode clears the selected file and its diff, keeps the context, and requests exactly one tree for it iff group and host are set |
| Console.Page.constructor | ui/src/App.tsx:160-193 | the initial page: no groups and no selection, preview mode, all files shown, empty tree, nothing loading, no request sent |
| Console.Page.FetchTree | ui/src/App.tsx:221-228 | the tree effect sends one tree request for the current group, host and mode, and only when group and host are set |
| Console.Page.RefetchDiff | ui/src/App.tsx:268-282 | the refresh effect re-requests the selected file's diff, silently, only when a file, a group and a host are set |
| Console.Page.ContextChanged | ui/src/App.tsx:216-219 | a context change clears the selected file and its diff and then runs the tree effect |
| Console.Page.GroupsCompleted | ui/src/App.tsx:195-214 | the group list is stored and its first host of the first group becomes the selection when there is one (a context change when it differs); an unparsed reply only raises a notice |
| Console.Page.SelectFirstHost | ui/src/App.tsx:200-207 | selecting the first host sets group, host and config suffix from the first group's first host |
| Console.Page.SelectMenu | ui/src/App.tsx:308-315 | a menu click selects the split group and host and looks up that host's suffix in that group (absent when not found) |
| Console.Page.SetPreviewMode | ui/src/App.tsx:466-471 | toggling the mode switch is a context change; setting the same mode changes nothing |
| Console.Page.SetShowAll | ui/src/App.tsx:489-495 | toggling show-all re-fetches the tree without clearing the selected file; setting the same value changes nothing |
| Console.Page.Refresh | ui/src/App.tsx:181-183 | a refresh tick bumps the counter, re-fetches the tree and silently re-fetches the selected file's diff |
| Console.Page.TreeCompleted | ui/src/App.tsx:229-239 | any parsed body, whatever its status, replaces the tree with the page's buildTree as written and remounts it; an unparsed reply keeps the tree and raises a notice; loading ends either way |
| Console.Page.SelectFile | ui/src/App.tsx:242-253 | clicking a file with a context selects it and requests its diff; without a key or a context nothing changes |
| Console.Page.DiffCompleted | ui/src/App.tsx:254-294 | a 2xx body becomes the shown diff whatever is selected now; a failure keeps the old diff and is reported unless the request came from a refresh |
| Console.Page.CheckConfig | ui/src/App.tsx:317-330 | without a host and group the check is refused with a notice; otherwise one check request for the current host, group and mode |
| Console.Page.CheckCompleted | ui/src/App.tsx:331-340 | any parsed check body is shown in the open check dialog; an unparsed reply raises a notice |
| Console.Page.PrepareUpdate | ui/src/App.tsx:343-361 | the update is refused without a host and in preview mode; otherwise one production prepare request for the current host and group |
| Console.Page.ApplyUpdate | ui/src/App.tsx:377-390 | apply sends one production apply request for the current host and group, with no preview-mode guard |
| Console.Page.UpdateCompleted | ui/src/App.tsx:362-403 | a parsed body is stored and shown even on an error status, which also raises a notice; an unparsed reply only raises a notice |
| Console.Page.ConfirmUpdate | ui/src/components/UpdateResultModal.tsx:83-94 | a disabled confirm does nothing; in the prepare stage confirm sends the apply request for the current selection, or with no host or group selected only raises the "no host selected" notice; in the apply stage it closes the dialog |
| Console.Page.CancelUpdate | ui/src/App.tsx:417 | cancel only closes the update dialog |
| Console.LastCompletionWins | ui/src/App.tsx:242-265 | with two file clicks whose replies arrive out of order, the selection is the second file but the diff shown is the first file's |
| Console.LateDiffAfterContextChange | ui/src/App.tsx:216-260 | a diff reply arriving after a context change is shown although no file is selected |
| Console.PrepareGuard | ui/src/App.tsx:343-361 | no prepare request is sent in preview mode or without a host; in production mode the request names the selected host, group and "prod" |
| UpdateModal.ConfirmEnabledIff | ui/src/components/UpdateResultModal.tsx:75-83 | confirm is enabled iff nothing is loading and, when preparing, the body's nginx record says ok, when applying, success is true |
| UpdateModal.PrepareGateIgnoresSuccess | ui/src/components/UpdateResultModal.tsx:77 | in the prepare stage the top-level success field plays no part in the gate |
| UpdateModal.PrepareResponseGate | ui/src/components/UpdateResultModal.tsx:77-83 | for a prepare response the gate opens iff the nginx test passed; an error body keeps it closed in both stages |
| UpdateModal.ApplyResponseGate | ui/src/components/UpdateResultModal.tsx:77-89 | for an apply response the gate opens iff success; confirm applies when preparing and closes when applying |
| UpdateModal.WarningMatchesGate | ui/src/components/UpdateResultModal.tsx:205-207 | while idle in the prepare stage, the "cannot update" warning shows exactly when confirm is disabled |
| UpdateModal.StageIndependentRecords | ui/src/components/UpdateResultModal.tsx:79-154 | the nginx record shown does not depend on the stage, and the message never shows while preparing |
| UpdateModal.FileListsFollowCounts | ui/src/components/UpdateResultModal.tsx:121-150 | for a sync result whose counters match its lists, each file list is shown iff its counter is positive |
| AutoRefresh.IntervalFromInput | ui/src/components/AutoRefresh.tsx:38 | a cleared or zero input sets the minimum of 3 seconds; any other input is taken as is |
| AutoRefresh.Refresher.constructor | ui/src/components/AutoRefresh.tsx:11-12 | the control starts disabled with a 5-second interval and no timer |
| AutoRefresh.Refresher.Restart | ui/src/components/AutoRefresh.tsx:14-24 | the effect clears the previous timer first and installs one new timer with the current period iff enabled |
| AutoRefresh.Refresher.SetEnabled | ui/src/components/AutoRefresh.tsx:14-33 | switching on installs one timer, switching off clears the running one, and the same value changes nothing; one timer runs exactly while enabled |
| AutoRefresh.Refresher.SetInterval | ui/src/components/AutoRefresh.tsx:14-43 | a new interval replaces the running timer with one of the new period while enabled; an unchanged interval or a disabled control keeps the timers |
| AutoRefresh.Refresher.ParentRendered | ui/src/components/AutoRefresh.tsx:24 | a new callback from the page restarts the timer while enabled |
| AutoRefresh.Refresher.Tick | ui/src/components/AutoRefresh.tsx:19-21 | a live timer firing invokes the callback once |
| AutoRefresh.DisabledNeverTriggers | ui/src/components/AutoRefresh.tsx:14-24 | after switching off, no timer is live, so the callback is never invoked |
| AutoRefresh.IntervalScenario | ui/src/components/AutoRefresh.tsx:14-38 | enabling installs a 5000 ms timer; clearing the input clears it and installs a 3000 ms one |
| GitStatusDrawer.TagsAreDistinct | ui/src/components/GitStatusDrawer.tsx:25-40 | the five statuses the backend reports each get their own tag, and exactly the other strings are shown as unknown |
| GitStatusDrawer.BadgeAgreesWithTag | ui/src/components/GitStatusDrawer.tsx:86-88 | the button badge shows iff a status is held that is not "synced", and it is the error badge exactly when the tag is red |
| GitStatusDrawer.Drawer.constructor | ui/src/components/GitStatusDrawer.tsx:43-46 | the drawer starts closed, with no data, not loading, and no timer |
| GitStatusDrawer.Drawer.Restart | ui/src/components/GitStatusDrawer.tsx:49-70 | the polling effect clears the previous timer; while open it fetches once at once and installs one 10-second timer |
| GitStatusDrawer.Drawer.Open | ui/src/components/GitStatusDrawer.tsx:49-83 | opening a closed drawer sends one status request and starts one 10-second timer; opening an open drawer changes nothing |
| GitStatusDrawer.Drawer.Close | ui/src/components/GitStatusDrawer.tsx:69-95 | closing clears the running timer and keeps the last data |
| GitStatusDrawer.Drawer.Refresh | ui/src/components/GitStatusDrawer.tsx:72-98 | refresh bumps the counter; while open it fetches at once and replaces the timer, while closed nothing is requested |
| GitStatusDrawer.Drawer.Tick | ui/src/components/GitStatusDrawer.tsx:68 | a live timer firing sends one status request |
| GitStatusDrawer.Drawer.StatusCompleted | ui/src/components/GitStatusDrawer.tsx:55-62 | a parsed reply replaces the data, a failed one keeps it, and loading ends either way |
| GitStatusDrawer.PollingScenario | ui/src/components/GitStatusDrawer.tsx:49-70 | opening requests once, closing stops the timer so nothing more is requested, and reopening requests again |
| DiffView.NormalizeNewlines | ui/src/components/DiffViewer.tsx:44 | replacing CRLF by LF never lengthens the text |
| DiffView.NormalizeDropsOnlyCR | ui/src/components/DiffViewer.tsx:44 | the replacement removes only carriage returns |
| DiffView.NormalizeWithoutCR | ui/src/components/DiffViewer.tsx:44 | a text without carriage returns is left unchanged |
| DiffView.RowText | ui/src/components/DiffViewer.tsx:66 | an empty line is shown as a space, any other line as itself |
| DiffView.Render | ui/src/components/DiffViewer.tsx:25-72 | an absent or all-blank diff shows the placeholder text; otherwise one row per line |
| DiffView.StyleMeaning | ui/src/components/DiffViewer.tsx:9-23 | each line style holds exactly for the lines with its prefix, in the order the checks are made |
| DiffView.BlankMeaning | ui/src/components/DiffViewer.tsx:26 | the placeholder shows iff the diff is absent or only whitespace |
| DiffView.RowsAreLines | ui/src/components/DiffViewer.tsx:44 | the rows hold no newline and joined by newlines give back the normalised text |
| DiffView.RenderRows | ui/src/components/DiffViewer.tsx:64-68 | row k is line k, styled by its prefix |
| DiffView.ViewerAgreesWithCounter | ui/src/components/DiffViewer.tsx:16-21 | away from header lines, the viewer colours a line as added or removed exactly when the backend counts it so |
| DiffView.ViewerCounterDisagree | internal/diff/diff.go:38-43 | a "+++ " or "--- " line past the first two is grey in the viewer but counted by the backend |
| DiffStats.SplitLines | internal/diff/diff.go:36 | splitting yields at least one line |
| DiffStats.WithNewline | internal/diff/diff.go:36 | each piece gets its newline back, and nothing else changes |
| DiffStats.AddedIn | internal/diff/diff.go:39-40 | no more lines are added than there are |
| DiffStats.RemovedIn | internal/diff/diff.go:41-42 | no more lines are removed than there are |
| DiffStats.AddedInAppend | internal/diff/diff.go:38-43 | one more line adds one to the added count iff it starts with "+", and to the removed count iff it starts with "-" |
| DiffStats.CountChanges | internal/diff/diff.go:38-44 | the loop counts the added and removed lines after the two headers |
| DiffStats.Generate | internal/diff/diff.go:26-47 | a library error is wrapped with "failed to generate unified diff: "; an empty text counts nothing; otherwise the counts are those of the lines after the headers |
| DiffStats.CountsBounded | internal/diff/diff.go:38-43 | no line counts as both added and removed, so the two counts together never exceed the line count |
| DiffStats.HeadersNotCounted | internal/diff/diff.go:37-38 | whatever the two header lines hold, they add nothing to either count |
| DiffStats.CountsOfText | internal/diff/diff.go:36-43 | the newline that splitting leaves on each line does not change the counts |
| DiffStats.CountsOfLines | internal/diff/diff.go:36-43 | a text built from newline-free lines splits back into those lines and is counted line by line after the first two |
| DiffStats.ExampleCounts | internal/diff/diff.go:38-43 | a one-line replacement hunk counts one added and one removed line |
| Wire.OmitEmpty | internal/api/types.go:75-77 | an omitted-when-empty list is present in the body iff it is non-empty, and then it is the list itself |
| Wire.EncodeSync | internal/api/types.go:69-78 | the encoded sync record keeps every counter, and each file list reads back as the original list |
| Wire.EncodePrepare | internal/api/types.go:55-61 | a prepare body carries the success flag and the nginx record, no message, and a sync record iff the response has one |
| Wire.EncodeApply | internal/api/types.go:63-67 | an apply body carries the success flag, the message and the nginx record, and no sync record |
| Wire.EncodeTree | internal/api/types.go:21-26 | a tree body carries the prefix and the paths, and its statuses read back as the response's map (an empty map is omitted) |
| Config.Defaults | internal/config/config.go:139-145 | with nothing configured, every origin is allowed, the embedded server is on, and the three syncers write under three different key prefixes |
| Config.ServerErrors | internal/config/config.go:215-233 | a server raises no message iff its host is an address, its port is in 1-65535 and its user, auth method and config directory are set |
| Config.CheckServers | internal/config/config.go:215-234 | the loop over one group's servers collects the messages of each server in order |
| Config.CheckGroup | internal/config/config.go:207-214 | an unnamed group is reported; a group without servers is reported and its servers are not looked into |
| Config.ValidateServers | internal/config/config.go:201-241 | no groups is the "no nginx server groups" error; any message gives one joined "configuration validation failed" error; otherwise the groups are returned unchanged |
| Config.ServersErrorsEmpty | internal/config/config.go:215-234 | a server list raises no message iff every server is valid |
| Config.GroupErrorsEmpty | internal/config/config.go:206-235 | a group raises no message iff it is named, has servers and every server is valid |
| Config.AllErrorsEmpty | internal/config/config.go:205-240 | an inventory raises no message iff every group is valid |
| Config.HostMessagesExclusive | internal/config/config.go:217-221 | an empty host is reported as empty and never also as an invalid address |
| Config.DottedQuad | internal/config/config.go:219 | four decimal octets joined by dots form an address |
| Config.SampleOctets | internal/config/config_test.go:39 | "192", "168" and "1" are octets |
| Config.SampleAddress | internal/config/config_test.go:39 | "192.168.1.1" is an address |
| Config.ValidInventoryAccepted | internal/config/config_test.go:33-48 | the valid test inventory raises no message |
| Config.MissingGroupName | internal/config/config_test.go:58-73 | an unnamed group with a valid server raises exactly the empty-name message |
| Config.GroupWithoutServers | internal/config/config_test.go:75-83 | a group with no servers raises exactly the no-servers message |
| Config.InvalidPort | internal/config/config_test.go:102-117 | port 70000 raises exactly the invalid-port message |
| Config.PortInDecimal | internal/config/config.go:223 | the port is written in decimal in its message |
| Config.InvalidAddress | internal/config/config_test.go:85-100 | the host "invalid-ip" raises exactly the invalid-address message |
| Scp.CollectFiles | internal/ssh/scp.go:42-55 | the collecting loop builds the map of files to copy: metadata keys and keys with an empty relative path are skipped, and a later key overwrites an earlier one |
| Scp.FilesOfKeys | internal/ssh/scp.go:43-55 | a relative path is a file to copy iff some non-metadata key yields it after the prefix and one "/" are trimmed |
| Scp.Extra | internal/ssh/scp.go:71-77 | the paths to delete are exactly the remote paths the store lacks |
| Scp.PlanDeletes | internal/ssh/scp.go:71-77 | the planning loop lists the remote paths the store lacks, in listing order |
| Scp.FirstFailure | internal/ssh/scp.go:85-90 | the first failing deletion: every earlier one succeeds and the one it names fails |
| Scp.DeleteExtra | internal/ssh/scp.go:85-94 | deletions run in order up to the first failure, which aborts; exactly the deleted paths leave the remote tree |
| Scp.UploadAll | internal/ssh/scp.go:104-157 | a file whose remote hash matches is skipped; a failed write is a failure; otherwise it is written, counted as updated iff the remote had it; the remote tree gets the written hashes |
| Scp.UploadOne | internal/ssh/scp.go:114-155 | one upload: a path whose remote hash equals its local hash only raises the skipped count; a failed write only adds the path to the failures; any other path is written with its hash and appended to the updated paths iff the remote had it, to the added paths otherwise |
| Scp.Copy | internal/ssh/scp.go:32-170 | a store error or a listing error stops before any upload; total is the number of files; deletions stop at the first failure with its path in the error; after all deletions the uploads run, and the copy fails iff a write failed |
| Scp.SelectMembers | internal/ssh/scp.go:126-154 | a file is in an outcome list iff it was processed and has that outcome |
| Scp.SelectPartition | internal/ssh/scp.go:126-154 | every file has exactly one outcome: skipped, updated, added or failed |
| Scp.EnumerationSize | internal/ssh/scp.go:57-104 | walking a map visits each of its keys once |
| Scp.WrittenAt | internal/ssh/scp.go:141-145 | a written path holds the new hash afterwards; any other path is as it was |
| Scp.WrittenMirrors | internal/ssh/scp.go:104-157 | with no failed write, the writes give every store file its content hash on the remote |
| Scp.SuccessfulCopyMirrors | internal/ssh/scp.go:30-157 | a copy without failure deletes exactly the remote paths the store lacks, leaves the remote tree holding exactly the store's files with their hashes, and counts every file as skipped, updated or added |
| Scp.ListRemote | internal/ssh/scp.go:173-183 | a missing directory lists as empty; any other read error is returned |
| Scp.ListedPaths | internal/ssh/scp.go:173-207 | a successful listing holds exactly the relative paths of the files reachable through the directories |
| Scp.ListedEntryPaths | internal/ssh/scp.go:186-204 | the loop over one directory adds exactly the files below its entries |
| Pool.Capacity | internal/ssh/pool.go:21-23 | a capacity of zero becomes the default of 10; any other is kept; the capacity is positive |
| Pool.SftpPool.constructor | internal/ssh/pool.go:30-34 | a new pool is empty with the given capacity |
| Pool.SftpPool.Create | internal/ssh/pool.go:25-27 | the factory makes a new connection when it succeeds and nothing otherwise |
| Pool.SftpPool.Get | internal/ssh/pool.go:49-71 | an idle live connection is reused; a dead one is closed and replaced by a new one; an empty pool creates one; the idle list never exceeds the capacity |
| Pool.SftpPool.Put | internal/ssh/pool.go:74-86 | a returned connection is kept when the pool has room and closed when it is full |
| Pool.NewPool | internal/ssh/pool.go:20-46 | construction pre-creates half the capacity and fails iff one of those creations fails |
| Pool.Numbers | internal/ssh/pool.go:37-43 | the pre-created connections are numbered 0 to n - 1 |
| Pool.PoolScenario | internal/api/server.go:60 | a capacity-5 pool starts with two connections, a third Get creates one, and three returns fill it to three |
| Pool.DeadAndFull | internal/ssh/pool.go:53-85 | a dead pooled connection is closed and replaced, and a full pool closes a returned connection |
| Server.CorsAllow | internal/api/server.go:75-88 | an origin is admitted iff the list is empty, or holds "*" or the origin itself |
| Server.Cors | internal/api/server.go:74-108 | an admitted request gets the origin echoed (or "*" without an Origin header); the credentials, headers and methods headers are always set and no other; OPTIONS is answered with 204 and nothing else is |
| Server.OriginAllowedCases | internal/api/server.go:79-88 | "*" admits every origin; a non-empty list without "*" admits exactly its members, so a missing Origin header is refused |
| Server.PoolKey | internal/api/server.go:55 | the pool key is the host, a colon and the port in decimal |
| Server.PoolKeyInjective | internal/api/server.go:55-58 | two servers share a pool iff they have the same host and port, for hosts without a colon |
| Server.ApiServer.constructor | internal/api/server.go:27-33 | a new server holds no pools |
| Server.ApiServer.GetPool | internal/api/server.go:51-66 | a cached pool is returned unchanged; otherwise a capacity-5 pool is created, and cached only when its creation succeeds |
| Server.PoolCacheScenario | internal/api/server.go:51-66 | the same server shares one pool, another port gets its own, and a failed creation is not cached so the next request tries again |
| Server.NoRoute | internal/api/server.go:150-157 | an unmatched path gets the JSON 404 iff it starts with "/api", and the index page otherwise |
| Server.NoRouteIsPlainPrefix | internal/api/server.go:152 | the test is a plain prefix: "/apidocs" is treated as an API path and "/ap" is not |
| ApiGroups.HostOf | internal/api/handler_groups.go:15-19 | a host entry carries the server's name, its address and the last element of its config directory |
| ApiGroups.HostsOf | internal/api/handler_groups.go:13-20 | a group's host list is one entry per server in order, and null for a group without servers |
| ApiGroups.CollectHosts | internal/api/handler_groups.go:13-20 | the inner loop over a group's servers builds exactly that host list |
| ApiGroups.GroupsOf | internal/api/handler_groups.go:11-25 | the group list is one entry per configured group in order, and null when there are none |
| ApiGroups.GetGroups | internal/api/handler_groups.go:10-27 | the handler's two loops build exactly that group list |
| ApiGroups.MenuFollowsConfig | internal/api/handler_groups.go:15-23 | the k-th group entry and its j-th host carry the configured group name and that server's name and address |
| Text.BaseOfName | internal/api/handler_groups.go:18 | the suffix of a config directory ending in a plain name, with or without one trailing slash, is that name (so "/etc/nginx" and "/etc/nginx/" both give "nginx") |
| Text.AfterLastSlashOfName | internal/api/handler_groups.go:18 | the element after the last slash of a path ending in a plain name is that name |
| ApiFiles.CollectHashes | internal/api/handler_files.go:56-100 | the scan keeps one entry per ".hash" key under its path with the suffix and the prefix trimmed, a later key replacing an earlier one |
| ApiFiles.HashesOfKeys | internal/api/handler_files.go:57-63 | a path has a hash iff some ".hash" key yields it |
| ApiFiles.TreeStatus | internal/api/handler_files.go:102-136 | the two loops list the selected source's paths, then the host's other paths, and record their statuses |
| ApiFiles.VisitTargets | internal/api/handler_files.go:113-127 | the first loop lists every path of the selected source, trimmed, marks it "added" or "modified" when it differs from the host, and remembers exactly the paths it saw |
| ApiFiles.VisitTarget | internal/api/handler_files.go:114-126 | one path of the selected source is listed trimmed, and recorded under its trimmed form exactly when its rule gives it "added" or "modified" |
| ApiFiles.VisitRemote | internal/api/handler_files.go:129-136 | the second loop lists every host path the first loop did not see and marks it "deleted" |
| ApiFiles.RecordedMeaning | internal/api/handler_files.go:113-136 | a pass records each path its rule gives a status under the trimmed path, adds nothing else, and keeps what was recorded before |
| ApiFiles.StatusesMeaning | internal/api/handler_files.go:102-136 | whatever order the maps are walked in, a path of either side has a status iff it is only in the source ("added"), only on the host ("deleted") or in both with different hashes ("modified"), and every status belongs to such a path |
| ApiFiles.PathsMeaning | internal/api/handler_files.go:102-136 | every path of either side is listed exactly once, trimmed, and nothing else is listed |
| ApiFiles.FindServer | internal/api/handler_files.go:232-243 | the nested search returns the first server with that address in the first group of that name that has one |
| ApiFiles.FirstHostMeaning | internal/api/handler_files.go:235-239 | the address search finds the first server with the address, and nothing iff no server has it |
| ApiFiles.FirstServerMeaning | internal/api/handler_files.go:232-243 | a server is found iff some group of that name has a server with that address, and what is found is such a server |
| ApiFiles.TargetBase | internal/api/handler_files.go:48-84 | the host is compared with the preview store in preview mode and with the git store otherwise |
| ApiFiles.GetTree | internal/api/handler_files.go:15-143 | missing group or host is a 400; an unknown mode is a 400; an unknown server a 404; a store error a 500 with its message; otherwise the selected source's prefix, the listed paths and the statuses |
| ApiFiles.Sanitize | internal/api/handler_files.go:180-187 | a path under none of the three prefixes only loses a leading slash; sanitising never lengthens the path |
| ApiFiles.CompareLabel | internal/api/handler_files.go:200-206 | the label is "Preview" exactly in preview mode and "Production" otherwise |
| ApiFiles.Read | internal/api/handler_files.go:191-212 | a read gives the stored value, and "" for a missing key |
| ApiFiles.TripleDiff | internal/api/handler_files.go:145-229 | missing group, host or path is a 400; an unknown mode a 400; an unknown server a 404; otherwise the sanitised path, the host's content, the selected source's content, the diff text ("" when generation fails), the mode and the label |
| ApiFiles.DiffOf | internal/api/handler_files.go:167-229 | once the server is known, the reply carries the sanitised path, the host's copy and the selected source's copy of that path ("" when missing), the mode, its caption and the diff |
| ApiFiles.DiffTextOf | internal/api/handler_files.go:213-218 | the diff text is the library's text exactly when the counting step accepts it, and "" otherwise |
| ApiFiles.KeyPrefixStarts | internal/api/handler_files.go:37-39 | a source's prefix is its base, a slash and the rest |
| ApiFiles.SanitizeFirst | internal/api/handler_files.go:180-187 | a key under the preview prefix sanitises to the path below it |
| ApiFiles.SanitizeSecond | internal/api/handler_files.go:180-187 | a key under the git prefix, and not under the preview prefix, sanitises to the path below it |
| ApiFiles.GitKeyNotPreview | internal/config/config.go:144-145 | a key under the default git prefix never starts with the default preview prefix and a slash |
| ApiFiles.TreeKeySanitizes | internal/api/handler_files.go:180-187 | with the default prefixes, the key the console holds for a tree file sanitises back to the file's path in both modes |
| ApiOps.Write | internal/api/handler_ops.go:136-142 | a response keeps every written body in order; the first write fixes the status and later writes leave it unchanged |
| ApiOps.FirstStatusSticks | internal/api/handler_ops.go:136-167 | after the first body, any further sequence of writes leaves the status as it was and adds exactly one body per write |
| ApiOps.CheckDirOf | internal/api/handler_ops.go:48-51 | the check directory is the configured one when set, otherwise "check" joined under the configuration directory |
| ApiOps.BinaryOf | internal/api/handler_ops.go:68-71 | the nginx binary is never empty: the configured path when set, otherwise "nginx" |
| ApiOps.TestCommand | internal/api/handler_ops.go:75-76 | the test command starts with the binary followed by " -t -c " and ends with "nginx.conf" |
| ApiOps.JoinPathEnds | internal/api/handler_ops.go:75 | joining a directory and a non-empty file name yields a path that ends with the file name |
| ApiOps.DefaultCheckCommand | internal/api/handler_ops.go:48-76 | with no check directory and no binary configured, the command is "nginx -t -c <configDir>/check/nginx.conf" |
| ApiOps.ReloadCommand | internal/api/handler_ops.go:227-233 | the reload command is the effective binary followed by " -s reload", the same binary the configuration test uses |
| ApiOps.SyncOf | internal/api/handler_ops.go:84-93 | the response's sync section carries every count and file list of the copy unchanged |
| ApiOps.ApplyMessageDistinguishes | internal/api/handler_ops.go:250-251 | two equal apply success messages report the same total |
| ApiOps.CheckConfig | internal/api/handler_ops.go:13-101 | a bad body gives 400 with its error; a mode other than preview or prod gives 400; an unknown server 404; a pool failure 500; otherwise the store subtree of the mode's prefix is copied to the check directory, a copy or client failure gives 500 without running anything, and on success the test command is run and 200 reports its outcome with the copy's counts |
| ApiOps.UpdatePrepare | internal/api/handler_ops.go:104-187 | a bad body gives 400; a mode other than prod gives 400 "mode must be 'prod'"; an unknown server 404; a pool failure 500; otherwise the git-prefix subtree is copied into the live configuration directory and the test command is run there; an empty configuration directory adds a 500 error body first and fixes the status at 500 while processing carries on |
| ApiOps.UpdateApply | internal/api/handler_ops.go:189-258 | a bad body gives 400; an unknown server 404; a pool, copy or client failure 500 with its message; otherwise the reload command is run, a failed reload gives 500 "Failed to reload Nginx" with the command output, and a successful one 200 with the applied message built from the copy's counts |
| ApiGit.Classify | internal/api/handler_git.go:61-83 | "synced" exactly when the hashes are equal; otherwise "ahead" exactly when only the remote-is-ancestor check holds, "behind" exactly when only the local-is-ancestor check holds, and "diverged" exactly when both or neither hold |
| ApiGit.ErrorCountsAsFalse | internal/api/handler_git.go:68-75 | an ancestry check that returns an error classifies exactly as one that answers false |
| ApiGit.ClassifySymmetric | internal/api/handler_git.go:64-83 | swapping the two commits (and their ancestry checks) turns "ahead" into "behind" and back |
| ApiGit.ToCommitInfo | internal/api/handler_git.go:101-111 | a missing commit gives no record; a present one gives its hash, message, author name and time |
| ApiGit.BranchName | internal/api/handler_git.go:20-23 | the configured branch, or "master" when none is configured |
| ApiGit.GitStatus | internal/api/handler_git.go:13-99 | the repository open, HEAD and local commit failures answer 500 with their own messages; otherwise 200 with the branch, mode "git" and the local commit; a missing remote reference or remote commit gives status "error" and the sync hint; equal hashes give "synced" with no diff; distinct hashes give the classification together with the remote-to-local patch or the diff error |
| ApiGit.ReportsAreTagged | internal/api/handler_git.go:54-96 | a successful report never keeps the placeholder "unknown", so the drawer shows a known tag, and the tag is red exactly for a missing remote or a diverged history |
| SyncUtils.IsIgnored | internal/sync/utils.go:18-47 | a path is ignored exactly when it lies inside a ".git" directory, its last element is ".git", hidden or a ".swp" file, or some pattern glob-matches its last element or occurs anywhere in the path |
| SyncUtils.PatternsCombine | internal/sync/utils.go:37-45 | a path is ignored by two pattern lists placed one after the other exactly when either list ignores it |
| SyncUtils.EmptyPatternIgnoresAll | internal/sync/utils.go:42-44 | an empty pattern occurs in every path, so a list holding one ignores every path |
| SyncUtils.NoPatterns | internal/sync/utils.go:18-35 | with no patterns only the fixed ".git", hidden-name and swap-file rules decide |
| SyncUtils.DerivedKeys | internal/sync/utils.go:55-59 | a desired file accounts for its content key and its ".hash", ".commit" and ".meta" companions, at most four keys |
| SyncUtils.BuildAllowed | internal/sync/utils.go:53-60 | the loop collects the four keys of every desired file |
| SyncUtils.AllowedMeaning | internal/sync/utils.go:53-60 | a key is allowed exactly when it is one of the four keys of some desired file |
| SyncUtils.AllowedHas | internal/sync/utils.go:53-60 | each of the four keys of every desired file ends up in the allowed set |
| SyncUtils.AllowedOnly | internal/sync/utils.go:53-60 | a key in the allowed set is one of the four keys of some desired file |
| SyncUtils.DesiredKeysAllowed | internal/sync/utils.go:55-59 | each desired file's content, hash, commit and meta keys are all allowed |
| SyncUtils.Removed | internal/sync/utils.go:68-86 | the mirror delete removes at most as many keys as are listed |
| SyncUtils.MirrorDelete | internal/sync/utils.go:51-97 | a failed prefix read returns its error before anything is deleted; otherwise every listed key that is not the prefix itself, starts with the prefix and is not allowed is deleted unless its delete fails, the store loses exactly those keys and the count is the number of successful deletes |
| SyncUtils.RemovedMeaning | internal/sync/utils.go:69-86 | a key is removed exactly when it is listed, an orphan under the prefix, and its delete succeeds |
| SyncUtils.MirrorMeaning | internal/sync/utils.go:51-97 | when the listing is the store's keys under the prefix, the store keeps exactly the keys that are not orphans or whose delete failed, with their values unchanged |
| SyncUtils.DesiredKept | internal/sync/utils.go:55-82 | a desired file's content and hash keys survive the mirror delete |
| SyncUtils.MirrorResult | internal/sync/utils.go:63-86 | the result of the mirror delete does not depend on the order the store lists the keys in |
| SyncUtils.ListUnder | internal/sync/utils.go:63 | the prefix read returns exactly the store keys that start with the prefix |
| SyncUtils.Mirror | internal/sync/sync.go:230-236 | the store after the closing mirror delete is unchanged when the prefix read fails and otherwise loses exactly the orphans whose deletes succeed |
| SyncUtils.Put | internal/sync/sync.go:197-217 | a put sets its key to the value unless it fails, and leaves every other key as it was |
| SyncUtils.RelUnder | internal/sync/sync.go:155-165 | a path is selected only when it starts with the expected prefix as a string; the selected name is non-empty and is the rest of the path after the prefix and at most one slash |
| SyncUtils.RelUnderDirectory | internal/sync/sync.go:155-165 | a file below the expected directory is selected with its path below that directory |
| SyncUtils.RelUnderSibling | internal/sync/sync.go:156 | a path that continues the prefix without a slash, such as a sibling directory "nginx2" next to "nginx", is selected too |
| SyncUtils.ServerKeyUnderPrefix | internal/sync/sync.go:243-245 | a file's content key is the server's store prefix, a slash and the file's path, the same key the mirror delete derives for it |
| SyncUtils.CompanionsUnderPrefix | internal/sync/sync.go:179-182 | a content key and its three companions all start with the server's prefix |
| SyncUtils.CompanionsDiffer | internal/sync/sync.go:179-182 | the content key and its three companion keys are four different keys |
| GitSyncer.Desired | internal/sync/sync.go:149-165 | the selected paths are at most as many as the tree's files and none is empty |
| GitSyncer.SelectFile | internal/sync/sync.go:149-164 | an ignored file or one outside the server's directory is skipped; otherwise its path below the directory is selected |
| GitSyncer.WriteChanged | internal/sync/sync.go:197-217 | a failed content put writes nothing; otherwise the content is stored and the hash, commit and meta puts follow, each independently of the others' failures |
| GitSyncer.VisitFile | internal/sync/sync.go:149-217 | a selected file is recorded as desired even when its content cannot be read, and written unless unreadable or current |
| GitSyncer.WalkTree | internal/sync/sync.go:139-228 | the loop over the tree leaves the store as the files' effects in tree order and collects the selected paths in that order |
| GitSyncer.Sync | internal/sync/sync.go:81-239 | an empty configuration directory makes the pass a no-op; a failed repository sync, branch, commit or tree step returns its own message and changes nothing; a failed store read returns its message; an iteration error returns after the files before it without the mirror delete; otherwise the files are written and the server's prefix is mirror-deleted against the selected paths |
| GitSyncer.PassOf | internal/sync/sync.go:119-134 | the pass uses the base name of the configuration directory, the server's host and the commit's meta record (its hash and trimmed message), and its existing entries are exactly the store keys under the server's prefix |
| GitSyncer.DesiredMeaning | internal/sync/sync.go:149-165 | a path is desired exactly when some file of the tree selects it, readable or not |
| GitSyncer.FileWrites | internal/sync/sync.go:184-217 | a current copy (same stored hash and existing content key) is left alone; a failed content put writes nothing; a successful one stores the content and, where each put succeeds, the hash, the commit hash and the meta record |
| GitSyncer.DesiredFileKept | internal/sync/sync.go:165-231 | the content, hash, commit and meta keys of every desired file are allowed, so the mirror delete never removes them |
| GitSyncer.StepKeepsOutside | internal/sync/sync.go:179-217 | one file changes no key outside the server's prefix |
| GitSyncer.PassKeepsOutside | internal/sync/sync.go:139-228 | a whole pass changes no key outside the server's prefix: other servers' files are left as they were |
| PreviewSyncer.PatternLines | internal/sync/preview_syncer.go:48-57 | the .gitignore patterns are at most as many as its lines and none is blank or a comment |
| PreviewSyncer.LoadGitignore | internal/sync/preview_syncer.go:36-64 | a missing file gives no patterns; an open failure and a scan failure give their own messages; otherwise the trimmed lines that are neither blank nor comments, in file order |
| PreviewSyncer.PatternLinesMeaning | internal/sync/preview_syncer.go:50-56 | a string is a loaded pattern exactly when it is the trimmed form of some line and is neither blank nor a comment |
| PreviewSyncer.AssemblePatterns | internal/sync/preview_syncer.go:81-89 | the syncer's patterns are the .gitignore ones followed by the configured ones, and only the configured ones when the .gitignore cannot be loaded |
| PreviewSyncer.IgnoreSources | internal/sync/preview_syncer.go:81-89 | a path is ignored by the assembled patterns exactly when the .gitignore patterns or the configured patterns ignore it |
| PreviewSyncer.Desired | internal/sync/preview_syncer.go:190-218 | the selected paths are at most as many as the walk's entries and none is empty |
| PreviewSyncer.SelectEntry | internal/sync/preview_syncer.go:190-217 | directories, ignored files and files outside the server's directory are skipped; otherwise the path below the directory is selected |
| PreviewSyncer.WriteChanged | internal/sync/preview_syncer.go:241-246 | a failed content put writes nothing; otherwise the content is stored and the hash put follows |
| PreviewSyncer.VisitEntry | internal/sync/preview_syncer.go:190-256 | a selected file is recorded as desired even when unreadable, and written unless unreadable or current |
| PreviewSyncer.Walk | internal/sync/preview_syncer.go:185-257 | the walk leaves the store as the entries' effects in walk order and collects the selected paths in that order |
| PreviewSyncer.PassOf | internal/sync/preview_syncer.go:168-180 | the pass uses the base name of the configuration directory, and its existing entries are exactly the store keys under the server's prefix |
| PreviewSyncer.InitialSync | internal/sync/preview_syncer.go:159-269 | an empty repository path and a failed store read return their messages and change nothing; a walk error returns after the entries before it without the mirror delete; otherwise the files are written and the prefix is mirror-deleted against the selected paths |
| PreviewSyncer.Resyncs | internal/sync/preview_syncer.go:300-306 | an event on an ignored path never triggers a resync |
| PreviewSyncer.ResyncEvents | internal/sync/preview_syncer.go:293-312 | on a path that is not ignored, an event resyncs exactly when it carries a create, write, remove or rename bit; a permission change alone never does |
| PreviewSyncer.DesiredMeaning | internal/sync/preview_syncer.go:190-218 | a path is desired exactly when some walk entry selects it, readable or not |
| PreviewSyncer.WriteFileMeaning | internal/sync/preview_syncer.go:241-246 | a failed content put writes nothing; otherwise the content is stored and, unless its put fails, the hash |
| PreviewSyncer.FileWrites | internal/sync/preview_syncer.go:233-246 | a current copy is left alone; a failed content put writes nothing; a successful one stores the content and, unless its put fails, the hash |
| PreviewSyncer.DesiredFileKept | internal/sync/preview_syncer.go:218-262 | the content and hash keys of every desired file are allowed, so the mirror delete keeps them |
| PreviewSyncer.RepoPathPatternIgnoresAll | internal/sync/preview_syncer.go:185-196 | the patterns are matched against the walk's full path, so a pattern occurring in the repository path itself ignores every file |
| NginxSyncer.Listing | internal/sync/nginx_syncer.go:206-219 | a line lists a path only when that path is not ignored |
| NginxSyncer.Listed | internal/sync/nginx_syncer.go:204-225 | the listed paths are at most as many as the output lines |
| NginxSyncer.ListLine | internal/sync/nginx_syncer.go:207-219 | a blank line lists nothing; otherwise the trimmed line without the directory and one slash is listed unless ignored |
| NginxSyncer.ReadRemoteConfigFiles | internal/sync/nginx_syncer.go:189-232 | a failed find command gives "failed to list remote config files: " and its error; otherwise the paths the trimmed output's lines list, in output order |
| NginxSyncer.ListedStep | internal/sync/nginx_syncer.go:206-225 | one more output line adds exactly the path it lists |
| NginxSyncer.ListedMeaning | internal/sync/nginx_syncer.go:204-225 | a path is listed exactly when some output line lists it, so no listed path is ignored |
| NginxSyncer.LineInsideDirectory | internal/sync/nginx_syncer.go:207-219 | a line naming a file inside the directory lists the file's path below the directory |
| NginxSyncer.StorePrefix | internal/sync/nginx_syncer.go:100 | the server's prefix, joined with "/" without cleaning, is never empty |
| NginxSyncer.Desired | internal/sync/nginx_syncer.go:101-106 | the desired paths are at most as many as the listed files and none is empty |
| NginxSyncer.WriteChanged | internal/sync/nginx_syncer.go:151-169 | a failed content put writes nothing; otherwise the content is stored and the hash and meta puts follow |
| NginxSyncer.VisitFile | internal/sync/nginx_syncer.go:101-176 | a listed file is recorded as desired even when unreadable, and written unless unreadable or its stored hash, read from the current store, matches |
| NginxSyncer.SyncFiles | internal/sync/nginx_syncer.go:101-176 | the loop leaves the store as the files' effects in listing order and collects their paths in that order |
| NginxSyncer.PassOf | internal/sync/nginx_syncer.go:85-100 | the pass uses the configuration directory, its base name and the server's host |
| NginxSyncer.Sync | internal/sync/nginx_syncer.go:69-186 | an empty configuration directory makes the pass a no-op; a failed connection and a failed listing return their messages and change nothing; otherwise the listed files are written and the prefix is mirror-deleted against their paths |
| NginxSyncer.DesiredMeaning | internal/sync/nginx_syncer.go:101-106 | a path is desired exactly when it is non-empty and some listed file has it as its path without the leading slash |
| NginxSyncer.FileWrites | internal/sync/nginx_syncer.go:131-169 | a matching stored hash skips the file; a failed content put writes nothing; otherwise the content and, where their puts succeed, the hash and the meta record are stored |
| NginxSyncer.MissingContentNotRestored | internal/sync/nginx_syncer.go:138-149 | only the hash is compared: a file whose stored hash matches is skipped even when its content key is missing, so the content is not restored |
| NginxSyncer.FileKeyUnderPrefix | internal/sync/nginx_syncer.go:236-238 | a content key is the server's prefix, a slash and the file's path, the same key the mirror delete derives for it |
| NginxSyncer.DesiredFileKept | internal/sync/nginx_syncer.go:106-178 | the content, hash and meta keys of every desired file are allowed, so the mirror delete keeps them |
| NginxSyncer.StepKeepsOutside | internal/sync/nginx_syncer.go:127-169 | one file changes no key outside the server's prefix |
| NginxSyncer.PassKeepsOutside | internal/sync/nginx_syncer.go:101-176 | a whole pass changes no key outside the server's prefix |

## Left out

- Config.ServerErrors: an address is accepted only in dotted IPv4 form, while the source's address parser also accepts IPv6 literals; IPv6 parsing is not modelled.
- Scp.Copy: its error texts carry the failing step's own message, not the wrapped SFTP or store error; a failure of the pool's `Get` inside the copy is not modelled; "directory does not exist" is recognised in the source by the error text and is a `Missing` listing here.
- Scp.UploadAll: the uploads run one after another, not concurrently; when several uploads fail, the error reported is the first failure in upload order, whereas the source reports whichever upload fails first in time.
- ApiFiles.StatusesMeaning: the statuses are stated only for stores in which no two keys differ just by a leading "/"; with such keys the source's outcome depends on the map iteration order.
- ApiFiles.PathsMeaning: the listed paths are stated only for stores in which no two keys differ just by a leading "/"; with two such keys the source lists the trimmed path twice, which the model does not state.
- ApiFiles.TripleDiff: a failed read of one of the three versions is read as empty text, as in the source; the diff algorithm itself is an input.
- DiffStats.Generate: a diff output of fewer than two lines would make the source's slice panic; here it is an error with an empty diff. The diff library never produces such output.
- NginxSyncer.Sync: the remote syncer reads no key prefix at the start, so the store read fault is not consulted; the full remote path for a read uses a cleaning join in the source and a plain join here, and the read itself is an input.
- Path cleaning (`path.Clean`) is not modelled: joins drop empty parts and insert "/" but do not resolve "." or "..", nor collapse doubled slashes inside a part. The remote syncer builds keys with a plain join, while the mirror delete uses a cleaning join. The two agree on the keys modelled here (NginxSyncer.FileKeyUnderPrefix), but they would differ for a key prefix with a trailing slash.
- Go's `filepath.Rel` never fails for the walk's own paths; its error branch is not modelled.
- The order in which etcd lists keys and the order in which Go walks a map are inputs (a sequence enumerating the set); results that do not depend on the order are proved as such.
- Hashing (MD5), the clock, the SSH connection and remote commands, git (clone, pull, ancestry, patches), the file system walk and the `.gitignore` file are inputs to the operations that use them.
- JSON escaping of the meta records and the response bodies is not modelled; records are built from their fields as plain strings.
- The watcher loop, the poll tickers and the syncers' start and stop are not modelled; one pass and one event decision are.
- Reading the YAML configuration (viper) is not modelled; the configuration is a value and its defaults and validation are.
- Logging is not modelled; branches that only log are modelled as doing nothing.
- Console: the page is modelled with buildTree as written, so the corrected TreeBuilder.BuildTree states what the page was evidently meant to show, not what it shows; a tree reply with a non-2xx status still builds a tree, as in the source; the latest completion wins, because no request is ever discarded as stale; the auto-refresh timer restarts on every render of the parent.
- AutoRefresh.IntervalFromInput: the number input's minimum of 3 seconds is enforced by the input widget, which is not modelled; the model takes the value the widget passes on.
- JavaScript's `trim` and Go's `TrimSpace` are both modelled with the ASCII whitespace set (space, tab, newline, carriage return, vertical tab, form feed); the Unicode spaces both also strip are not modelled.
- TreeBuilder.NameLessTotal: `localeCompare` is modelled as code-point order; locale collation is not modelled.
- The check result dialog, the file content panel and the file tree component only display state; they are not modelled.

## Findings

| source | as written | input that shows it | evidently intended | confidence | as-written member | corrected member |
|---|---|---|---|---|---|---|
| ui/src/App.tsx:78 | the page's buildTree (and its identical copy at ui/src/utils/treeBuilder.tsx:20) checks `!current[seg]`; this looks a segment up in a plain `{}` object, so a segment named like an inherited property is taken as already present, and no node is created for it | a single file named `valueOf` (or `toString`, `constructor`) | every segment gets its own node, whatever its name | high, not executed | TreeBuilder.BuildTreeAsWritten, which the console uses (TreeBuilder.InheritedNameDropped shows the file missing; Console.InheritedNameHidden shows the page's empty tree) | TreeBuilder.BuildTree (TreeBuilder.HierarchyHasPath with no blocked names: every path's node is present, with its key and status, unless an earlier part of it is a file; TreeBuilder.InheritedNameDropped shows the file present; TreeBuilder.BuildTreeWellShaped) |
