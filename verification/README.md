# pve-cli in Dafny

A model of the core of pve-cli (the `pxc` command), a terminal tool that creates virtual
machines on a Proxmox VE node and manages installation images there. The model covers:

- the field validators (`src/lib/validators.ts`);
- the settings file with its legacy migration (`src/lib/config.ts`);
- the node queries and VM creation (`src/lib/proxmox.ts`);
- the six wizard steps that gather a VM's settings (`src/steps`);
- the four image commands `iso download`, `iso upload`, `iso delete` and `iso list` (`src/commands`).

How each part is modelled:

- **The node.** A `Proxmox.Node` object keeps the log of the commands it was asked to run. It
  answers each command through a fixed response function of the log so far. Every query of
  `proxmox.ts` runs one command and reads its output with a pure parser. `createVm` runs a
  plan of three or four `qm` commands and stops at the first failure.
- **The settings.** The new-format YAML file and the legacy JSON file are values. Whether the
  new file can be written is a property of the `ConfigStore.Store` that holds them. Each
  operation loads the file afresh, as the source does.
- **The wizard steps.** Each step is a class whose fields are the component's state
  variables. The `onNext` calls it makes are recorded in `emitted`. Each asynchronous effect
  is one method that runs the node queries and applies their outcome.
- **The image commands.** Each command is a class with a status. `Start`, `Find` and `Load`
  are the first part of the effect. `Finished` is the settling of the transfer or deletion,
  whose outcome arrives as a parameter.
- **JavaScript built-ins.** `JsText` gives the string built-ins the code relies on:
  - `trim`;
  - `split` on one character and on `/\s+/`;
  - `includes`;
  - `toLowerCase`;
  - `padStart` and `padEnd`;
  - `repeat`;
  - `toString` of an integer;
  - `parseInt(s, 10)`.

## Model

| member | source | states |
|---|---|---|
| Validators.VmidAcceptsExactly | src/lib/validators.ts:5-8 | the printed form of n, followed by anything that does not start with a digit, is a valid VM id exactly when 0 < n < 999999999 |
| Validators.CoresAcceptsExactly | src/lib/validators.ts:14-17 | the printed form of n (plus any non-digit tail) is a valid core count exactly when 1 <= n <= 128 |
| Validators.MemoryAcceptsExactly | src/lib/validators.ts:19-22 | the printed form of n (plus any non-digit tail) is a valid memory size exactly when 64 <= n <= 1048576 |
| Validators.DiskSizeAcceptsExactly | src/lib/validators.ts:24-27 | the printed form of n (plus any non-digit tail) is a valid disk size exactly when 1 <= n <= 999999 |
| Validators.CoresBoundaries | src/lib/validators.ts:14-17 | "128" is accepted, "129" and "0" are refused |
| Validators.CoresJudgedByPrefix | src/lib/validators.ts:14-17 | only the leading integer counts: "12abc" and "  8" are accepted |
| Validators.MemoryBoundaries | src/lib/validators.ts:19-22 | "64" is accepted and "63" refused |
| Validators.NoLeadingIntegerRejected | src/lib/validators.ts:5-27 | text whose first non-blank character is neither a digit nor a sign parses to NaN and fails all four numeric validators |
| Validators.VmNameBoundaries | src/lib/validators.ts:10-12 | a name is valid exactly when it has 1 to 63 characters |
| JsText.ParseIntOfPrinted | src/lib/validators.ts:6 | `parseInt(s, 10)` reads back any printed integer, whatever non-digit text follows it |
| JsText.ParseIntSkipsWhiteSpace | src/lib/validators.ts:6 | leading white space does not change what `parseInt` reads |
| JsText.TrimOfPadded | src/lib/proxmox.ts:179 | `trim` removes exactly the white space around a word |
| JsText.TrimEmptyIffBlank | src/lib/proxmox.ts:51 | a line trims to nothing exactly when it is all white space |
| JsText.Split | src/lib/proxmox.ts:46 | `split` on a character gives at least one piece, and no piece holds the separator |
| JsText.JoinSplit | src/lib/proxmox.ts:46 | joining the pieces of a `split` with the separator restores the text |
| JsText.SplitJoin | src/lib/proxmox.ts:62 | splitting the join of separator-free pieces gives the pieces back |
| JsText.SplitWs | src/lib/proxmox.ts:53 | `split(/\s+/)` gives at least one field; no field holds white space; only the first and last may be empty |
| JsText.SplitWsJoin | src/lib/proxmox.ts:53 | `split(/\s+/)` of non-empty fields joined by spaces gives the fields back |
| JsText.LastPieceAfter | src/lib/proxmox.ts:106 | the last piece of a path split on '/' is the name after its last slash |
| JsText.ToLower | src/commands/iso-delete.tsx:20 | `toLowerCase` keeps the length and maps each ASCII capital to its small letter |
| JsText.Repeat | src/commands/iso-download.tsx:23 | `repeat` gives n copies of the character |
| JsText.PadStart | src/commands/iso-download.tsx:28 | `padStart` puts spaces in front up to the width and keeps a longer text whole |
| JsText.PadEnd | src/commands/iso-list.tsx:49-57 | `padEnd` puts spaces after the text up to the width and keeps a longer text whole |
| ConfigStore.Get | src/lib/config.ts:15-27 | a stored default always has the type its key declares |
| ConfigStore.Set | src/lib/config.ts:118 | the key then holds the value, and every other key is unchanged |
| ConfigStore.SavesPreferences | src/lib/config.ts:125-128 | preferences are saved unless `ui.savePreferences` is explicitly false |
| ConfigStore.Load | src/lib/config.ts:38-82 | an existing file is never rewritten; a missing file is written exactly when the legacy file migrates and the write succeeds, and then holds the migrated settings, which are returned; a missing file with no or an unreadable legacy file, or a failed write, gives {} and stays missing; a document is read as is, an empty one as {}, an unreadable file gives {} |
| ConfigStore.LoadIdempotent | src/lib/config.ts:65-82 | loading again after a load returns the same settings and writes nothing |
| ConfigStore.LegacyMigration | src/lib/config.ts:38-60 | a legacy `isoStorage` becomes `{defaults: {isoStorage}, ui: {savePreferences: true}}`, is saved and is read back; a failed save leaves {} and no file |
| ConfigStore.SetDefaultChangesOneKey | src/lib/config.ts:110-120 | setDefault changes its key only: other keys, `ui` and the save-preferences answer stay |
| ConfigStore.SetThenGet | src/lib/config.ts:100-120 | getDefault after a successful setDefault returns the value set |
| ConfigStore.Store.constructor | src/lib/config.ts:6-10 | a store holds the two files as given and whether the new one can be written |
| ConfigStore.Store.SaveConfig | src/lib/config.ts:87-95 | the file holds the settings when it can be written; otherwise the write error is returned and the file is unchanged |
| ConfigStore.Store.MigrateLegacyConfig | src/lib/config.ts:38-60 | returns the migrated legacy settings, or nothing when the legacy file is missing or unreadable |
| ConfigStore.Store.LoadConfig | src/lib/config.ts:65-82 | returns the loaded settings and leaves the file as the load leaves it |
| ConfigStore.Store.GetDefault | src/lib/config.ts:100-105 | returns the key's value in the freshly loaded settings |
| ConfigStore.Store.SetDefault | src/lib/config.ts:110-120 | writes the loaded settings with the key set, or returns the write error and leaves the file as loading left it |
| ConfigStore.Store.ShouldSavePreferences | src/lib/config.ts:125-128 | answers SavesPreferences of the freshly loaded settings |
| ConfigStore.Store.GetIsoStoragePreference | src/lib/config.ts:138-140 | returns the saved ISO storage of the freshly loaded settings |
| ConfigStore.Store.SetIsoStoragePreference | src/lib/config.ts:142-144 | as SetDefault for the ISO storage key |
| Proxmox.Node.constructor | src/lib/proxmox.ts:1 | a node starts with an empty command log |
| Proxmox.Node.Run | src/lib/proxmox.ts:9 | a command is appended to the node's log and answered from the log before it |
| Proxmox.IsProxmoxNode | src/lib/proxmox.ts:7-14 | runs `which qm`, and answers true exactly when it succeeds |
| Proxmox.NextVmidFrom | src/lib/proxmox.ts:19-26 | fails, with the fixed message, exactly when the query fails |
| Proxmox.NextVmidReadsPrintedId | src/lib/proxmox.ts:21-22 | an id printed with white space around it is read back exactly |
| Proxmox.GetNextVmid | src/lib/proxmox.ts:19-26 | runs `pvesh get /cluster/nextid` once and reads its output |
| Proxmox.IsVmidAvailable | src/lib/proxmox.ts:31-38 | runs `qm status <id>`; the id is free exactly when that command fails |
| Proxmox.NodeNameFrom | src/lib/proxmox.ts:176-183 | "localhost" when `hostname` fails, otherwise a name with no white space at either end |
| Proxmox.NodeNameReadsHostname | src/lib/proxmox.ts:178-179 | the name is the `hostname` output with the white space around it removed |
| Proxmox.GetNodeName | src/lib/proxmox.ts:176-183 | runs `hostname` once and reads its output |
| Proxmox.StorageRowsAppend | src/lib/proxmox.ts:50-65 | the pools of two runs of lines are the pools of each, in order |
| Proxmox.StorageRowsMembership | src/lib/proxmox.ts:50-65 | a pool is listed exactly when some line yields it |
| Proxmox.RowStorageDiskCapable | src/lib/proxmox.ts:57-63 | a pool read from a line is available, and its content list mentions `images` |
| Proxmox.StorageRowsDiskCapable | src/lib/proxmox.ts:50-65 | every listed pool is available, and its content list mentions `images` |
| Proxmox.StorageHeaderIgnored | src/lib/proxmox.ts:46 | the first line of the output is never read as a pool |
| Proxmox.StatusRowKeptIff | src/lib/proxmox.ts:53-64 | a line yields the pool named by its first field exactly when the third field is `active` and the sixth mentions `images`; its content is the sixth field split on commas |
| Proxmox.ParseStorageStatus | src/lib/proxmox.ts:46-67 | the loop computes the pools of the specification function |
| Proxmox.GetStorages | src/lib/proxmox.ts:43-71 | runs `pvesm status` once; its pools, or the fixed error when the command fails |
| Proxmox.BridgesFrom | src/lib/proxmox.ts:76-89 | one bridge per decoded entry with its name, active only when `active` is the number 1; vmbr0 alone on failure |
| Proxmox.BridgeActiveIsNumericOne | src/lib/proxmox.ts:83 | an entry with `active: true` is listed as inactive; an empty array gives no bridge |
| Proxmox.GetBridges | src/lib/proxmox.ts:76-89 | runs the bridge query for the given node once and reads its output |
| Proxmox.FileNameOf | src/lib/proxmox.ts:106 | the name is empty only for an empty path |
| Proxmox.FileNameOfPath | src/lib/proxmox.ts:106 | the file name of `dir/name` is `name` (the whole path if it ends in a slash); a bare name is its own file name |
| Proxmox.IsoRowsAppend | src/lib/proxmox.ts:101-113 | the images of two runs of lines are the images of each, in order |
| Proxmox.IsoRowsMembership | src/lib/proxmox.ts:101-113 | an image is listed exactly when some line mentioning `.iso` yields it |
| Proxmox.IsoRowRoundTrip | src/lib/proxmox.ts:104-112 | a line `<volid> <format> <n> ...` with `.iso` in the volume id yields that volume, its last path segment and size n |
| Proxmox.IsoLineFields | src/lib/proxmox.ts:102-105 | splitting such a line on whitespace gives back exactly its fields, and the line passes the `.iso` filter |
| Proxmox.ParseIsoList | src/lib/proxmox.ts:97-115 | the loop computes the images of the specification function |
| Proxmox.GetIsoFiles | src/lib/proxmox.ts:94-120 | runs `pvesm list <storage>` once; its images, or none when it fails |
| Proxmox.RunPlanStops | src/lib/proxmox.ts:128-170 | a failing first command ends the run there, with its message as the failure |
| Proxmox.RunPlanGoesOn | src/lib/proxmox.ts:128-167 | a succeeding first command is followed by the run of the rest after it |
| Proxmox.RunPlanIssuesPrefix | src/lib/proxmox.ts:128-167 | a run issues a prefix of the plan: all of it when nothing fails, at least one command when something does |
| Proxmox.RunPlanEarlierSucceeded | src/lib/proxmox.ts:128-167 | every issued command succeeded, except the last one of a failed run |
| Proxmox.RunPlanFailureIsLast | src/lib/proxmox.ts:168-170 | a failed run ends with the command that failed, and the error carries its message |
| Proxmox.CreateVm | src/lib/proxmox.ts:125-171 | the node's log grows by the commands the plan run issued; the result is the first failure with the "VM creation failed: " prefix, or success |
| Proxmox.RunCreation | src/lib/proxmox.ts:128-170 | the awaited commands of the creation block, any three and an optional fourth, are issued in order until one fails; the log grows by exactly the issued ones and the first failure is rethrown with the "VM creation failed: " prefix |
| Proxmox.CreateVmCommands | src/lib/proxmox.ts:125-167 | at most four `qm` commands on the new id (three without an image), a prefix of create, disk, boot, image; the whole plan when nothing fails |
| Wizard.OwnedDisjoint | src/steps/Compute.tsx:38-42 | no two steps' updates share a field |
| Wizard.UpdatesCommute | src/steps/Compute.tsx:38-42 | updates of two different steps can be merged in either order with the same answers |
| ComputeStep.ComputeUpdate | src/steps/Compute.tsx:38-42 | the update's three numbers are within the validators' ranges once the three checks passed |
| ComputeStep.ComputeUpdateOfPrinted | src/steps/Compute.tsx:38-42 | typing the printed form of accepted numbers gives those numbers back in the update |
| ComputeStep.ComputeForm.constructor | src/steps/Compute.tsx:8-12 | fields start from the answers, else 2 cores, 2048 MB, 20 GB |
| ComputeStep.ComputeForm.Edit | src/steps/Compute.tsx:49 | typing changes only the field on screen |
| ComputeStep.ComputeForm.Submit | src/steps/Compute.tsx:14-43 | an invalid value stays with its message; valid cores or memory move on and clear it; a valid disk size sends the update; every update sent is within range |
| IdentityStep.FillKeepsTypedId | src/steps/Identity.tsx:20-22 | the corrected fill never replaces text already in the field |
| IdentityStep.StaleFillReplacesCheckedId | src/steps/Identity.tsx:15-27 | as written, an id typed and checked before the lookup returns is replaced by the fetched id, or by "NaN" |
| IdentityStep.IdentityUpdate | src/steps/Identity.tsx:51 | the update holds the id and the name; the id is `parseInt` of the field, NaN when no integer leads it, and within range whenever the field passes the id check and the name its check |
| IdentityStep.IdentityUpdateOfPrinted | src/steps/Identity.tsx:51 | a field holding a printed id sends exactly that id; a field holding "NaN" sends NaN |
| IdentityStep.IdentityForm.constructor | src/steps/Identity.tsx:8-13 | fields start from the answers, the id text at opening is kept for the effect, the id sub-step, no message |
| IdentityStep.IdentityForm.LoadNextVmid | src/steps/Identity.tsx:15-27 | the fetched id (or "NaN") becomes the default and replaces the field whenever the field was empty when the step opened, whatever it holds now; a failed lookup only sets its message; the id on the name sub-step is the checked one or this fetched default |
| IdentityStep.IdentityForm.Edit | src/steps/Identity.tsx:58 | typing changes only the field on screen |
| IdentityStep.IdentityForm.Submit | src/steps/Identity.tsx:29-52 | an id must pass the range check, then `qm status` must fail, before the name is asked; a valid name sends the update built from whatever the id field then holds, with no further check |
| IdentityStep.StaleFillSendsUncheckedId | src/steps/Identity.tsx:15-52 | on any node that reports a typed id free and then answers the lookup with another id, the step sends the fetched id, and the only ids the node was asked about are the typed one and the lookup |
| StorageStep.StorageOptions | src/steps/Storage.tsx:15-18 | one entry per pool, captioned `name (type)` with the name as value |
| StorageStep.OfferedPoolsAreDiskCapable | src/steps/Storage.tsx:13-19 | every pool offered comes from an active line whose content mentions `images` |
| StorageStep.StoragePicker.constructor | src/steps/Storage.tsx:8-10 | starts loading with no entries |
| StorageStep.StoragePicker.View | src/steps/Storage.tsx:28-57 | the list is shown exactly when loaded, without error, with at least one entry |
| StorageStep.StoragePicker.Load | src/steps/Storage.tsx:12-26 | runs `pvesm status`; its pools as entries, or the load-failure message |
| StorageStep.StoragePicker.Select | src/steps/Storage.tsx:55 | sends `{storage}` with the chosen entry's value |
| NetworkStep.BridgeOptions | src/steps/Network.tsx:16-19 | one entry per bridge, its name as caption and value |
| NetworkStep.FailureOffersVmbr0 | src/steps/Network.tsx:23-26 | a failed or undecodable query offers vmbr0 alone |
| NetworkStep.NetworkPicker.constructor | src/steps/Network.tsx:8-10 | starts loading with no entries |
| NetworkStep.NetworkPicker.View | src/steps/Network.tsx:30-51 | the loading line while loading, then the error when there is one, else the bridges to choose from |
| NetworkStep.NetworkPicker.NoFailureScreen | src/steps/Network.tsx:38-44 | the error screen is never shown, since nothing sets the error |
| NetworkStep.NetworkPicker.Load | src/steps/Network.tsx:12-28 | runs `hostname`, then the bridge query for that node; its bridges as entries |
| NetworkStep.NetworkPicker.Select | src/steps/Network.tsx:49 | sends `{bridge}` with the chosen entry's value |
| IsoStep.IsoChoices | src/steps/Iso.tsx:17-20 | one entry per image, its file name as caption and its volume id as value |
| IsoStep.OnlyNoIsoIffNothingListed | src/steps/Iso.tsx:15-26 | "(No ISO)" is offered alone exactly when `pvesm list` failed or listed no image |
| IsoStep.IsoUpdate | src/steps/Iso.tsx:46 | sends the image's volume id, or undefined for "(No ISO)" |
| IsoStep.IsoPicker.constructor | src/steps/Iso.tsx:8-9 | starts loading with no entries |
| IsoStep.IsoPicker.View | src/steps/Iso.tsx:35-48 | the loading line while loading, else the list, which starts with "(No ISO)" |
| IsoStep.IsoPicker.Load | src/steps/Iso.tsx:11-33 | lists storage `local`; "(No ISO)" first, then its images |
| IsoStep.IsoPicker.Select | src/steps/Iso.tsx:46 | sends `{isoVolid}` with the chosen entry's value |
| SummaryStep.OnSelect | src/steps/Summary.tsx:7-53 | "confirm" sends the empty update; anything else exits with status 0; of the two offered choices the first advances and the second exits |
| SummaryStep.IsoLine | src/steps/Summary.tsx:42 | the chosen volume id, or "(none)" when there is none or it is empty |
| IsoCatalog.UnitIndex | src/commands/iso-list.tsx:9 | the unit index is the largest i with 1024^i <= bytes |
| IsoCatalog.UnitIndexMonotone | src/commands/iso-list.tsx:9 | a larger count never gets a smaller unit; 1024 times as many bytes gets a larger one |
| IsoCatalog.UnitBoundaries | src/commands/iso-download.tsx:15-16 | 1 and 1023 bytes are in B, 1024 in KB, 1048576 in MB |
| IsoTarget.ResolvePrecedence | src/commands/iso-download.tsx:50-67 | an explicit storage wins, then the saved default, then the first storage found; with none, the fixed error |
| IsoTarget.Resolve | src/commands/iso-download.tsx:50-67 | an explicit storage is used as given; an error arises only with neither an explicit storage nor a saved default; a saved choice is the first storage found, saved only when preferences may be saved and the file is writable |
| IsoTarget.SavedOnlyWhenDiscovered | src/commands/iso-upload.tsx:22-38 | the choice is saved exactly when it came from the lookup, preferences may be saved and the file is writable |
| IsoTarget.SavedChoiceIsReused | src/commands/iso-download.tsx:52-65 | once a found storage is saved, the next resolution picks it from the settings and saves nothing |
| IsoTarget.StatusPathShape | src/commands/iso-upload.tsx:12 | a command never returns to checking, shows nothing after success or error, and succeeds only through checking then transferring |
| IsoTarget.ResolveTarget | src/commands/iso-upload.tsx:21-41 | the storage the commands use is the one Resolve gives, and the settings file ends as FileAfter says |
| IsoDownload.Filled | src/commands/iso-download.tsx:21 | the filled cell count is at most the width and within half a cell of percent/100 of it |
| IsoDownload.FilledMonotone | src/commands/iso-download.tsx:21 | more progress never fills fewer cells; 0% fills none and 100% all |
| IsoDownload.Bar | src/commands/iso-download.tsx:20-23 | the bar has the width's cells: filled ones, then empty ones |
| IsoDownload.PercentLabel | src/commands/iso-download.tsx:28 | the percentage is always three characters, right-aligned |
| IsoDownload.DownloadBytes | src/commands/iso-download.tsx:13-18 | "0 B" exactly for zero; otherwise the unit whose power of 1024 the count reaches |
| IsoDownload.DisplayName | src/commands/iso-download.tsx:86 | the name shown is never empty |
| IsoDownload.DisplayNameOfUrl | src/commands/iso-download.tsx:86 | a given file name wins; else the name after the URL's last slash, or "download.iso" |
| IsoDownload.BytesLine | src/commands/iso-download.tsx:113 | the byte counts are shown exactly when the total is known |
| IsoDownload.RateLine | src/commands/iso-download.tsx:111-112 | the speed as given, then " • ETA: " and the ETA only when there is one |
| IsoDownload.IsoDownloadCommand.constructor | src/commands/iso-download.tsx:34-45 | starts checking, with the given storage as target, no progress and nothing requested |
| IsoDownload.IsoDownloadCommand.Start | src/commands/iso-download.tsx:48-72 | the download is requested once, to the resolved storage, or the resolution error is shown; the settings file ends as the resolution leaves it |
| IsoDownload.IsoDownloadCommand.Progressed | src/commands/iso-download.tsx:72-74 | only the progress changes |
| IsoDownload.IsoDownloadCommand.Finished | src/commands/iso-download.tsx:76-80 | success with the volume id, or the error with its message |
| IsoDownload.IsoDownloadCommand.View | src/commands/iso-download.tsx:88-134 | the progress screen exactly while transferring, with the display name, target, a bar of full width, the speed and ETA line and the byte counts exactly when the total is known; the saved-storage notice exactly when saved; the failure screen exactly on error |
| IsoUpload.UploadingMessage | src/commands/iso-upload.tsx:56-73 | the line reads "Uploading <name> to <target>..." |
| IsoUpload.UploadingNamesFile | src/commands/iso-upload.tsx:56 | the name shown is the part of the path after its last slash |
| IsoUpload.IsoUploadCommand.constructor | src/commands/iso-upload.tsx:12-16 | starts checking, with the given storage as target and nothing sent |
| IsoUpload.IsoUploadCommand.Start | src/commands/iso-upload.tsx:19-45 | the file is sent once, to the resolved storage, or the resolution error is shown; the settings file ends as the resolution leaves it |
| IsoUpload.IsoUploadCommand.Finished | src/commands/iso-upload.tsx:46-50 | success with the volume id, or the error with its message |
| IsoUpload.IsoUploadCommand.View | src/commands/iso-upload.tsx:58-88 | the success screen shows the saved-storage notice exactly when the choice was saved |
| IsoDelete.MatchesIgnoringCase | src/commands/iso-delete.tsx:19-21 | matching is: same volume id, or same file name ignoring case |
| IsoDelete.CaseOfNameIrrelevant | src/commands/iso-delete.tsx:20 | names differing only in letter case match the same file names |
| IsoDelete.FindMatch | src/commands/iso-delete.tsx:19-21 | the first image that matches, or none exactly when no image matches |
| IsoDelete.FindMatchIgnoresLater | src/commands/iso-delete.tsx:19-21 | images after the first match do not change what is found |
| IsoDelete.IsoDeleteCommand.constructor | src/commands/iso-delete.tsx:10-12 | starts finding, with nothing deleted |
| IsoDelete.IsoDeleteCommand.Find | src/commands/iso-delete.tsx:18-29 | a failed listing shows its message; no match shows not found and deletes nothing; otherwise the first match is deleted by its volume id |
| IsoDelete.IsoDeleteCommand.Finished | src/commands/iso-delete.tsx:31-36 | success, or the error with its message |
| IsoDelete.IsoDeleteCommand.View | src/commands/iso-delete.tsx:41-77 | "ISO not found: <name>" exactly in the not-found state |
| IsoList.NameLeqTotal | src/commands/iso-list.tsx:21 | any two file names are ordered one way or the other |
| IsoList.NameLeqTransitive | src/commands/iso-list.tsx:21 | the name order is transitive |
| IsoList.SortByName | src/commands/iso-list.tsx:21 | the listing is sorted by file name and holds the same images |
| IsoList.SortedPairwise | src/commands/iso-list.tsx:21 | in the sorted listing every earlier name is at most every later one |
| IsoList.SortKeepsImages | src/commands/iso-list.tsx:21 | sorting keeps the count and the set of images |
| IsoList.ListSize | src/commands/iso-list.tsx:6-11 | "-" exactly for a missing or zero size; a positive size in the unit its power of 1024 reaches |
| IsoList.Widest | src/commands/iso-list.tsx:42-43 | the width is at least the floor and every length, and is the floor or one of them |
| IsoList.NameWidth | src/commands/iso-list.tsx:42 | the name column is at least 32 wide, fits every file name with a two-space gap, and is 32 or exactly the longest name plus two |
| IsoList.StorageWidth | src/commands/iso-list.tsx:43 | the storage column is at least 12 wide, fits every storage name with a two-space gap, and is 12 or exactly the longest plus two |
| IsoList.RowCellsAlign | src/commands/iso-list.tsx:54-60 | every row's name and storage cells are exactly the column widths, the text followed by at least two spaces |
| IsoList.HeaderAligns | src/commands/iso-list.tsx:48-52 | the header's titles start where the rows' cells start |
| IsoList.Footer | src/commands/iso-list.tsx:64 | the count, then " ISO", then "s" exactly when the count is not 1, and nothing else |
| IsoList.IsoListCommand.constructor | src/commands/iso-list.tsx:14-16 | starts loading with no images and no message |
| IsoList.IsoListCommand.Load | src/commands/iso-list.tsx:18-28 | the images sorted by file name, or the error message |
| IsoList.IsoListCommand.View | src/commands/iso-list.tsx:30-68 | the error screen exactly when loaded with a non-empty message; "No ISOs found" exactly for an empty listing; the table has one row per image and the count footer |

## Left out

- Running commands (`execa`) is not modelled as such. Each command's answer comes from the node's response function.
- File access is not modelled as such. The settings files are values, and a write either succeeds or fails with a fixed message.
- YAML and JSON parsing and printing are not modelled. `JSON.parse` of the bridge query is a decode function passed as a parameter.
- The location of the settings files (`getConfigPath`, the home directory) is not modelled.
- `listAllIsos`, `getIsoStorages`, `downloadIso`, `uploadIso` and `deleteIso` are not part of this model. The commands receive their outcome as a parameter.
- How download speed and ETA are computed is not modelled. They are the strings the downloader reports, shown as received.
- The one-decimal scaled number (`toFixed(1)`) in byte counts is not modelled, because it is floating point. Only the unit is modelled.
- Floating-point rounding of `Math.log` near exact powers of 1024 is not modelled. The unit index is taken as exact.
- The download percentage is taken as a whole number from 0 to 100.
- `localeCompare` is modelled as character-code order. Locale collation is not modelled.
- IsoList.SortByName: the contract does not state that the sort is stable.
- `toLowerCase` is modelled on ASCII letters only.
- String lengths are counted in characters, not UTF-16 code units.
- The rejection handler of the network step cannot run, because getNodeName and getBridges never reject. The model has no such path.
- Edits that arrive while an effect awaits its answer are not interleaved. Each effect is one method.
- The exit of the process on cancel is an outcome value. It is not a process exit.
- Welcome.tsx, Execute.tsx, Error.tsx and src/commands/config.tsx are not part of this model.
- Proxmox.GetIsoFiles: the size is read from the third field of each line, as the code does. The model does not claim what `pvesm list` prints in that field.
- Proxmox.StatusRowKeptIff: the content list is read from the sixth field, as the code does. The model does not claim what `pvesm status` prints in that field.

## Findings

| source | as written | input that shows it | evidently intended | confidence | as-written member | corrected member |
|---|---|---|---|---|---|---|
| src/steps/Identity.tsx:15-27 | the effect that fills the id field tests `vmid` as it was when the step opened, since its dependency list is empty | the step opens with no id; the user types 150, which passes both checks; the lookup then returns 100 and the field becomes 100 (or "NaN" when the output is not a number), and that id is sent with the name | fill the field only while it is still empty at the time the lookup returns | medium, not executed | IdentityStep.StaleFillSendsUncheckedId | IdentityStep.FillKeepsTypedId |
