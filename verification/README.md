# mcpd, modelled and proved in Dafny

mcpd is a host for MCP plugins: it mounts plugins, lets people configure them in a
dashboard, decides who may call what, serves tunnels to ChatGPT accounts and writes
encrypted backups. This project models the parts of it that are hardest to get right and
proves what its code and comments promise of them. `dafny verify dfyconfig.toml` checks
everything.

**The backup archive** (`Bytes`, `ArchiveFormat`, `Sealer`, `Opener`,
`ArchiveTheorems`, `ArchiveFaults`). The sealer and the opener are classes over buffers, refined to a pure
chunking of the plaintext. The cipher is ideal: it opens exactly what was sealed. The
nonce shape is that of section 3.2 of RFC 5116.

**Access** (`Levels`, `Grants`, `Authorization`, over `Text`, `Sorting`, `Lists`). Levels,
permissions, grant lists and their normal form, principals and the decisions made with
them.

**Tunnels** (`SettingsStore`, `Tunnels`, `TunnelAccounts`, `TunnelMigration`). The
settings store, the configurations tunnels run with, pinning, removing accounts and the
move to tunnel-keyed assignments.

**Plugins** (`PluginSettings`, `Instances`, `Lifecycle`, `Reconcile`, `Dependence`,
`Convergence`, `Gaps`, over `Maps`). Where instances are declared and which source wins,
how settings resolve, what adding, removing, restoring and switching write and in which order, startup, reconciling,
and every interleaving of writes with detached reconciles.

**Configuration import and the SDK** (`ConfigImport`, `SdkPlugin`). The one-time import
of the startup file, and a plugin's registry and request loop.

## How it is modelled

Objects that change in place are classes whose methods are proved against a function of
the old state; loops over Go maps pick their next key arbitrarily, so what is proved holds
for every iteration order. A store write is atomic and may fail, and a failed write
changes nothing. Setting keys are datatype constructors. Each reconcile is one atomic
step. Integers are unbounded except for the chunk counter and the length prefix, which
wrap at 2^32 as the code's `uint32` does.

## What turned out not to hold

Each of these is a concrete input or family of inputs in the model, with the exact
condition under which the promise does hold.

- Past 2^32 chunks nonces repeat, and an archive can be cut at the wrap without being
  noticed (`NoncesDistinctExactly`, `CutsAreDetectedExactly`).
- `Normalize` trims names and `Reaches` does not, so a padded name changes its reach
  (`NormalizePreservesReachExactly`).
- A permission level an area cannot be held at still satisfies checks until it is
  normalized away (`NormalKeepsHoldsExactly`). This is latent: validation refuses such an
  entry, and decoding stored permissions drops it.
- A batch that deletes a key and puts it back leaves the cache without it
  (`CacheAgreesExactly`). The batches of pinning, unassigning, migrating and importing
  are proved not to.
- Two tunnels for everything both keep the diagnostics address (`OneBindsExactly`).
- Removing an account does not stop a tunnel that named it when one account is left
  (`TunnelOutlivesItsAccountExactly`).
- An account stored as white space is neither pinned over nor resolved
  (`PinnedThenMoreExactly`).
- The tunnel migration can write over a recorded account (`KeepsTunnelValuesExactly`), and
  runs after the pinning it should come before (`StartKeepsTunnelsExactly`). The comment
  at internal/app/tunnelassign.go:121 says the old keys are kept; the code at lines
  145-148 deletes them, and the model follows the code.
- Restoring a plugin keeps an on-off switch, though the comment at
  internal/app/instances.go:425-428 says the override is forgotten entirely
  (`RestoredAsDeclaredExactly`).
- A restore whose reload fails cannot be retried: the plugin stays removed in memory and
  the retry is told that it is not (`RestoreRetryExactly`, `UnreadRestoreStaysRemoved`).
- A dashboard-added plugin whose rows fail to delete leaves them to the next plugin of
  that name (`DashboardRetryExactly`, `OrphanedRowsAreInherited`).
- Among the writes modelled, two kinds change a plugin's configuration without queueing a
  reconcile (`GapExactly`, `UnfinishedRemovalGoesOnServing`, `AnothersReloadLeavesItServing`).
- "A plugin receives resolved values and never a reference" is not so inside the rows of
  a table the file supplies (`RowKeysExactly`).
- The configuration import replaces an API key stored empty
  (`NeverOverwritesExactly`).

## Model

| member | source | states |
|---|---|---|
| `ArchiveFormat.NonceInjective` | internal/backup/crypto.go:94-99 | a nonce names one index: equal nonces under one prefix mean equal indices |
| `ArchiveFormat.AadInjective` | internal/backup/crypto.go:108-116 | the additional data names one index and one final flag |
| `ArchiveFormat.ChunkShape` | internal/backup/crypto.go:143-183 | a plaintext of n bytes is n / 1 MiB + 1 chunks that concatenate to it: all but the last full, the last of length n mod 1 MiB |
| `ArchiveFormat.PeelFrame` | internal/backup/crypto.go:166-183 | the length prefix and the sealed bytes of a frame can be taken off again, whatever follows |
| `ArchiveFormat.PeeledIsFrame` | internal/backup/crypto.go:219-235 | whatever is taken off the head of the input and opens to a triple is that triple's own frame, byte for byte |
| `ArchiveFormat.SealedIsAllFrames` | internal/backup/crypto.go:143-183 | the body is the frames of all chunks in order, the last one alone flagged final |
| `ArchiveFormat.NoncesDistinctExactly` | internal/backup/crypto.go:94-99 | no nonce repeats within one archive if and only if the plaintext is shorter than 2^32 chunks |
| `ArchiveFormat.IdealExists` | internal/backup/crypto.go:79-89 | the ideal cipher the theorems assume exists for every archive |
| `ArchiveSealer.Sealer.Flush` | internal/backup/crypto.go:166-183 | one frame is appended under the next index, which advances modulo 2^32; on a failed write buffer and index stay and only a prefix of the frame is out |
| `ArchiveSealer.Sealer.Write` | internal/backup/crypto.go:143-157 | however the plaintext is split into calls, the writer holds the frames of the full chunks of everything accepted; on failure a prefix of them, and then every later write of anything fails and adds nothing |
| `ArchiveSealer.Sealer.Close` | internal/backup/crypto.go:159-164 | closing completes the body of everything written, with a final chunk even when it is empty; after a failed write it fails and adds nothing |
| `ArchiveSealer.SealAll` | internal/backup/archive.go:243-251 | any sequence of writes and a close leave the sealed body of their concatenation, and nothing else matters; when the writer fails, a prefix of it |
| `ArchiveOpener.Opener.NextChunk` | internal/backup/crypto.go:219-249 | one chunk is opened or the archive refused, as the pure step says, for any input; which fault is a refusal is FaultExactly |
| `ArchiveOpener.Opener.Read` | internal/backup/crypto.go:204-216 | a read of any size does what the pure read step does to the whole reader state |
| `ArchiveOpener.ReadAll` | internal/backup/crypto.go:186-249 | a run of reads on an opener gives the results of the pure run |
| `ArchiveTheorems.RoundTrip` | internal/backup/crypto.go:204-249 | an archive followed by any bytes, read with any positive sizes: no fault, always a prefix of the plaintext, the end exactly when all of it is out, after at most |p| reads |
| `ArchiveTheorems.SealThenRead` | internal/backup/crypto.go:143-249 | the same through the sealer and opener objects, for any split into writes |
| `ArchiveTheorems.OpensOnlyGenuine` | internal/backup/crypto.go:219-249 | under an ideal cipher the only thing that opens at position k is the archive's own frame k |
| `ArchiveTheorems.OnlyWhatWasSealed` | internal/backup/crypto.go:204-249 | whatever bytes are fed in, and even when reading goes on after a fault: what is handed out is a prefix of the plaintext and the end is reported only when all of it is out |
| `ArchiveTheorems.CompleteIffWhole` | internal/backup/crypto.go:108-116 | some run of positive reads of a file reports the end with no fault before it if and only if the file starts with the whole archive, and then what was read is the plaintext; bytes after the archive are ignored |
| `ArchiveTheorems.WrappedArchiveCanBeCut` | internal/backup/crypto.go:108-116 | an archive that wraps the counter, its first 2^32 frames cut off, still reads to its end with any positive read sizes and without a fault |
| `ArchiveTheorems.CutsAreDetectedExactly` | internal/backup/crypto.go:108-116 | every file that can be read to its end without a fault starts with the whole archive, if and only if the counter does not wrap |
| `ArchiveFaults.FaultExactly` | internal/backup/crypto.go:219-249 | for every file, read sizes and read: it reports a chunk too large if and only if the four length bytes it comes to declare more than 0x100010, and the passphrase if and only if they do not and the bytes end early or open under neither flag |
| `ArchiveFaults.WrongPassphrase` | internal/backup/crypto.go:236-244 | with a key that opens nothing, the first read of any file whose first length is in range reports the passphrase |
| `ArchiveFaults.NonceLayout` | internal/backup/crypto.go:94-99 | the nonce on the wire: eight prefix bytes and the index, most significant byte first |
| `ArchiveFaults.AadLayout` | internal/backup/crypto.go:108-116 | the additional data on the wire: the header hash, the index, most significant byte first, and 1 for the final chunk or 0 |
| `ArchiveFaults.FrameLayout` | internal/backup/crypto.go:166-183 | a frame on the wire: the length of the sealed bytes, most significant byte first, and those bytes |
| `Grants.ScanReaches` | internal/auth/permissions.go:320-330 | the scan answers whether some grant names the plugin, or everything, at a level that includes the one asked for |
| `Grants.ScanLevelFor` | internal/auth/permissions.go:333-341 | the scan finds the highest level any grant names the plugin at |
| `Grants.NarrowedReach` | internal/auth/permissions.go:333-341 | one grant at that level reaches exactly what the list reached of that plugin and nothing of any other |
| `Grants.Normalize` | internal/auth/permissions.go:367-395 | whatever order the map is walked in, the result is the one list of uncovered names at their best levels, the wildcard first and the names ascending |
| `Grants.NormalFormReach` | internal/auth/permissions.go:367-395 | for every list, the normal form reaches what the trimmed, storable grants reach |
| `Grants.NormalizePreservesReach` | internal/auth/permissions.go:320-330 | for storable lists with trimmed names, normalizing changes no answer at any plugin and level |
| `Grants.NormalFormCanonical` | internal/auth/permissions.go:367-395 | two normal forms are the same sequence if and only if they reach the same plugins at the same levels |
| `Grants.EqualIsSameReach` | internal/auth/permissions.go:421-423 | for storable lists with trimmed names, equality is having the same reach |
| `Grants.NormalFormIdempotent` | internal/auth/permissions.go:367-395 | normalizing twice is normalizing once |
| `Grants.NormalizePreservesReachExactly` | internal/auth/permissions.go:367-408 | for storable lists, normalizing keeps the reach if and only if every padded name stands beside a wildcard that covers it |
| `Grants.PaddedWildcardWidens` | internal/auth/permissions.go:367-395 | the failing input: a wildcard with a space before it reaches nothing and normalizes to everything |
| `Grants.UnionGrants` | internal/auth/permissions.go:412-418 | the union is the normal form of all the lists together |
| `Grants.UnionReach` | internal/auth/permissions.go:412-418 | the union reaches a plugin at a level if and only if one of the lists does |
| `Grants.UnionIsLeast` | internal/auth/permissions.go:412-418 | the union reaches nothing beyond any upper bound of the lists |
| `Grants.UnionCommutes` | internal/auth/permissions.go:412-418 | the order of the lists does not matter |
| `Grants.UnionAssociates` | internal/auth/permissions.go:412-418 | the grouping of the lists does not matter |
| `Grants.DecodeGrants` | internal/auth/permissions.go:439-445 | the list read is its own normal form and reaches a plugin at a level if and only if the stored text can be read and its trimmed, storable grants do |
| `Grants.StoreAndLoad` | internal/auth/permissions.go:439-456 | decoding what was encoded is the normal form, and encoding that again gives the same text |
| `Authorization.ListPermissions` | internal/auth/permissions.go:189-200 | the list is the permissions the set satisfies, in display order |
| `Authorization.InOrderAt` | internal/auth/permissions.go:42-59 | the order permissions are listed in, position by position |
| `Authorization.Merge` | internal/auth/permissions.go:203-214 | in any order of the areas, merging takes the higher level of each |
| `Authorization.MergeHolds` | internal/auth/permissions.go:203-214 | the merge satisfies exactly what either side did |
| `Authorization.NormalizePermissions` | internal/auth/permissions.go:218-227 | exactly the entries an area can be held at stay |
| `Authorization.NormalKeepsHoldsExactly` | internal/auth/permissions.go:177-227 | normalizing changes no answer if and only if no known area stands at a level it cannot be held at |
| `Authorization.MisplacedLevelCounts` | internal/auth/permissions.go:177-186 | the failing input: approvals at write satisfies "decide" until it is normalized away |
| `Authorization.PermissionsEqualExactly` | internal/auth/permissions.go:248-259 | for sets that pass validation, equality is satisfying the same permissions |
| `Authorization.PermissionList` | internal/auth/principal.go:138-143 | the list is exactly the area permissions the principal can use, in display order, and empty for nobody and for anybody waiting for approval |
| `Authorization.PendingMayNothing` | internal/auth/principal.go:108-143 | nobody, and anybody still waiting for approval, holds no permission, reaches no plugin and may call no tool; of anybody else permissions and grants decide |
| `Authorization.ValidExactly` | internal/auth/principal.go:148-166 | which principals validation accepts, through the permissions' and the grants' own validation |
| `Authorization.EqualExactly` | internal/auth/principal.go:192-198 | valid principals with trimmed grant names are equal if and only if id, role, token and approval are the same and they satisfy the same permissions and reach the same plugins |
| `Authorization.EqualMeansSameAnswers` | internal/auth/principal.go:192-198 | for valid principals with trimmed grant names, equal ones answer every Can, Reaches and AuthorizeTool alike, and conversely unless nobody has approved them yet |
| `Authorization.ResolveAccess` | internal/auth/groups/groups.go:172-202 | a subject holds the merge of its roles' permissions and the union of their grants |
| `Authorization.RolesAllowExactly` | internal/auth/groups/groups.go:172-202 | several roles together allow a tool if and only if one of them does, or one reaches the plugin and another brings the permission to approve or administer |
| `Authorization.MoreNeverDenies` | internal/auth/authorization.go:74-102 | merging permissions or adding grants never turns an allowed tool into a denied one |
| `Authorization.VisiblePlugins` | internal/auth/authorization.go:108-116 | the visible plugins, as the pure filter gives them |
| `Authorization.VisibleInOrder` | internal/auth/authorization.go:108-116 | the filter keeps order and repeats: lists one after the other are filtered one after the other |
| `Authorization.VisibleIsUsable` | internal/auth/authorization.go:58-116 | a mounted plugin is visible if and only if some tool of it is allowed |
| `SettingsStore.Store.Apply` | internal/settings/store.go:169-264 | a batch is all or nothing, a secret without a cipher is refused, the table takes the changes in order and the cache takes the puts before the deletes |
| `SettingsStore.CacheAgreesExactly` | internal/settings/store.go:253-260 | cache and table agree after a batch if and only if no key is deleted and then put back in it |
| `SettingsStore.PutBackIsLost` | internal/settings/store.go:253-260 | the failing input: a key deleted and put back is stored and missing from the cache |
| `Tunnels.AccountForExactly` | internal/app/chatgptaccounts.go:123-137 | with distinct ids, an assignment resolves to an account if and only if it names that one, trimmed, or names none and that is the only one |
| `Tunnels.AssignedTunnels` | internal/app/tunnelassign.go:28-48 | whatever order the keys come in: each assigned id once, sorted, with its plugin and account |
| `Tunnels.AssignedExactly` | internal/app/tunnelassign.go:28-48 | an assignment is read, key by key: an id that is not empty and has no dot, the plugin stored for it, and its account or none |
| `Tunnels.TunnelAssignments` | internal/app/app.go:1308-1322 | the report maps each tunnel pointed at something to that, "everything" spelled empty |
| `Tunnels.TunnelConfigs` | internal/app/app.go:1148-1205 | the configurations are those of the assignments that resolve, in order; the guard against repeats never fires |
| `Tunnels.ConfigsHold` | internal/app/app.go:1148-1205 | a configuration is listed if and only if it is what its tunnel's own assignment leads to |
| `Tunnels.ConfigIdsAscend` | internal/app/app.go:1148-1205 | tunnel ids strictly ascend, so no two are equal |
| `Tunnels.ConfigOnlyNarrows` | internal/app/app.go:1220-1274 | each configuration serves what its tunnel is reported to serve; it has the id, name, API key, principal, role and permissions of one enabled account and the host's own settings, the diagnostics address apart; and it reaches what that account does, for one plugin exactly that mounted plugin at exactly the account's levels |
| `Tunnels.RunsExactly` | internal/app/app.go:1220-1274 | a tunnel runs if and only if its assignment resolves to an enabled account that may serve it |
| `Tunnels.ConfigsAgreeExactly` | internal/app/app.go:1148-1205 | two hosts run the same configurations if and only if every assigned tunnel resolves alike |
| `Tunnels.OneBindsExactly` | internal/app/app.go:1148-1205 | the diagnostics address is bound at most once if and only if it is unset or at most one tunnel for everything runs |
| `Tunnels.TwoTunnelsBind` | internal/app/app.go:1148-1205 | the failing input: two tunnels for everything both keep the address |
| `TunnelAccounts.PinTunnelsToTheOnlyAccount` | internal/app/chatgptaccounts.go:222-257 | the batch writes the only account under exactly the assigned tunnels whose account is missing or empty |
| `TunnelAccounts.PinningKeepsConfigs` | internal/app/chatgptaccounts.go:222-257 | with exactly one account, pinning leaves every configuration as it was |
| `TunnelAccounts.PinningIsIdempotent` | internal/app/chatgptaccounts.go:222-257 | pinning again changes nothing |
| `TunnelAccounts.MoreAccountsExactly` | internal/app/chatgptaccounts.go:123-137 | going from one account to several leaves what runs as it was if and only if every running tunnel says whose account it uses |
| `TunnelAccounts.PinnedThenMoreExactly` | internal/app/chatgptaccounts.go:222-257 | after pinning, adding accounts changes nothing if and only if no running tunnel's stored account is white space |
| `TunnelAccounts.BlankAccountStops` | internal/app/chatgptaccounts.go:222-257 | the failing input: an account stored as one space |
| `TunnelAccounts.UnassignAccount` | internal/app/chatgptaccounts.go:361-377 | the batch clears exactly the assignments that name the account |
| `TunnelAccounts.RemovedAccountIsUnused` | internal/app/chatgptaccounts.go:345-377 | after a removal no configuration uses the account |
| `TunnelAccounts.OtherAccountsKeepTheirTunnels` | internal/app/chatgptaccounts.go:345-377 | a tunnel that names another account keeps its configuration |
| `TunnelAccounts.TunnelOutlivesItsAccountExactly` | internal/app/chatgptaccounts.go:345-377 | a tunnel of the removed account keeps running, under another account, if and only if exactly one account is left, it is enabled and may serve it, and the tunnel named the removed one unpadded |
| `TunnelAccounts.TunnelChangesHands` | internal/app/chatgptaccounts.go:345-377 | the failing input: of two accounts the tunnel's own is removed and it goes on under the other |
| `TunnelAccounts.UnnamedTunnelStops` | internal/app/chatgptaccounts.go:345-377 | a tunnel that named nobody stops with the only account |
| `TunnelMigration.MigrateTunnelAssignments` | internal/app/tunnelassign.go:128-211 | the changes are those of the old keys in the order met, then the aggregate's |
| `TunnelMigration.MoveLeaves` | internal/app/tunnelassign.go:128-211 | for any order of the old keys, what the move leaves under every key |
| `TunnelMigration.NothingOldRemains` | internal/app/tunnelassign.go:145-148 | no old plugin-keyed assignment and no aggregate pair is left, and unrelated keys are as they were |
| `TunnelMigration.OneSourceEach` | internal/app/tunnelassign.go:128-211 | a tunnel gains an assignment if and only if an old key held its id; and its plugin and account are the plugin and the account stored under one old plugin key, or the aggregate's "everything" and account |
| `TunnelMigration.SecondRunIsEmpty` | internal/app/tunnelassign.go:128-211 | a second run has nothing to change |
| `TunnelMigration.KeepsTunnelValuesExactly` | internal/app/tunnelassign.go:128-211 | existing tunnel-keyed values survive every order if and only if no source would write over an account recorded for a tunnel without a plugin |
| `TunnelMigration.RecordedAccountIsLost` | internal/app/tunnelassign.go:128-211 | the failing input: an account recorded before its tunnel had a plugin is lost |
| `TunnelMigration.BatchAgrees` | internal/app/tunnelassign.go:128-211 | the batch never puts back a key it deletes, so cache and table agree afterwards |
| `TunnelMigration.StartKeepsTunnelsExactly` | internal/app/lifecycle.go:156-156 | after a start, which pins (internal/app/app.go:367) and then migrates, adding accounts changes nothing that runs, for every order of the old keys, if and only if no running tunnel's account is white space and no old source that may win carries, without an account, a tunnel the one account serves |
| `TunnelMigration.CarriedTunnelsStayUnpinned` | internal/app/lifecycle.go:156-156 | the failing input: pinned (internal/app/app.go:367) before it is carried over, a tunnel without an account is stopped by a second account |
| `PluginSettings.CollectionRows` | internal/app/plugin_settings.go:119-176 | stored rows win outright over the file's list; secret columns are resolved from their references; the first bad row is the error |
| `PluginSettings.TableComesFrom` | internal/app/plugin_settings.go:119-176 | stored rows one for one when there are any, each with its secrets over its data, and otherwise the file's list |
| `PluginSettings.FileRowsExactly` | internal/app/plugin_settings.go:140-176 | the file's list row for row, if and only if every entry makes a row, and otherwise the first that does not |
| `PluginSettings.ResolveFields` | internal/app/plugin_settings.go:45-109 | the loops compute the resolved values, or the first trouble in field order |
| `PluginSettings.FirstTrouble` | internal/app/plugin_settings.go:45-109 | resolving fails with the trouble of the first field that has one |
| `PluginSettings.FieldDecides` | internal/app/plugin_settings.go:45-109 | each declared field resolves to the value its own sources give it, no other field and no pass-through key changing it; one they give none is left to the file, a reference apart |
| `PluginSettings.StoreThenFileThenDefault` | internal/app/plugin_settings.go:45-109 | a scalar comes from the store, else the file, else the default, else is absent |
| `PluginSettings.StoreThenReferenceThenText` | internal/app/plugin_settings.go:62-83 | a credential comes from the store, else the reference resolved, else what the file itself holds |
| `PluginSettings.NoReferenceIsPassed` | internal/app/plugin_settings.go:93-107 | of the keys no field declares a plugin is handed exactly what the file holds, and no reference |
| `PluginSettings.RowKeysExactly` | internal/app/plugin_settings.go:154-171 | what a row of the file's table holds under every key once resolved: a secret column's reference is replaced by its value, and any other reference stays |
| `PluginSettings.SecretColumnResolves` | internal/app/plugin_settings.go:154-171 | a secret column's reference gives way to its value, or spoils the row |
| `PluginSettings.RowReferencePasses` | internal/app/plugin_settings.go:154-171 | the failing input: a reference beside a column that is not secret reaches the plugin |
| `Instances.LayersArePrecedence` | internal/app/instances.go:90-209 | laying the five sources over one another is the per-name precedence |
| `Instances.ListInstances` | internal/app/instances.go:90-209 | whatever order the maps are walked in: each name once, sorted, and exactly what precedence says |
| `Instances.FindInstance` | internal/app/instances.go:289-300 | searching the list finds exactly the instance precedence gives a name |
| `Instances.InstanceFrame` | internal/app/instances.go:90-209 | an instance depends on that name's entries alone, but for whether a removed name still holds values |
| `Instances.RemovedIsOff` | internal/app/instances.go:90-209 | removed implies off and declared outside the dashboard |
| `Instances.RequiredSurvives` | internal/app/instances.go:90-209 | after all five layers an instance is required if and only if the two declaration layers alone make it so and no remote server has the name, whatever is recorded or overridden |
| `Instances.UndeclaredOverrideIsInert` | internal/app/instances.go:90-209 | an override of a name nothing declares changes no instance |
| `Instances.StaleRemovals` | internal/app/instances.go:537-559 | exactly the removals whose name has no live instance, each once, sorted |
| `Lifecycle.PluginHost.ForgetInstance` | internal/app/instances.go:383-415 | every key under the name goes in one write, then every row, stopping at the write that fails |
| `Lifecycle.PluginHost.RemoveInstance` | internal/app/instances.go:289-368 | the whole new state and outcome of a removal, for every write that may fail |
| `Lifecycle.PluginHost.RestoreInstance` | internal/app/instances.go:429-445 | the whole new state and outcome of a restore |
| `Lifecycle.PluginHost.SetInstanceEnabled` | internal/app/instances.go:452-485 | the whole new state and outcome of a switch |
| `Lifecycle.PluginHost.AddInstance` | internal/app/instances.go:229-260 | a record is added if and only if name and type are good and the name is free |
| `Lifecycle.RemovalRefusedExactly` | internal/app/instances.go:289-320 | when a removal is refused, for which reason, and that a refusal changes nothing |
| `Lifecycle.OverridesWritten` | internal/storage/sqlite/pluginoverrides.go:98-227 | what removing, restoring and switching write of every name: the name's own row, signed by who made it, a removal already recorded keeping its signature, and no other row |
| `Lifecycle.AddedIsThere` | internal/app/instances.go:229-260 | an added plugin is there, on and of its type, and no other instance or stored value changes |
| `Lifecycle.SwitchTakesEffect` | internal/app/instances.go:452-485 | a switch that is done leaves the instance as it was but on or off as asked |
| `Lifecycle.SwitchSparesOthers` | internal/storage/sqlite/pluginoverrides.go:177-227 | no other instance changes whose override memory has as it is stored; switching a dashboard-added plugin changes no other at all |
| `Lifecycle.SwitchRetryConverges` | internal/app/instances.go:452-485 | a switch of a declared plugin that failed at any write is finished by making it again |
| `Lifecycle.RecordedOnlyWhenForgotten` | internal/app/instances.go:314-361 | the removal is recorded only when no setting and no row is left under the name |
| `Lifecycle.RemovalCompletes` | internal/app/instances.go:289-368 | a finished removal leaves nothing stored and the name gone or removed |
| `Lifecycle.InterruptionIsHarmless` | internal/app/instances.go:321-361 | one removal of a declared plugin, failing at any write, does not change where the removal ends |
| `Lifecycle.RetriesConverge` | internal/app/instances.go:283-361 | any number of failures at any writes, then a removal that finishes: the state of one uninterrupted removal |
| `Lifecycle.RetriesByAnyoneConverge` | internal/app/instances.go:283-361 | the same when different people make the attempts, up to who is recorded |
| `Lifecycle.DashboardRetryExactly` | internal/app/instances.go:363-367 | for a dashboard-added plugin an interruption is harmless if and only if it is not the row deletion failing with rows there |
| `Lifecycle.OrphanedRowsAreInherited` | internal/app/instances.go:397-415 | those rows cannot be removed again and belong to the next plugin given the name |
| `Lifecycle.RestoredSettingsAreTheFiles` | internal/app/instances.go:429-445 | after remove and restore the settings resolve as from an empty store, table rows included |
| `Lifecycle.TableRoundTrip` | internal/storage/sqlite/pluginoverrides.go:98-174 | restoring undoes a recorded removal but keeps an on-off switch |
| `Lifecycle.RestoredAsDeclaredExactly` | internal/app/instances.go:425-445 | for any state of the overrides in memory, a removed and restored plugin is exactly as declared if and only if no on-off switch was set against that and memory is not behind an earlier restore |
| `Lifecycle.RestoreKeepsTheSwitch` | internal/storage/sqlite/pluginoverrides.go:140-174 | the failing input: switched off, removed, restored, and still off |
| `Lifecycle.UnreadRestoreStaysRemoved` | internal/app/instances.go:429-445 | the failing input: restored while the reload failed, a plugin stays removed however often it is removed and restored |
| `Lifecycle.RestoreRetryExactly` | internal/app/instances.go:438-444 | a restore that failed and is made again ends where one that did not fail ends, if and only if it was not the reload that failed or memory agreed already |
| `Reconcile.CheckReady` | internal/app/reconcile.go:33-96 | the walk over the fields gives the values an instance is ready with, or none |
| `Reconcile.ReadyExactly` | internal/app/reconcile.go:33-96 | an instance is ready if and only if its fields are known and resolve, every required one to a text with a character that is not a space, a list or table with an element, or a value of another kind, and a remote server has a tool |
| `Reconcile.Manager.ReconcileInstance` | internal/app/reconcile.go:187-240 | the mounted set and the notes become what bringing one name in line makes of them; a failed build leaves what is mounted and is noted |
| `Reconcile.Manager.RegisterPlugins` | internal/app/wiring.go:147-225 | the host starts if and only if no enabled instance stops it; then exactly the unknown types and the instances that could not be built are noted and not mounted, and every other name is mounted as configured |
| `Dependence.WantedFrame` | internal/app/reconcile.go:33-67 | what is wanted under a name depends on that name's declarations and values and the trust pool alone |
| `Dependence.WipeMovesExactly` | internal/app/instances.go:397-415 | wiping a plugin's rows changes what is wanted if and only if it is on, has all it needs, and some table field's stored rows are not what the file alone gives it |
| `Dependence.ReloadMovesExactly` | internal/app/instances.go:499-526 | reading the overrides back changes what is wanted if and only if the plugin has all it needs and its stored override turns it on or off where memory does not |
| `Convergence.OnlyTheQueuedMove` | internal/app/reconcile.go:264-309 | a write moves only names it queues a reconcile for, a wipe of a name's own rows and a reload past another name's unread override apart |
| `Convergence.ListedExactly` | internal/app/trust.go:76-89 | a change of certificates queues exactly the names that are instances |
| `Convergence.TouchedExactly` | internal/app/reconcile.go:264-282 | a settings write queues exactly the names of the records and of the keys the watcher's pattern knows |
| `Convergence.EveryRunSettles` | internal/app/reconcile.go:113-309 | over every run each name is in line, queued or noted as failing, or some write left it behind and nothing has queued or reconciled it since |
| `Convergence.HostStaysSettled` | internal/app/reconcile.go:113-309 | from what startup leaves, over every run in which a name left behind is later queued or reconciled, removals included: it is mounted as its current configuration asks, or queued, or noted as failing |
| `Convergence.DrainingConverges` | internal/app/reconcile.go:292-309 | working reconciles of the names left over, in any order, bring every name in line |
| `Convergence.ReconcileBringsInLine` | internal/app/reconcile.go:187-240 | a reconcile that works brings its name in line whatever was there and disturbs no other |
| `Convergence.FailuresKeepServing` | internal/app/reconcile.go:187-240 | any number of failing builds of any plugins leave each serving what it served, and noted; only what is no longer wanted stops |
| `Gaps.FinishedRemovalIsPickedUp` | internal/app/instances.go:321-361 | a removal that finishes does not leave its own plugin behind, whatever memory holds: what its wipe moves is queued by its last write, or the plugin was removed already |
| `Gaps.RemovalSparesOthersExactly` | internal/app/instances.go:499-526 | a removal that finishes leaves another plugin behind if and only if it writes an override and the other has all it needs and was switched without being read back |
| `Convergence.GapExactly` | internal/app/instances.go:520-526 | a name in line stays so or is queued if and only if the write is neither a wipe of rows the plugin is using nor a reload past its own switched and unread override, both decided before the write |
| `Gaps.RemovalIsItsWrites` | internal/app/instances.go:321-361 | the removal is the sequence of its writes, and finishing it queues the name |
| `Gaps.UnfinishedRemovalGoesOnServing` | internal/app/instances.go:397-415 | the first gap is real: rows wiped, the override write failing, the plugin goes on serving them with nothing queued |
| `Gaps.AnothersReloadLeavesItServing` | internal/app/instances.go:499-526 | the second gap is real: the plugin switched off goes on serving with nothing queued |
| `ConfigImport.ImportLegacyConfig` | internal/app/configimport.go:171-276 | the batch written by a start, the marker with its lists in order, and whether it finished the import |
| `ConfigImport.ImportedAt` | internal/app/configimport.go:171-287 | what an import leaves under every key |
| `ConfigImport.KeyAndMarkerExactly` | internal/app/configimport.go:209-258 | the API key after an import and whether the marker is there, from the reference, the stored key and the cipher |
| `ConfigImport.KeyIsSecret` | internal/app/configimport.go:231-238 | the API key is the one thing the batch writes as a secret, and only with a cipher |
| `ConfigImport.MarkerSays` | internal/app/configimport.go:240-258 | the marker holds the record of every key, each list in alphabetical order |
| `ConfigImport.BatchAgrees` | internal/app/configimport.go:171-276 | the batch deletes nothing, so cache and table agree after it |
| `ConfigImport.RecordAccounts` | internal/app/configimport.go:186-207 | the record names a key as kept, imported or refused if and only if that is what became of it |
| `ConfigImport.NeverOverwritesExactly` | internal/app/configimport.go:166-287 | no stored key changes if and only if it is not an empty API key with one to import and a cipher |
| `ConfigImport.EmptyKeyIsReplaced` | internal/app/configimport.go:280-287 | the failing input: an API key stored empty |
| `ConfigImport.FinishedForGood` | internal/app/configimport.go:174-178 | after a finished import no later start changes anything, whatever its file says |
| `ConfigImport.DeferredIsFinishedLater` | internal/app/configimport.go:209-258 | a start without a cipher and one with it leave what one start with a cipher leaves, the marker apart |
| `ConfigImport.StaleConfigWarnings` | internal/app/configimport.go:320-359 | the messages of exactly the values that disagree with what is running, in alphabetical order |
| `ConfigImport.ImportedIsNotStale` | internal/app/configimport.go:320-347 | an imported value is warned about if and only if the store no longer holds what was imported |
| `SdkPlugin.Plugin.Tool` | sdk/sdk.go:417-466 | the registry goes on listing what stands of everything registered, and a registration that does not stand is one error |
| `SdkPlugin.Plugin.RegisterMutation` | sdk/sdk.go:473-556 | the same for mutations |
| `SdkPlugin.ListedOnce` | sdk/sdk.go:447-465 | each name registered in good form is listed exactly once, and no other name is |
| `SdkPlugin.MutationOkExactly` | sdk/sdk.go:473-499 | a mutation is well formed if and only if its action is words joined by dots, it has a description and a handler, its risk is known and its rate limit is not negative |
| `SdkPlugin.ToolOkExactly` | sdk/sdk.go:417-440 | a tool is well formed if and only if its name is a word that says a verb and what it acts on, it has a description, its capability is known and its rate limit is not negative |
| `SdkPlugin.AcceptedGrows` | sdk/sdk.go:447-465 | what is listed stays listed in its place as more is registered |
| `SdkPlugin.Plugin.DescribeAll` | sdk/serve.go:438-463 | the description lists what stands, in registration order |
| `SdkPlugin.Plugin.Dispatch` | sdk/serve.go:291-436 | one request's answer and the settings it leaves; a panic is answered as an internal error |
| `SdkPlugin.HandledAnswers` | sdk/serve.go:291-310 | a request that reaches the plugin's code is answered with what it returns, with the code of its failure, or with INTERNAL when it panics |
| `SdkPlugin.ConfigIsLast` | sdk/serve.go:355-365 | the settings in force are those of the last configure that decodes |
| `SdkPlugin.Plugin.Serve` | sdk/serve.go:227-260 | one response per readable frame, in order, with its id and under the settings then in force, up to and including the first shutdown and none after |

## Left out

- The cryptography itself: AES-GCM, PBKDF2, SHA-256 and randomness are an ideal cipher, a fixed header hash and a fixed nonce prefix. The archive's header and the files packed inside it are not modelled.
- ArchiveSealer.Sealer.Write: the writer underneath takes bytes up to a limit and refuses everything after it; one that fails once and later accepts again is not modelled.
- ArchiveTheorems.OnlyWhatWasSealed: a short read from the source counts as the source having ended.
- Setting keys whose parts contain dots, and the collisions that could cause, because keys are constructors.
- Convergence.EveryRunSettles: names and field keys have the shapes the host validates them to (a remote server's fields are never tables), each reconcile is one step, a remote server's change is one write that queues its name, and what a credential reference resolves to does not change while the host runs.
- Reconcile.Manager.RegisterPlugins: the mounted plugin's own required flag is not kept; startup passes the manifest's flag and a later remount does not. Starting the mounted plugins afterwards is not modelled.
- Lifecycle.PluginHost.RemoveInstance: settings written by somebody else between its writes are not interleaved; `Convergence` interleaves them at the level of single writes.
- ConfigImport.ImportLegacyConfig: the list of moved settings, their validation and their encoding are parameters.
- SdkPlugin.Plugin.Serve: what plugin code does with a request is a parameter, writing a response does not fail, and reading ends where the frames end. Resources, prompts and settings are not registered or described, only looked up.
- Erasing and restoring a mutation's plan (sdk/sdk.go:558-627), the account limiters (internal/app/chatgptaccounts.go:27-73) and adopting existing tunnels (internal/app/tunnelassign.go:85-116): easy members only.
- JSON and text encodings, which are abstract functions; timestamps, actors' audit trails, history rows, logging and the wording of errors.
- Store reads that fail, which the code reports and stops at.
- internal/admin, internal/operations, notifications, certificates' contents, catalogue refresh, the OpenAI probes and the front end.
