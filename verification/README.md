# v2sudoku: a model of the node backend and proofs about it

v2sudoku admits connections by user hash, counts bytes per user, reports them to a panel, and keeps its
users in step with the panel while connections run. This project models the stateful cores of that
program in Dafny and proves what they keep over whole runs.

`dafny verify dfyconfig.toml` checks everything.

## How it is organised

| part | files | what is proved |
|---|---|---|
| traffic ledger | `Accounting`, `UserFolds`, `Embedded`, `Ledger`, `LedgerRuns`, `Acknowledged`, `Scans`, `Strays`, `LedgerWitness` | bytes are conserved per user in every interleaving of traffic, user updates, reports and confirms; only acknowledged reports are confirmed; a report is complete |
| second ledger | `External`, `TwoLedgers` | the external runtime reports the same slices |
| user synchronisation | `UserSync`, `IncrementalUpdate`, `RepeatedUuids`, `PanelSync` | the diff is exact, an incremental update refines a replacement, a stored ETag is never believed without its content, an unchanged body never restarts the node |
| keys and index | `Text`, `Scalars`, `KeyStore`, `Clients`, `TwoRebuilds`, `Billing` | split keys add up to the master key, keys are sticky, the index holds exactly the hashes the users' clients present and bills their owner over every run |
| online devices | `Online`, `Report` | lazy eviction is invisible, reports sum the lines |
| shutdown and reload | `Shutdown`, `Reload` | Close is complete and ends, no reload is lost, one live server, the end of the context stops the node |
| panel cache | `Json`, `Settings`, `Snapshot` | the panel's intervals and options are the ones in use, a cached start equals the live start that wrote the cache |

`Panel` and `Sorting` hold the value types and the sort. The objects the program updates in place
(`Embedded`, `TrafficCounter`, `External`, `ClientKeyStore`, `PanelClient`, `Controller`, `Task`,
`NodeInfo`, `SudokuSettings`, the connection set, the cache file) are classes whose methods are proved
equal to functions on values; the properties are then proved about those functions and about state
machines over them. Counters are objects with identity: the generic type parameter `C` of `Accounting`
and `Ledger` stands for references to them.

## What turned out not to hold, with the exact condition

- Conservation fails with two reports in flight, which an abandoned execution of the report task makes
  possible (`internal/task/task.go:62-75`): `LedgerWitness.TwoReportsBreakConservation`. A step conserves
  bytes if and only if it is not a confirm for more than the counter holds (`Ledger.StepConserves`).
- A connected user removed while the counter is at zero keeps a counter nobody reports:
  `LedgerWitness.BytesAfterRemovalStray`. The conservation theorem therefore has three accounts. A counter
  leaves the map if and only if it is empty and its user removed (`UserFolds.ReplaceKeeps`,
  `UserFolds.PatchKeeps`), and no byte strays before that happens to a connection (`Strays.AttachedExactly`).
- The user ETag is stored before the list is applied. Agreement survives a pass if and only if the pass
  does not swallow the list, within the task's time limit: alive request cancelled or past a deadline, or a
  200 without a list
  (`PanelSync.PassListAgrees`, `PanelSync.SwallowedListStays`). A start that falls back to the cache keeps the
  tags it stored, for the list and for the configuration (`PanelSync.CachedStartList`,
  `PanelSync.CachedStartNode`). A later 304 is to be trusted exactly as `PanelSync.NotModifiedIsTrue` says.
- An incremental update equals a replacement if and only if entries called unchanged keep their ids
  (`IncrementalUpdate.IncrementalUsers`). A repeated uuid can break it (`IncrementalUpdate.RepeatedUuidDiverges`);
  the condition for any list is that of `RepeatedUuids.IncrementalUsersExactly`.
- The two ledgers agree for a given threshold if and only if it is not negative or every user has an entry
  (`TwoLedgers.SlicesAgree`).
- A stored key of white space only is never replaced, so its user gets a new key on every call: a key is on
  record if and only if the entry was not blank (`KeyStore.RecordedUnlessBlank`, `KeyStore.BlankEntryIsNotSticky`).
- A failed key load leaves an empty table that counts as loaded (`KeyStore.UnreadableFileIsForgotten`);
  memory equals the file after a call if and only if the condition of `KeyStore.SyncedExactly` holds.
- A push interval above 2^62 nanoseconds reports nobody online (`Online.HugeIntervalReportsNobody`).
- A close later than the window after the last-seen time hides the user (`Online.LateCloseHidesUser`).
- Close does not close a connection registered after it looked; it waits for it
  (`Shutdown.LateConnectionStaysOpen`). A Start after Close leaves the listener open (`Shutdown.CloseIsComplete`).
- A token sent by an execution that outlives its controller replaces the next controller
  (`Reload.StaleTokenReplacesNext`).
- A node without `network_settings` comes back from the cache with `null` for them
  (`Snapshot.CacheRoundTrip`).

## Model

| member | source | states |
|---|---|---|
| EmbeddedServer.TrafficCounter.AddUpload | internal/runtime/counting.go:17-24 | adds a positive amount, ignores any other |
| EmbeddedServer.TrafficCounter.AddDownload | internal/runtime/counting.go:26-33 | likewise for downloads |
| EmbeddedServer.TrafficCounter.Subtract | internal/runtime/counting.go:41-54 | subtraction saturating at zero in each direction, owner unchanged |
| EmbeddedServer.Embedded.UpsertUserLocked | internal/runtime/embedded.go:495-507 | the user listed, a resident counter kept as the same object and relabelled, a new one only where there was none |
| EmbeddedServer.Embedded.DeleteUserLocked | internal/runtime/embedded.go:509-517 | user and online entry gone; the counter leaves the map only when it holds nothing |
| EmbeddedServer.Embedded.SweepLocked | internal/runtime/embedded.go:485-490 | exactly the empty counters of non-users leave the map, in any iteration order |
| EmbeddedServer.Embedded.RebuildUserHashesLocked | internal/runtime/embedded.go:519-541 | the key store is asked for the mappings of the current users in some order; the index is the fold of its answer, or stays when it fails |
| EmbeddedServer.Embedded.ReplaceUsersLocked | internal/runtime/embedded.go:471-493 | the users are the list's last entries and counters are swept, also when the rebuild then fails; the index comes from the key store's answer for these users |
| EmbeddedServer.Embedded.UpdateUsers | internal/runtime/embedded.go:115-131 | a full list replaces; otherwise deletions, then additions and modifications; then the rebuild from the key store's answer for the new users |
| EmbeddedServer.Embedded.GetUserTrafficSlice | internal/runtime/embedded.go:133-158 | one line per current user with a counter above the threshold, nothing else, sorted by uid |
| EmbeddedServer.Embedded.UuidByUidLocked | internal/runtime/embedded.go:577-584 | some user with this uid, or the empty uuid when there is none |
| EmbeddedServer.Embedded.ConfirmUserTraffic | internal/runtime/embedded.go:160-177 | each line is subtracted from the counter of its uuid, or of a user with its uid |
| EmbeddedServer.Embedded.CounterForUserHash | internal/runtime/embedded.go:543-566 | an admission succeeds exactly for an indexed current user with a non-zero id, and hands out that user's resident counter |
| EmbeddedServer.Embedded.MarkOffline | internal/runtime/embedded.go:568-575 | refreshes an entry that is still there and nothing else |
| EmbeddedServer.Embedded.GetOnlineDevice | internal/runtime/embedded.go:179-203 | evicts what is older than the window and lists the rest once each |
| Accounting.UpsertAllOk | internal/runtime/embedded.go:495-507 | upserting any list keeps the tables linked and every counter with bytes in place |
| Accounting.DeleteAllOk | internal/runtime/embedded.go:509-517 | deleting any list drops no counter that holds bytes |
| Accounting.ReplaceOk | internal/runtime/embedded.go:471-493 | a full replacement never drops, swaps or alters a counter that holds bytes |
| Accounting.PatchOk | internal/runtime/embedded.go:115-131 | nor does an incremental update |
| Accounting.AdmitOk | internal/runtime/embedded.go:543-566 | an admission changes neither the counter map nor any byte count |
| Accounting.AdmitIs | internal/runtime/embedded.go:543-566 | a successful admission lists the user as seen now from the address, and relabels its own counter with its id, bytes and everything else as before |
| UserFolds.ReplaceIs | internal/runtime/embedded.go:471-493 | a replacement with any list, repeats included, leaves its last entries as users, old counters as the same objects, and drops only empty counters of others |
| UserFolds.ReplaceKeeps | internal/runtime/embedded.go:485-490 | a counter stays in the map through a replacement if and only if its user is listed or it holds bytes |
| UserFolds.PatchKeeps | internal/runtime/embedded.go:512-516 | and through an incremental update if and only if its user is not deleted or it holds bytes |
| Ledger.StepSound | internal/runtime/embedded.go:115-177 | every step of every goroutine keeps the tables, connections and report lines well formed |
| Ledger.ConfirmSums | internal/runtime/counting.go:41-54 | a confirm moves exactly its amount out of the user's counters if and only if the counter holds that much |
| Ledger.StepConserves | internal/runtime/embedded.go:133-177 | a step conserves every user's bytes if and only if it is not a confirm for more than the counter holds |
| LedgerRuns.ConfirmExact | internal/runtime/counting.go:41-54 | with one report in flight no confirm saturates: the counter the line was read from loses exactly the line |
| LedgerRuns.StepPledged | internal/runtime/embedded.go:133-177 | every line in flight stays backed by its own counter object through every step |
| LedgerRuns.TrafficConservation | internal/runtime/embedded.go:133-177 | over every run, bytes counted are bytes confirmed, plus bytes on the resident counter, plus bytes moved on counters that left the map; what counted and confirmed stand for is `Acknowledged.TransferredIsAccountedFor` |
| Acknowledged.ConfirmedIsAcknowledged | internal/controller/controller.go:314-325 | over every run, what is confirmed for a user and what is acknowledged but not yet confirmed are together exactly what the acknowledged reports carry: a failed report adds nothing |
| Acknowledged.NothingWithoutAck | internal/controller/controller.go:319-325 | without an acknowledgement nothing is confirmed and no task is about to confirm |
| Acknowledged.CountedIsTransferred | internal/runtime/counting.go:61-75 | over every run the bytes counted for a user are the positive amounts its connections read, as upload, and wrote, as download |
| Acknowledged.TransferredIsAccountedFor | internal/controller/controller.go:314-325 | over every run with one report in flight: bytes its connections moved are those of acknowledged reports less what is still to be confirmed, plus those on its counter, plus those on counters that left the map |
| Acknowledged.ReportIsOffered | internal/controller/controller.go:314-316 | a finished scan with lines is put to the panel as it is; without lines the task may scan again |
| Acknowledged.FailedReportIsKept | internal/controller/controller.go:316-321 | a failed report leaves server, connections and accounts alone and the task may scan the same bytes again |
| Acknowledged.AckedReportIsConfirmed | internal/controller/controller.go:322-325 | an acknowledged report is confirmed to its last line: every line is credited to its user and the task is free |
| Scans.ReportIsComplete | internal/runtime/embedded.go:133-158 | a report scanned while bytes arrive has only lines of current users with an id above the minimum, in thousands of bytes, and a line for every user who was above it when the scan began, with at least those bytes |
| LedgerRuns.InFlightCounterKept | internal/runtime/embedded.go:485-517 | whatever updates happen, a non-zero line in flight still refers to the user's counter, which holds at least the line |
| LedgerRuns.OrphansStay | internal/runtime/embedded.go:485-490 | a counter that left the map never returns and is never subtracted from |
| Strays.StepAttached | internal/runtime/embedded.go:485-517 | a step detaches a connection from the map if and only if it removes the user of one whose counter holds nothing |
| Strays.AttachedExactly | internal/runtime/embedded.go:485-517 | over every run all connections' counters are in the map if and only if no update so far did that, and as long as they are no byte has strayed |
| Strays.NothingStrays | internal/runtime/embedded.go:133-177 | in such runs bytes counted are bytes confirmed plus bytes on the resident counter |
| LedgerWitness.BytesAfterRemovalStray | internal/runtime/embedded.go:485-490 | a reachable state with 100 bytes counted and none billable |
| LedgerWitness.TwoReportsBreakConservation | internal/task/task.go:57-82 | a reachable state in which two overlapping reports billed 200 bytes for 150 |
| ExternalServer.External.ImportEventLine | internal/runtime/external.go:327-362 | a traffic event is added to the entry of the hash's owner, open and close set and remove the online entry; a hash without an owner or text that does not parse changes nothing |
| ExternalServer.ImportEffects | internal/runtime/external.go:340-360 | an `open` event lists the owner as seen now from the address, `close` removes it, `traffic` adds both amounts to its entry under its present id, any other kind changes nothing |
| ExternalServer.OpenThenClose | internal/runtime/external.go:349-352 | an open that is closed again leaves the owner offline and everybody else as before |
| ExternalServer.External.GetUserTrafficSlice | internal/runtime/external.go:118-138 | one line per pending entry above the threshold, sorted by uid |
| ExternalServer.External.UuidByUidLocked | internal/runtime/external.go:318-325 | some user with this uid, or the empty uuid |
| ExternalServer.External.ConfirmUserTraffic | internal/runtime/external.go:140-165 | saturating subtraction per line; an entry down to zero is removed |
| ExternalServer.External.UpdateUsers | internal/runtime/external.go:89-116 | the users, online entries and index of the update; on a started server the process is never restarted and the only error is the key store's |
| ExternalServer.External.RebuildUserHashesLocked | internal/runtime/external.go:203-223 | the index is the fold of the key store's answer for the current users, or stays when it fails |
| ExternalServer.External.ApplyConfigLocked | internal/runtime/external.go:225-247 | a changed configuration is written and a running process restarted; an unchanged one does nothing |
| ExternalServer.External.Start | internal/runtime/external.go:65-75 | a start that succeeds leaves the configuration applied and the process running |
| TwoLedgers.StepMatches | internal/runtime/external.go:140-165 | zero counters on one side stay missing entries on the other through traffic and confirms |
| TwoLedgers.LaunchMatches | internal/runtime/external.go:193-223 | two servers built from one list with distinct ids, each by its own rebuild from the key store, have the same users, the same index and nothing counted |
| TwoLedgers.SlicesAgree | internal/runtime/external.go:118-138 | the two slices are the same sequence if and only if the threshold is not negative or every user has an entry |
| TwoLedgers.LedgersAgree | internal/runtime/embedded.go:133-177 | over every run of two servers built from one list both return the same slice after every step, for every non-negative threshold |
| UserSync.CompareUserList | internal/controller/controller.go:355-374 | the loops compute the walk over the table, and the deleted users in any order |
| UserSync.DiffEmptyIff | internal/controller/controller.go:355-374 | all outputs are empty if and only if no uuid repeats in the new list and both lists give every uuid the same profile |
| UserSync.DiffExact | internal/controller/controller.go:355-374 | with distinct new uuids the outputs are disjoint and are exactly the users that went, came, or changed profile |
| IncrementalUpdate.IncrementalUsers | internal/runtime/embedded.go:115-131 | the incremental update gives the users of the replacement if and only if unchanged entries keep their ids |
| RepeatedUuids.IncrementalUsersExactly | internal/controller/controller.go:355-374 | for any new list, repeats included: equal users if and only if a uuid modified by its first new entry ends with that entry, and an unchanged single one keeps its id |
| IncrementalUpdate.IncrementalCounters | internal/runtime/embedded.go:115-131 | both updates leave every user the same counter object and bytes, up to empty counters of non-users |
| IncrementalUpdate.IncrementalTraffic | internal/runtime/embedded.go:133-158 | with stable ids both updates report the same traffic for every threshold |
| IncrementalUpdate.IncrementalIndex | internal/runtime/embedded.go:519-541 | with stable and distinct ids the key store's rebuilds after the two updates give the same hash index |
| IncrementalUpdate.RepeatedUuidDiverges | internal/controller/controller.go:355-374 | a repeated uuid makes the two updates end with different users |
| PanelSync.PanelClient.FetchNodeInfo | internal/panel/client.go:212-248 | tag and body hash are stored before the body is decoded and normalized; 304 and an equal body answer nothing; what the stored hash is over runs is `PanelSync.StoresExactlyNewBodies` |
| PanelSync.FreshAfterAnswer | internal/panel/client.go:230-234 | after an answered fetch the next answered one is nothing new if and only if its body hashes the same |
| PanelSync.StoresExactlyNewBodies | internal/panel/client.go:230-235 | over every run from a start, live or cached, a pass stores a node tag if and only if its answered body hashes differently from the latest answered body |
| PanelSync.SameBodyNeverReloads | internal/controller/controller.go:248-305 | as long as the panel keeps answering the body the start saw, with or without 304, no pass in time asks for a reload |
| PanelSync.TrimQuotesIs | internal/panel/client.go:235 | the stored tag is the header's value without its outer quotes |
| PanelSync.PassAppliesList | internal/controller/controller.go:269-304 | under an unchanged configuration a new list reaches controller and server, and its tag is stored, unless the rebuild fails, which asks for a reload |
| PanelSync.PassWithoutList | internal/controller/controller.go:249-268 | a pass whose configuration request failed, or brought a new one, leaves users and list tag alone and asks for a reload exactly for a new configuration or a time-out |
| PanelSync.PanelClient.FetchUserList | internal/panel/client.go:303-336 | the tag is stored once the body decodes, also when it holds no list |
| PanelSync.Controller.UpdateServer | internal/controller/controller.go:293-299 | the embedded server's own update runs, and its users are the list's whether or not the rebuild succeeds |
| PanelSync.Controller.NodeInfoMonitor | internal/controller/controller.go:248-305 | the body of the monitor, against the server itself, with every error path |
| PanelSync.Controller.ExecuteMonitor | internal/task/task.go:57-82 | one execution by the task is one pass of the protocol; a time limit passed at any point of it asks for a reload |
| PanelSync.PassInStep | internal/controller/controller.go:293-303 | a pass leaves the server's user map equal to the controller's list, or a reload requested |
| PanelSync.RunInStep | internal/controller/controller.go:248-305 | over every run of passes, whatever the panel answers |
| PanelSync.PassListExactly | internal/controller/controller.go:269-304 | from any state: a pass that stores a list tag leaves agreement exactly when it applies that list, any other pass leaves it as it was |
| PanelSync.RunListExactly | internal/controller/controller.go:248-305 | over every honest run from any state, agreement holds if and only if the latest pass that stored a tag applied its list |
| PanelSync.PassListAgrees | internal/controller/controller.go:269-304 | agreement of the list with its tag survives a pass if and only if the pass does not swallow a list |
| PanelSync.PassNodeAgrees | internal/panel/client.go:235-247 | agreement of the configuration with its tag survives if and only if no undecodable configuration under a new name was swallowed |
| PanelSync.PassNodeExactly | internal/panel/client.go:235-247 | from any state: a pass that stores a node tag leaves agreement exactly when the tag names the version in use, any other pass leaves it as it was |
| PanelSync.RunNodeExactly | internal/controller/controller.go:248-305 | over every honest run from any state, agreement of the configuration holds if and only if the latest pass that stored a node tag found the version in use |
| PanelSync.NodeNotModifiedIsTrue | internal/panel/client.go:225-227 | from any start, over any honest passes: when the panel truthfully answers 304 the controller runs the current configuration or a reload is requested, if and only if the latest stored tag was for the version in use |
| PanelSync.RunAgrees | internal/controller/controller.go:248-305 | both agreements hold after any number of passes that swallow nothing |
| PanelSync.NotModifiedIsTrue | internal/controller/controller.go:118-166 | from any start, live or cached, over any honest passes: when the panel truthfully answers 304, controller and server have the current list or a reload is requested, if and only if the latest request that stored a tag was followed by its list |
| PanelSync.SwallowedListStays | internal/panel/client.go:334-335 | a list swallowed within the time limit stays unapplied, and no reload is requested, as long as the panel answers not modified in time |
| PanelSync.LiveStartAgrees | internal/controller/controller.go:142-166 | a start whose three requests came through agrees with the panel on configuration and list, unless the server cannot be built |
| PanelSync.CachedStartNode | internal/controller/controller.go:118-140 | every cached start agrees with its node tag if and only if it stored none or the cache holds the version it names, undecodable replies included |
| PanelSync.CachedStartList | internal/controller/controller.go:118-166 | every cached start agrees with its list tag unless the configuration came, the list request stored a tag, and the cache lacks that list's profiles |
| PanelSync.StartInStep | internal/controller/controller.go:54-78 | a start fails if and only if the panel refuses it, there is neither a live answer nor a cache, or the server cannot be built; otherwise server and list are in step |
| PanelSync.OnlyRefusalsOverrideTheCache | internal/panel/client.go:423-426 | with a cache, a start whose requests failed fails if and only if the failing one was answered 401 or 403; otherwise it runs exactly what the cache holds |
| PanelSync.LiveStartRunsIt | internal/controller/controller.go:142-166 | a live start runs the configuration and list it fetched and stores both tags and the body hash |
| PanelSync.SwallowFreeIsTrusted | internal/controller/controller.go:248-305 | after a trusted start, passes that swallow nothing keep the list tag trusted |
| Scalars.LittleEndianScalar | internal/runtime/key_store.go:146-152 | the byte-reversing loop computes the little-endian value |
| Scalars.ScalarLittleEndian | internal/runtime/key_store.go:154-161 | the copying loop writes the 32 low little-endian bytes |
| Scalars.LittleEndianWeights | internal/runtime/key_store.go:146-152 | in the little-endian value each byte weighs 256 times the byte before it |
| Scalars.CodecTruncates | internal/runtime/key_store.go:146-161 | writing and reading a number keeps it modulo 256^n |
| Scalars.CodecRoundTrip | internal/runtime/key_store.go:146-161 | reading and writing bytes is the identity, trailing zeros included |
| Scalars.OrderIsRfc8032 | internal/runtime/key_store.go:163-166 | the constant is 2^252 + 27742317777372353535851937790883648493, section 5.1 of RFC 8032 |
| Scalars.SplitSeedText | internal/runtime/key_store.go:136 | the text hashed for a split key, written out |
| Scalars.UserSeedText | internal/runtime/key_store.go:207-211 | the text hashed for a deterministic key, written out, with the default for an empty configured seed |
| Scalars.SplitSeedInjective | internal/runtime/key_store.go:123-137 | the split seed determines node id, user id, uuid and master, whatever separators the uuid contains |
| Scalars.UserSeedInjective | internal/runtime/key_store.go:207-214 | the deterministic seed determines node id, user id and uuid |
| Scalars.DeterministicSplitKey | internal/runtime/key_store.go:123-144 | the method returns the split key of `Scalars.SplitKeyCorrect`, and an error exactly on a malformed master |
| Scalars.SplitKeyCorrect | internal/runtime/key_store.go:123-166 | 128 hexadecimal characters decoding to two scalars below the order whose sum is the master modulo the order, the first being the hash, modulo the order, of the seed text written out |
| KeyStore.ClientKeyStore.LoadFileLocked | internal/runtime/key_store.go:168-190 | loads once; the table exists, empty, after any failure to read |
| KeyStore.ClientKeyStore.SaveFileLocked | internal/runtime/key_store.go:192-205 | the file becomes the table or stays as it was |
| KeyStore.ClientKeyStore.ScanUsers | internal/runtime/key_store.go:47-70 | the loop stops at the first error and otherwise maps every user with a key, under the hash of `Clients.HashOfBytes` and `Clients.HashOfText` |
| KeyStore.ClientKeyStore.BuildMappings | internal/runtime/key_store.go:36-81 | the mappings of the users, sorted by uid, and the store afterwards on every path; which hashes these are is `Clients.IndexIsWhatClientsPresent` |
| Clients.TrimSpaceIs | internal/runtime/key_store.go:217 | trimming takes white space off both ends and nothing else |
| Clients.DecodesExactly | internal/runtime/key_store.go:218-221 | exactly the texts of an even number of hexadecimal digits decode |
| Clients.CaseOfHex | internal/runtime/key_store.go:218 | upper-case digits decode as lower-case ones do |
| Clients.HashOfBytes | internal/runtime/key_store.go:216-224 | a key that is the text of some bytes is hashed as those bytes: eight bytes of their SHA-256, as text |
| Clients.HashOfText | internal/runtime/key_store.go:216-224 | any other key is hashed as its trimmed text |
| Clients.MasterIs64Digits | internal/runtime/key_store.go:124-134 | a master key is usable if and only if it is 64 hexadecimal digits up to white space around them |
| Clients.AutoDraws | internal/runtime/key_store.go:99-117 | a key is drawn only for a user without one, and only while the file has room and the node a master key |
| Clients.FileOnlyReads | internal/runtime/key_store.go:99-120 | the file source hands out what is stored, trimmed, and nothing else; a source of an unknown name is an error |
| Clients.StatelessLeavesStore | internal/runtime/key_store.go:36-81 | a call over a source without a key file leaves table and file alone |
| Clients.FirstCallLoads | internal/runtime/key_store.go:168-190 | the first call loads the file's table and fails if and only if the file is there and cannot be read or does not decode |
| Clients.IndexIsWhatClientsPresent | internal/runtime/embedded.go:519-541 | after every successful rebuild, for every key source: a hash is indexed if and only if the client of some user presents it, computed from the node, the user's fields and the stored keys, and it names such a user with a largest id |
| Clients.SplitClientsAreIndexed | internal/runtime/key_store.go:123-144 | over the split source every user's client is indexed under eight bytes of the SHA-256 of its own 64 key bytes r and k |
| KeyStore.ScanReads | internal/runtime/key_store.go:99-117 | a scan hands out the key the table holds |
| KeyStore.KeysAreSticky | internal/runtime/key_store.go:36-81 | an id once given a key gets the same key in every later successful call, failed calls in between included |
| KeyStore.RecordedUnlessBlank | internal/runtime/key_store.go:65-70 | a key handed out is on record afterwards if and only if the entry was not white space only |
| KeyStore.BlankEntryIsNotSticky | internal/runtime/key_store.go:99-117 | over an entry of white space every call hands out what it draws and records nothing |
| KeyStore.TableBounded | internal/runtime/key_store.go:99-117 | the table never exceeds the larger of its loaded size and the limit |
| KeyStore.SyncedExactly | internal/runtime/key_store.go:168-205 | when a call leaves memory and file equal, as an if and only if |
| KeyStore.SuccessfulRunsStaySynced | internal/runtime/key_store.go:36-81 | as long as every call succeeded memory and file are equal |
| KeyStore.UnreadableFileIsForgotten | internal/runtime/key_store.go:168-190 | after a failed read the next call overwrites the file if and only if it succeeds with a non-empty table, and stored ids that are not its users are gone from the table |
| KeyStore.IndexSound | internal/runtime/embedded.go:526-538 | the index holds the last usable entry of a hash, and every hash that has one |
| KeyStore.IndexPicksLargest | internal/runtime/embedded.go:526-538 | among sorted entries a collision goes to a largest uid |
| KeyStore.MappingsAre | internal/runtime/key_store.go:47-70 | the mappings are exactly those of the users with a key |
| KeyStore.IndexBillsOwner | internal/runtime/embedded.go:519-541 | every indexed hash names a user whose key has it and whose id is largest, and every user with a key is indexed |
| KeyStore.AdmissionBillsOwner | internal/runtime/embedded.go:543-566 | a presented hash is admitted if and only if the user the index names owns it, with a largest id among owners, and has a non-zero id |
| KeyStore.RebuildBillsOwner | internal/runtime/embedded.go:519-566 | so it is after every rebuild that succeeds, for the keys BuildMappings resolved for the server's users |
| TwoRebuilds.RebuildsPaired | internal/runtime/key_store.go:36-81 | two successful rebuilds for the same users resolve the same key for every user, for every key source; over a key file the second follows the first's store, or the file is only read |
| TwoRebuilds.RebuildsSameIndex | internal/runtime/embedded.go:519-541 | and with distinct ids give the same index, whatever the order of the user map and the ties in the sort |
| Billing.IndexOrigin | internal/runtime/embedded.go:519-541 | over every run the index in use is the latest one written, or still empty |
| Billing.ConnectionStays | internal/runtime/embedded.go:205-227 | a connection keeps its counter and the counter its user in every later state |
| Billing.ConnectionBillsOwner | internal/runtime/embedded.go:543-566 | over every run, whoever presented a hash is charged ever after on a counter of a user who owned it, with a largest id, at the latest rebuild before, and who was current with a non-zero id |
| KeyStore.IndexOrderIrrelevant | internal/runtime/key_store.go:71-73 | with distinct ids and no key file, map order and ties in the sort do not change the index |
| Online.StepAgrees | internal/runtime/embedded.go:179-203 | a step keeps eviction invisible if and only if it is not a close of an evicted entry |
| Online.LazyEvictionInvisible | internal/runtime/embedded.go:179-203 | over runs of prompt closes a poll reports what a never-pruned log would |
| Online.DevicesAreRecent | internal/runtime/embedded.go:179-203 | a poll reports exactly the current users with an id seen within two push intervals, or two minutes without one, each with its id and latest address |
| Online.CloseRefreshes | internal/runtime/embedded.go:568-575 | a close that finds its entry keeps the user online from the same address for a whole window more, and touches nobody else |
| Online.LateCloseHidesUser | internal/runtime/embedded.go:568-575 | a late close is not refreshed and the user goes unreported |
| Online.HugeIntervalReportsNobody | internal/runtime/embedded.go:182-185 | with a push interval above 2^62 nanoseconds the product wraps, the cutoff is in the future and nobody is reported |
| Report.WrapAdd | internal/panel/client.go:372-373 | wrapping each partial sum to 64 bits and wrapping the total come to the same |
| Report.Aggregate | internal/panel/client.go:365-375 | the report holds exactly the ids of the lines with the sums of their lines |
| Report.DistinctLines | internal/panel/client.go:365-375 | when no two lines share an id every line is reported as it is, upload first, and nothing else |
| Report.ReportOnline | internal/controller/controller.go:331-343 | every address of every online id without a line below the device minimum, and nothing else |
| Report.OnlineExactly | internal/controller/controller.go:331-343 | an online id is reported if and only if none of its lines is below the device minimum, in thousands of bytes, and then with exactly its addresses |
| Report.IdleUsersAreReported | internal/controller/controller.go:331-343 | an online id without traffic in the slice is always reported |
| Shutdown.StepSound | internal/runtime/embedded.go:205-252 | every step keeps the wait group equal to the loop, the handlers and the handler being spawned |
| Shutdown.ReachableSound | internal/runtime/embedded.go:85-107 | in every interleaving that equation and the order of the phases hold |
| Shutdown.CloseIsComplete | internal/runtime/embedded.go:97-107 | when Close returned: loop gone, no handler, none active, every accepted connection closed, if and only if the listener is not open |
| Shutdown.StartedThenClosed | internal/runtime/embedded.go:79-107 | on a server started first Close is complete in every interleaving |
| Shutdown.WaitsForLateConnections | internal/runtime/embedded.go:242-252 | a connection still open while Close waits was registered after it looked |
| Shutdown.LateConnectionStaysOpen | internal/runtime/embedded.go:229-252 | a reachable state with Close waiting on a connection nobody closed |
| Shutdown.DrainStep | internal/runtime/embedded.go:205-240 | with the listener shut every loop or handler step lowers the remaining work by one and no other step raises it |
| Shutdown.NeverStuck | internal/runtime/embedded.go:97-107 | while the wait group is positive some such step is possible |
| Shutdown.CloseCanReturn | internal/runtime/embedded.go:97-107 | from every waiting state exactly the remaining steps, and two more, let Close return with everything quiet |
| Shutdown.Connections.RegisterConn | internal/runtime/embedded.go:229-233 | the method is the register step |
| Shutdown.Connections.UnregisterConn | internal/runtime/embedded.go:235-240 | the method is the unregister step |
| Shutdown.Connections.CloseActiveConns | internal/runtime/embedded.go:242-252 | undisturbed, the loop is a run that closes exactly the active connections |
| Reload.StepSound | main.go:63-98 | every step keeps the live server, the started generations and the token count consistent |
| Reload.OneLiveServer | main.go:63-98 | at most one live server, the newest; accepted tokens are in the channel or taken; one token replaces at most one controller |
| Reload.ReloadNotLost | internal/controller/controller.go:241-246 | in every later state the live controller's request is a token, a replacement under way, a newer generation, or the context ended |
| Reload.ReloadIsServed | main.go:90-96 | with a token runNode's own next six steps bring up the next generation |
| Reload.CancelStopsTheNode | main.go:63-98 | once the context ended runNode takes at most seven more steps of its own, creates at most the controller it was about to create, and has no step left if and only if it has stopped, with no server up |
| Reload.SpuriousReloadIsStale | internal/task/task.go:62-75 | a controller replaced without asking is replaced for an older generation's token |
| Reload.StaleTokenReplacesNext | main.go:63-98 | a reachable state in which a stale token is about to replace the second controller |
| Reload.ReloadChannel.TrySend | internal/controller/controller.go:241-246 | afterwards there is one token, new unless there was one |
| Reload.Task.Start | internal/task/task.go:22-30 | starts a loop on a fresh stop channel unless one runs |
| Reload.Task.RunLoop | internal/task/task.go:32-53 | the goroutine runs the first execution if asked for and one per tick, and leaves a token if and only if one was there or an execution timed out |
| Reload.LoopEnds | internal/task/task.go:43-53 | the loop is gone if and only if it saw the stop channel or an execution failed; every wake-up before is an execution and none follows |
| Reload.Task.Close | internal/task/task.go:84-91 | closes the running loop's stop channel, never twice |
| Reload.Task.ExecuteWithTimeout | internal/task/task.go:57-82 | only a time-out sends a token and only a failure ends the loop |
| Settings.SudokuSettings.UnmarshalJSON | internal/panel/client.go:82-149 | the assignments compute the settings of an accepted document; a rejected one changes nothing |
| Settings.DecodedIsCanonical | internal/panel/client.go:123-149 | decoding only produces trimmed values with equal alias pairs and no empty table name |
| Settings.TextAliases | internal/panel/client.go:126-139 | of the spellings of a text option the first that is not blank counts, underscores before hyphens before the old name |
| Settings.MaskAliases | internal/panel/client.go:144-146 | likewise in the mask options |
| Settings.PlainOptions | internal/panel/client.go:124-147 | an option with one spelling is read from the member of its own name |
| Settings.ValueAliases | internal/panel/client.go:130-140 | likewise for paddings that are not zero, the downlink flag and the tables |
| Settings.TablesFromText | internal/panel/client.go:485-496 | table names in one text, split by any separator, configure what the list of the names does |
| Settings.TablesReadBack | internal/panel/client.go:455-500 | a cleaned table list survives encoding and decoding, nil included |
| Settings.SettingsRoundTrip | internal/panel/client.go:82-149 | decoding the encoding is the identity exactly on the values decoding can produce |
| Snapshot.IntervalIsSeconds | internal/panel/client.go:280-301 | a number and its text configure the same interval, that many seconds if and only if positive and within 64 bits |
| Snapshot.NormalizeHonoursThePanel | internal/panel/client.go:250-278 | push and pull interval are each the panel's own, as a number, fraction dropped, or its text; null keeps a positive one; a minute otherwise; the listen address is kept or every interface; id and tag are the configuration's |
| Snapshot.PanelConfigures | internal/panel/client.go:250-273 | from the panel's document to the node in use each interval and each traffic minimum is the one named for it |
| Snapshot.NodeInfo.Normalize | internal/panel/client.go:250-278 | the node after a successful or failed run, and whether it succeeded; what its fields are is `Snapshot.NormalizeHonoursThePanel` |
| Snapshot.NormalizeSettles | internal/panel/client.go:250-278 | idempotent; succeeds if and only if protocol, port and key are there; nothing else touched; the values of the intervals are those of `Snapshot.NormalizeHonoursThePanel` |
| Snapshot.UsersReadBack | internal/controller/controller.go:376-383 | a user list survives encoding and decoding |
| Snapshot.AliveReadsBack | internal/controller/controller.go:385-391 | an alive map survives, its integer keys written as text |
| Snapshot.ReadElsewhere | internal/controller/controller.go:211-235 | a cache is refused if and only if it names another panel or node; otherwise everything comes back, normalized |
| Snapshot.CacheRoundTrip | internal/controller/controller.go:181-235 | a fetched snapshot comes back with equal settings, intervals, users and alive map, and is equal as a whole if and only if the panel sent network settings |
| Snapshot.CacheIsStable | internal/controller/controller.go:181-235 | saving what was read writes the same document |
| Snapshot.PanelCache.SavePanelSnapshot | internal/controller/controller.go:181-209 | the node is normalized in place and the file replaced as a whole or left alone |

## Left out

- One report in flight: `internal/task/task.go:62-75` abandons a timed-out execution without joining it, so this is an assumption of the conservation theorem, not a consequence; the failing run is proved instead.
- Byte counts of 2^63 and above: the ledger's steps assume no counter reaches them; sums compared with a threshold do wrap as in the program.
- A ledger lasts as long as its server: a reload builds a new one with empty counters, and bytes not yet reported are dropped with the old one.
- Handshake, HTTP mask, mux, UoT, table building and the crypto library they call are not part of this model; a connection presents a hash and then moves bytes.
- Elliptic-curve points: only the scalar sum of a split key is proved, not that the public key is recovered. The random split of the `auto` source is an arbitrary answer without surrounding white space.
- SHA-256, SHA-512 and the UTF-8 encoding are uninterpreted functions.
- HTTP, retries and the text of JSON and msgpack: replies are values and documents are trees. Numbers keep their exact value, so rounding to float64 and the refusal of `1e3` for an integer field are not captured, nor is a conversion from float64 to int64 out of range on machines other than amd64.
- Strings are sequences of code points: invalid UTF-8 in a msgpack reply, which JSON would replace in the cache, is not captured. Upper and lower case of key sources are folded for ASCII letters only.
- Object member names are compared up to case with one constructor per name; an exact match preferred over a case-insensitive one is not captured. Several spellings of one id in an alive map leave open which counts.
- `saved_at` is not part of the snapshot: nothing but a log line reads it.
- PanelSync.Controller.NodeInfoMonitor: runs against the embedded server only; saving the snapshot in the same pass is `Snapshot.PanelCache.SavePanelSnapshot`, and the alive list is not kept.
- The wall clock is a parameter of each call; one call reads it once.
- How the external process is started, signalled and killed, its exiting on its own, and `GetOnlineDevice` of the external server, which is that of the embedded one. Its configuration is a hash and its start a yes or no.
- The files behind the key store and the cache are single values that are replaced or kept.
- The embedded server's locks: a step of the ledger is what happens under one lock; the scan and the confirms of a report take one step per line.
- One monitor pass at a time: an execution abandoned at its time limit may still run when the next one begins, and the two then share the client's tags and the user list; the passes of `PanelSync` do not overlap.
- Starting the accept loop is one step, from the listener to the wait group; the program listens, counts and spawns in three statements that nothing else runs between unless Close is called during Start.
- In the reload protocol the server's Close returns within one step; that it returns is `Shutdown.CloseCanReturn`.
- The reload protocol lets every generation that ever started its tasks send at any time, which includes more sends than timers allow. Creating a client or starting a controller may fail at will.
- EmbeddedServer.Embedded.UpdateUsers: added and modified users go through the same upsert, so they are one fold over the concatenated lists.
- KeyStore.KeysAreSticky: assumes that no stored key is white space only and that drawn keys are trimmed and not empty; what happens otherwise is `KeyStore.BlankEntryIsNotSticky`.
- LedgerRuns.TrafficConservation: assumes one report in flight, as said above.
- Online.LazyEvictionInvisible: assumes prompt closes and a monotone clock; the exact step condition is `Online.StepAgrees`.
- Sorting.Sort: stands for `sort.Slice`: any order of equal uids is possible, since only sortedness and the items are promised.
- `SetAliveList`, `DebugUserHashMap`, log lines, configuration loading and the command line.
