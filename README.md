# MRP receipt sync: a verified model

This project models the core of the Mobile Receipt Printer (MRP) app in Dafny.
Billing devices create receipts, each carrying a QR payload
`MRP_{receiptId}_{deviceId}_{hash}`. Collecting devices scan these payloads and
record collections. Devices on the same network exchange their full databases
and merge what they receive.

Each module follows one source file:

- `merge.dfy` (module `Merge`) holds the per-record merge rules and the batch fold of `processSyncResponse`:
  - receipts: version first, then timestamp;
  - collections: timestamp only.
- `discovery.dfy` (module `Discovery`) holds the rest of `DeviceDiscoveryHelper`:
  - the peer list, the service-name parsing and the self-filter;
  - the request/response payloads;
  - the per-peer and multi-peer sync loops;
  - the discovery flag guards and the statistics map.

  `class DeviceDiscoveryHelper` keeps the source's mutable state as fields.
- `scanner.dfy` (module `Scanner`) models `ScannerViewModel`:
  - the two-second cooldown per content;
  - the validation chain;
  - the collection it records;
  - the bounded, newest-first result history.
- `qr_code.dfy` (module `QrCode`) models `QRCodeGenerator`:
  - payload assembly, validation and field extraction;
  - the fallback hash;
  - the two ESC/POS builders, which append command by command.
- `sync_status.dfy` (module `SyncStatus`) models `SyncStatusManager`:
  - the status setters and the pending-count formula;
  - the sync log and its statistics.
- `device_manager.dfy` (module `Devices`) models `DeviceManager` over the device's preferences.
- `receipt_form.dfy` (module `ReceiptForm`) models the receipt form's bookkeeping in `MainActivity`:
  - the per-biller receipt counter;
  - the autocomplete filters and the amount filter;
  - form validity.
- Supporting modules:
  - `records.dfy` (`Records`): the entities, the keyed tables, their JSON mapping and the shared `Database` object.
  - `json.dfy` (`Json`): 32- and 64-bit integers and JSON values with the typed getters.
  - `strings.dfy` (`Strings`): Kotlin string functions.
  - `wrappers.dfy` (`Wrappers`): `Option`.

Platform inputs are parameters of the operations that use them:

- the clock, as one `now` per call plus the formatted time and date texts;
- generated UUIDs and the Android id;
- the SHA-256 digest;
- what each peer answered (`Exchange`: failed, closed without a reply, or replied with a payload).

A Room table becomes a `Table<T>`. It maps each id to its row and keeps the ids in the order of first insertion; "select all" returns the rows in that order.

## Model

All source paths are under `app/src/main/java/com/example/mobilereceiptprinter/`, abbreviated below by the file name alone.

| member | source | states |
|---|---|---|
| Records.ReceiptRoundTrip | app/src/main/java/com/example/mobilereceiptprinter/DeviceDiscoveryHelper.kt:376-392 | A receipt serialised with the request's keys parses back, via the receiver's getters, to the same receipt (all 13 fields). |
| Records.CollectionRoundTrip | app/src/main/java/com/example/mobilereceiptprinter/DeviceDiscoveryHelper.kt:400-415 | A collection serialised with the request's keys parses back to the same collection (all 9 fields). |
| Records.ReceiptsJson | app/src/main/java/com/example/mobilereceiptprinter/DeviceDiscoveryHelper.kt:370-393 | The receipts array has one element per table row, in table order, each the row's JSON. |
| Records.CollectionsJson | app/src/main/java/com/example/mobilereceiptprinter/DeviceDiscoveryHelper.kt:397-416 | The collections array has one element per table row, in table order. |
| Records.Table.Put | app/src/main/java/com/example/mobilereceiptprinter/DeviceDiscoveryHelper.kt:492-514 | Insert-or-update by id: afterwards the id reads the new row and every other id reads what it read before; a new id is appended to the order; the table invariant is kept. |
| Records.Table.All | app/src/main/java/com/example/mobilereceiptprinter/DeviceDiscoveryHelper.kt:373 | "Select all" returns every row exactly once, in the table's insertion order. |
| Json.GetInt | app/src/main/java/com/example/mobilereceiptprinter/DeviceDiscoveryHelper.kt:476 | A number field reads as its value narrowed to 32 bits; a missing key or a non-number is an error. |
| Json.GetLong | app/src/main/java/com/example/mobilereceiptprinter/DeviceDiscoveryHelper.kt:486 | A number field reads as its value narrowed to 64 bits; a missing key or a non-number is an error. |
| Json.GetString | app/src/main/java/com/example/mobilereceiptprinter/DeviceDiscoveryHelper.kt:471 | A string field reads as its text; a missing key or a non-string is an error. |
| Json.GetBoolean | app/src/main/java/com/example/mobilereceiptprinter/DeviceDiscoveryHelper.kt:484 | A boolean field reads as its value; a missing key or a non-boolean is an error. |
| Merge.MergeReceiptRule | app/src/main/java/com/example/mobilereceiptprinter/DeviceDiscoveryHelper.kt:490-515 | The outcome is SYNCED exactly when there is no local copy, or the incoming version is higher, or its lastModified is later; SYNCED stores the incoming record as SYNCED, CONFLICT keeps the local one marked CONFLICT; no other id changes; never ERROR. |
| Merge.ApplyReceiptError | app/src/main/java/com/example/mobilereceiptprinter/DeviceDiscoveryHelper.kt:470-488 | A receipt object missing a field or holding a mistyped one yields ERROR and leaves the store unchanged. |
| Merge.MergeReceiptKeepsValid | app/src/main/java/com/example/mobilereceiptprinter/DeviceDiscoveryHelper.kt:468-526 | Merging a receipt keeps every row under its own id and does not touch the collections. |
| Merge.RemergeReceiptConflicts | app/src/main/java/com/example/mobilereceiptprinter/DeviceDiscoveryHelper.kt:497-515 | Merging the same receipt twice reports CONFLICT the second time and re-marks the stored row CONFLICT: the merge is not idempotent. |
| Merge.IdenticalReceiptConflicts | app/src/main/java/com/example/mobilereceiptprinter/DeviceDiscoveryHelper.kt:497-514 | A receipt with the local version and timestamp is reported as CONFLICT. |
| Merge.LowerVersionLaterTimestampWins | app/src/main/java/com/example/mobilereceiptprinter/DeviceDiscoveryHelper.kt:503-508 | A lower-version receipt with a later timestamp overwrites the local copy, so the stored version goes down. |
| Merge.MergeCollectionRule | app/src/main/java/com/example/mobilereceiptprinter/DeviceDiscoveryHelper.kt:546-566 | SYNCED exactly when there is no local copy or the incoming lastModified is later. A new collection also marks its receipt collected. Otherwise the local row is kept, marked CONFLICT. Only the collection id and, for a new one, its receipt change. |
| Merge.DanglingCollectionTolerated | app/src/main/java/com/example/mobilereceiptprinter/DeviceDiscoveryHelper.kt:546-553 | A new collection whose receipt is absent is still inserted and reported SYNCED; no receipt changes. |
| Merge.MergeCollectionKeepsValid | app/src/main/java/com/example/mobilereceiptprinter/DeviceDiscoveryHelper.kt:528-574 | Merging a collection keeps every row under its own id. |
| Merge.CountReceipt | app/src/main/java/com/example/mobilereceiptprinter/DeviceDiscoveryHelper.kt:438-441 | A SYNCED receipt adds one to receiptCount, a CONFLICT one to conflictCount, and an ERROR to no counter; the collection count never changes. |
| Merge.CountCollection | app/src/main/java/com/example/mobilereceiptprinter/DeviceDiscoveryHelper.kt:452-455 | A SYNCED collection adds one to collectionCount, a CONFLICT one to conflictCount, and an ERROR to no counter; the receipt count never changes. |
| Merge.ReceiptStep | app/src/main/java/com/example/mobilereceiptprinter/DeviceDiscoveryHelper.kt:434-442 | One element of the receipts loop keeps the store valid and never touches the collections. |
| Merge.CollectionStep | app/src/main/java/com/example/mobilereceiptprinter/DeviceDiscoveryHelper.kt:448-456 | One element of the collections loop keeps the store valid. |
| Merge.FoldReceipts | app/src/main/java/com/example/mobilereceiptprinter/DeviceDiscoveryHelper.kt:431-443 | The receipts loop keeps the store valid, leaves collections and the collection count alone, raises the total by at most the number of elements, and does nothing once aborted. |
| Merge.FoldCollections | app/src/main/java/com/example/mobilereceiptprinter/DeviceDiscoveryHelper.kt:446-457 | The collections loop keeps the store valid, leaves the receipt count alone, raises the total by at most the number of elements, and does nothing once aborted. |
| Merge.FoldReceiptsAbortedStable | app/src/main/java/com/example/mobilereceiptprinter/DeviceDiscoveryHelper.kt:429-462 | Once an element throws, the rest of the receipts batch changes nothing: earlier merges stay, later ones never happen. |
| Merge.FoldCollectionsAbortedStable | app/src/main/java/com/example/mobilereceiptprinter/DeviceDiscoveryHelper.kt:429-462 | The same for the collections batch. |
| Merge.ProcessPayloadKeepsValid | app/src/main/java/com/example/mobilereceiptprinter/DeviceDiscoveryHelper.kt:423-466 | Processing a whole payload keeps every row under its own id. |
| Merge.TallyBound | app/src/main/java/com/example/mobilereceiptprinter/DeviceDiscoveryHelper.kt:427-465 | The three counters sum to at most the number of records sent; each per-kind SYNCED count is at most the length of its array. |
| Merge.FoldReceiptsFrame | app/src/main/java/com/example/mobilereceiptprinter/DeviceDiscoveryHelper.kt:431-443 | The receipts loop writes only the ids of the well-formed receipts it is given. |
| Merge.FreshReceiptsAllSynced | app/src/main/java/com/example/mobilereceiptprinter/DeviceDiscoveryHelper.kt:431-443 | A batch of new, distinct, well-formed receipts is stored entirely, as SYNCED, and adds exactly its length to the receipt count. |
| Merge.ReceiptsJsonParses | app/src/main/java/com/example/mobilereceiptprinter/DeviceDiscoveryHelper.kt:370-393 | Every element of a sent receipts array is an object the receiver parses to the corresponding table row. |
| Merge.CollectionsJsonParses | app/src/main/java/com/example/mobilereceiptprinter/DeviceDiscoveryHelper.kt:397-416 | Every element of a sent collections array parses to the corresponding row. |
| Discovery.IndexOfDevice | app/src/main/java/com/example/mobilereceiptprinter/DeviceDiscoveryHelper.kt:715 | `indexOfFirst`: the first index holding the id, or none when no entry has it. |
| Discovery.UpsertAtIndex | app/src/main/java/com/example/mobilereceiptprinter/DeviceDiscoveryHelper.kt:713-724 | The upsert replaces the entry at the first matching index, or appends the device. |
| Discovery.UpsertKeepsIdsUnique | app/src/main/java/com/example/mobilereceiptprinter/DeviceDiscoveryHelper.kt:713-724 | On a list with unique ids, the upsert keeps ids unique, contains the device, keeps every entry with another id, and adds nothing else. |
| Discovery.RemoveById | app/src/main/java/com/example/mobilereceiptprinter/DeviceDiscoveryHelper.kt:729 | `removeAll`: exactly the entries without the id remain. |
| Discovery.RemoveByIdConcat | app/src/main/java/com/example/mobilereceiptprinter/DeviceDiscoveryHelper.kt:729 | Removal filters the two parts of a list separately, so the kept entries stay in their order and none is repeated or dropped. |
| Discovery.RemoveByIdAt | app/src/main/java/com/example/mobilereceiptprinter/DeviceDiscoveryHelper.kt:726-731 | On a list with unique ids, removing the id at index i cuts out exactly that entry and keeps the others in order. |
| Discovery.RemoveByIdKeepsUnique | app/src/main/java/com/example/mobilereceiptprinter/DeviceDiscoveryHelper.kt:726-731 | Removal keeps ids unique. |
| Discovery.RemoveByIdAbsent | app/src/main/java/com/example/mobilereceiptprinter/DeviceDiscoveryHelper.kt:726-731 | Removing an id that no entry has leaves the list unchanged. |
| Discovery.RemoveUndoesNewUpsert | app/src/main/java/com/example/mobilereceiptprinter/DeviceDiscoveryHelper.kt:713-731 | Adding a new device and then removing its id restores the list. |
| Discovery.ExtractDeviceId | app/src/main/java/com/example/mobilereceiptprinter/DeviceDiscoveryHelper.kt:709-711 | A result other than the whole name is the text after some '_' with no '_' after it; whenever a '_' has no '_' after it and is not the last character, the result is the text after it. So the id is the non-empty suffix after the last '_', or else the whole name. |
| Discovery.ExtractFromServiceName | app/src/main/java/com/example/mobilereceiptprinter/DeviceDiscoveryHelper.kt:641-644 | A non-empty, underscore-free device id is read back from the service name it registers. |
| Discovery.OwnServiceIsFiltered | app/src/main/java/com/example/mobilereceiptprinter/DeviceDiscoveryHelper.kt:686-689 | This device's own service name always contains its id, so the resolve callback skips it. |
| Discovery.RequestCarriesStore | app/src/main/java/com/example/mobilereceiptprinter/DeviceDiscoveryHelper.kt:361-421 | A request has type SYNC_REQUEST and version "1.0", and carries every local receipt and collection, each readable by the receiver. |
| Discovery.CreateSyncRequest | app/src/main/java/com/example/mobilereceiptprinter/DeviceDiscoveryHelper.kt:361-421 | The request has exactly the keys type, deviceId, deviceName, timestamp, version, receipts and collections; it carries this device's id and name and the clock reading, and one array element per local receipt and per local collection. |
| Discovery.Respond | app/src/main/java/com/example/mobilereceiptprinter/DeviceDiscoveryHelper.kt:619-639 | Answering a request keeps the responder's store valid. |
| Discovery.ResponseCarriesMergedStore | app/src/main/java/com/example/mobilereceiptprinter/DeviceDiscoveryHelper.kt:619-639 | The responder merges the request only when it has a "receipts" key. The response has type SYNC_RESPONSE, no "version" key, and carries the responder's tables after the merge. |
| Discovery.CollectionsOnlyRequestIgnored | app/src/main/java/com/example/mobilereceiptprinter/DeviceDiscoveryHelper.kt:628-630 | A request carrying only collections is not merged at all. |
| Discovery.PeerSync | app/src/main/java/com/example/mobilereceiptprinter/DeviceDiscoveryHelper.kt:297-359 | The exchange with one peer keeps the local store valid. |
| Discovery.SilentPeerSucceeds | app/src/main/java/com/example/mobilereceiptprinter/DeviceDiscoveryHelper.kt:317-335 | A peer that closes without a reply still counts as one successful device, with zero records and no store change. |
| Discovery.FailedPeerChangesNothing | app/src/main/java/com/example/mobilereceiptprinter/DeviceDiscoveryHelper.kt:337-349 | A failed exchange leaves the store unchanged and reports failure, zero counts and the error message. |
| Discovery.PeerCountsBounded | app/src/main/java/com/example/mobilereceiptprinter/DeviceDiscoveryHelper.kt:319-335 | A replying peer counts as one device, and its counts are bounded by the arrays it sent. |
| Discovery.SyncPeers | app/src/main/java/com/example/mobilereceiptprinter/DeviceDiscoveryHelper.kt:243-268 | One result per peer, in list order, each peer merging into the store the previous one left; the store stays valid. |
| Discovery.AggregateDevices | app/src/main/java/com/example/mobilereceiptprinter/DeviceDiscoveryHelper.kt:254-259 | The device total is the number of successful peers. It is at most the number of peers, and it is positive exactly when some peer succeeded. |
| Discovery.AggregateAppend | app/src/main/java/com/example/mobilereceiptprinter/DeviceDiscoveryHelper.kt:254-259 | The totals over two batches are the sums of their totals. |
| Discovery.StatisticsAfterSync | app/src/main/java/com/example/mobilereceiptprinter/DeviceDiscoveryHelper.kt:768-781 | After a multi-device sync the statistics report its time, the number of successful peers (at most the peer count), and success exactly when some peer succeeded. |
| Discovery.DeviceDiscoveryHelper.Initialize | app/src/main/java/com/example/mobilereceiptprinter/DeviceDiscoveryHelper.kt:119-133 | After initialize the network status is CONNECTED, even when registerService has just reported SYNC_ERROR. |
| Discovery.DeviceDiscoveryHelper.RegisterService | app/src/main/java/com/example/mobilereceiptprinter/DeviceDiscoveryHelper.kt:641-676 | A registration the platform refuses at once sets SYNC_ERROR; otherwise the status is left for the listener. |
| Discovery.DeviceDiscoveryHelper.OnServiceRegistered | app/src/main/java/com/example/mobilereceiptprinter/DeviceDiscoveryHelper.kt:658-662 | The service is marked registered and the network status becomes CONNECTED. |
| Discovery.DeviceDiscoveryHelper.OnRegistrationFailed | app/src/main/java/com/example/mobilereceiptprinter/DeviceDiscoveryHelper.kt:649-652 | The network status becomes SYNC_ERROR. |
| Discovery.DeviceDiscoveryHelper.OnServiceUnregistered | app/src/main/java/com/example/mobilereceiptprinter/DeviceDiscoveryHelper.kt:664-667 | The service is marked not registered. |
| Discovery.DeviceDiscoveryHelper.Cleanup | app/src/main/java/com/example/mobilereceiptprinter/DeviceDiscoveryHelper.kt:745-763 | Cleanup stops discovery exactly as stopDiscovery does. |
| Discovery.DeviceDiscoveryHelper.StartDiscovery | app/src/main/java/com/example/mobilereceiptprinter/DeviceDiscoveryHelper.kt:138-202 | While discovering, nothing changes. Otherwise the flag is raised with the "Discovering devices..." progress, and a refused start lowers it again with SYNC_ERROR. |
| Discovery.DeviceDiscoveryHelper.StopDiscovery | app/src/main/java/com/example/mobilereceiptprinter/DeviceDiscoveryHelper.kt:204-217 | Nothing changes when not discovering or when the stop is refused; otherwise the flag drops and the progress is IDLE. |
| Discovery.DeviceDiscoveryHelper.OnDiscoveryStarted | app/src/main/java/com/example/mobilereceiptprinter/DeviceDiscoveryHelper.kt:159-162 | The started callback sets the network status to SYNC_AVAILABLE and changes nothing else. |
| Discovery.DeviceDiscoveryHelper.OnStartDiscoveryFailed | app/src/main/java/com/example/mobilereceiptprinter/DeviceDiscoveryHelper.kt:149-153 | The failed-start callback lowers the discovering flag and sets the network status to SYNC_ERROR. |
| Discovery.DeviceDiscoveryHelper.OnDiscoveryStopped | app/src/main/java/com/example/mobilereceiptprinter/DeviceDiscoveryHelper.kt:164-167 | The stopped callback lowers the discovering flag and changes nothing else. |
| Discovery.DeviceDiscoveryHelper.AddDiscoveredDevice | app/src/main/java/com/example/mobilereceiptprinter/DeviceDiscoveryHelper.kt:713-724 | The list becomes the upsert of the device; ids stay unique. |
| Discovery.DeviceDiscoveryHelper.RemoveDiscoveredDevice | app/src/main/java/com/example/mobilereceiptprinter/DeviceDiscoveryHelper.kt:726-731 | Every entry with the id extracted from the service name goes; ids stay unique. |
| Discovery.DeviceDiscoveryHelper.OnServiceResolved | app/src/main/java/com/example/mobilereceiptprinter/DeviceDiscoveryHelper.kt:684-702 | A service whose name contains this device's id is ignored. Any other is upserted as a BOTH-role peer with the three capabilities, its address (or "") and its port. |
| Discovery.DeviceDiscoveryHelper.OnServiceLost | app/src/main/java/com/example/mobilereceiptprinter/DeviceDiscoveryHelper.kt:176-181 | A lost service removes the peers with its extracted id. |
| Discovery.DeviceDiscoveryHelper.ProcessIncomingReceipt | app/src/main/java/com/example/mobilereceiptprinter/DeviceDiscoveryHelper.kt:468-526 | The store and result are those of the receipt merge rule, or ERROR with no change. |
| Discovery.DeviceDiscoveryHelper.ProcessIncomingCollection | app/src/main/java/com/example/mobilereceiptprinter/DeviceDiscoveryHelper.kt:528-574 | The store and result are those of the collection merge rule, or ERROR with no change. |
| Discovery.DeviceDiscoveryHelper.MergeReceiptElement | app/src/main/java/com/example/mobilereceiptprinter/DeviceDiscoveryHelper.kt:436-441 | One loop iteration over a receipt element does what the fold's step says. |
| Discovery.DeviceDiscoveryHelper.MergeCollectionElement | app/src/main/java/com/example/mobilereceiptprinter/DeviceDiscoveryHelper.kt:450-455 | One loop iteration over a collection element does what the fold's step says. |
| Discovery.DeviceDiscoveryHelper.MergeReceiptsArray | app/src/main/java/com/example/mobilereceiptprinter/DeviceDiscoveryHelper.kt:433-442 | The `for` loop over the receipts array computes the receipts fold: the same store, counters and abort. |
| Discovery.DeviceDiscoveryHelper.MergeCollectionsArray | app/src/main/java/com/example/mobilereceiptprinter/DeviceDiscoveryHelper.kt:447-456 | The loop over the collections array computes the collections fold, continuing the receipt counters. |
| Discovery.DeviceDiscoveryHelper.ProcessSyncResponse | app/src/main/java/com/example/mobilereceiptprinter/DeviceDiscoveryHelper.kt:423-466 | The new store and the returned triple are those of processing the payload: receipts first, then collections, stopping at the first exception. |
| Discovery.DeviceDiscoveryHelper.CreateSyncRequestNow | app/src/main/java/com/example/mobilereceiptprinter/DeviceDiscoveryHelper.kt:361-421 | The request built from the current store, id, name and time. |
| Discovery.DeviceDiscoveryHelper.CreateSyncResponse | app/src/main/java/com/example/mobilereceiptprinter/DeviceDiscoveryHelper.kt:619-639 | The merge and the response are those of the respond function. |
| Discovery.DeviceDiscoveryHelper.HandleSyncRequest | app/src/main/java/com/example/mobilereceiptprinter/DeviceDiscoveryHelper.kt:598-617 | No line, or a line that is not a JSON object, gets no answer and changes nothing. An object is merged and answered. |
| Discovery.DeviceDiscoveryHelper.SyncWithDevice | app/src/main/java/com/example/mobilereceiptprinter/DeviceDiscoveryHelper.kt:297-359 | The request sent is the current store's. The store and result are the per-peer exchange's. |
| Discovery.DeviceDiscoveryHelper.SyncWithAllDevices | app/src/main/java/com/example/mobilereceiptprinter/DeviceDiscoveryHelper.kt:221-295 | No peers: "No devices found", with no other change. Otherwise every peer syncs in order and the result holds the successful peers' totals. It becomes the last result, the progress is COMPLETED, and one MULTI_DEVICE_SYNC log entry (SUCCESS or PARTIAL) is appended. |
| Discovery.DeviceDiscoveryHelper.GetSyncStatistics | app/src/main/java/com/example/mobilereceiptprinter/DeviceDiscoveryHelper.kt:768-781 | The statistics map, with zero or false for a missing last result. |
| QrCode.HexByte | app/src/main/java/com/example/mobilereceiptprinter/QRCodeGenerator.kt:239 | `%02x`: two lower-case hex digits, high nibble first. |
| QrCode.HexString | app/src/main/java/com/example/mobilereceiptprinter/QRCodeGenerator.kt:239 | Joining the bytes gives twice as many characters, all lower-case hex. |
| QrCode.Abs32 | app/src/main/java/com/example/mobilereceiptprinter/QRCodeGenerator.kt:243 | `Math.abs` on an Int: the absolute value, except that the most negative value maps to itself. |
| QrCode.JavaHashCode | app/src/main/java/com/example/mobilereceiptprinter/QRCodeGenerator.kt:243 | `String.hashCode()` is the polynomial s[0]·31^(n-1) + … + s[n-1] narrowed to 32 bits, although the code wraps after every step. |
| QrCode.GenerateHash | app/src/main/java/com/example/mobilereceiptprinter/QRCodeGenerator.kt:235-245 | The hash is exactly 8 characters with no '_'. With SHA-256 they are lower-case hex; with the fallback they are digits or '-'. |
| QrCode.GenerateQRContent | app/src/main/java/com/example/mobilereceiptprinter/QRCodeGenerator.kt:35-49 | The payload is `MRP_id_device_hash`, the hash taken over id, device id and receipt data; its length is that of the ids plus 14. |
| QrCode.AssembleIsJoin | app/src/main/java/com/example/mobilereceiptprinter/QRCodeGenerator.kt:44 | The assembled payload is the '_'-join of its four parts. |
| Strings.Split | app/src/main/java/com/example/mobilereceiptprinter/QRCodeGenerator.kt:199 | `split("_")` yields at least one piece, and no piece contains the separator. |
| Strings.SplitJoin | app/src/main/java/com/example/mobilereceiptprinter/QRCodeGenerator.kt:44-199 | Splitting a join of separator-free pieces gives back the pieces. |
| Strings.JoinSplit | app/src/main/java/com/example/mobilereceiptprinter/QRCodeGenerator.kt:44-199 | Joining the pieces of a split gives back the string. |
| QrCode.ValidIsAssembled | app/src/main/java/com/example/mobilereceiptprinter/QRCodeGenerator.kt:198-205 | A valid payload is exactly an assembly of a non-empty receipt id, a non-empty device id and an 8-character hash, all underscore-free. |
| QrCode.AssembledIsValid | app/src/main/java/com/example/mobilereceiptprinter/QRCodeGenerator.kt:198-205 | Such an assembly validates and splits back into its four parts. |
| QrCode.ExtractReceiptId | app/src/main/java/com/example/mobilereceiptprinter/QRCodeGenerator.kt:213-216 | Some exactly when the payload validates; the id is non-empty and underscore-free. |
| QrCode.ValidateQRFormatIff | app/src/main/java/com/example/mobilereceiptprinter/QRCodeGenerator.kt:198-205 | `validateQRFormat` holds exactly of "MRP_" + receiptId + "_" + deviceId + "_" + hash with non-empty, underscore-free ids and an underscore-free 8-character hash. |
| QrCode.ExtractDeviceId | app/src/main/java/com/example/mobilereceiptprinter/QRCodeGenerator.kt:224-227 | Some exactly when the payload validates; the device id is non-empty and underscore-free. |
| QrCode.QRRoundTrip | app/src/main/java/com/example/mobilereceiptprinter/QRCodeGenerator.kt:35-227 | For non-empty, underscore-free ids, the generated payload validates and both ids are extracted unchanged. |
| QrCode.UnderscoreIdNotRecovered | app/src/main/java/com/example/mobilereceiptprinter/QRCodeGenerator.kt:44-216 | A receipt id containing '_' is never extracted back from its own payload. |
| QrCode.StoreData | app/src/main/java/com/example/mobilereceiptprinter/QRCodeGenerator.kt:116-122 | The store command is `GS ( k`, the length low and high characters encoding length+3, then `1P0` and the content. |
| QrCode.StoreDataDecodes | app/src/main/java/com/example/mobilereceiptprinter/QRCodeGenerator.kt:116-122 | A printer reading the two length characters recovers exactly the content's length plus 3. |
| QrCode.GenerateThermalPrinterQR | app/src/main/java/com/example/mobilereceiptprinter/QRCodeGenerator.kt:89-130 | The output is model 2, size 5, level M, the store command, then the print command, with the exact total length. |
| QrCode.GenerateThermalPrinterQRWithNumber | app/src/main/java/com/example/mobilereceiptprinter/QRCodeGenerator.kt:139-190 | The output is the bold right-aligned `#n` heading, then model 2, size 3, level M, store, margin 0, print, margin 0. It begins with the alignment and bold codes and then `#` with the decimal number. |
| Scanner.Decide | app/src/main/java/com/example/mobilereceiptprinter/ScannerViewModel.kt:92-141 | The validations run in order. A verdict is an invalid format exactly when the payload does not validate. For a valid payload the verdict is NotFound when its receipt id is not stored, AlreadyCollected when a collection names it, and Collect of that id otherwise. |
| Scanner.Shortened | app/src/main/java/com/example/mobilereceiptprinter/ScannerViewModel.kt:98 | An invalid result shows the first 20 characters of the content, or all of a shorter content, then "...". |
| Scanner.ResultOf | app/src/main/java/com/example/mobilereceiptprinter/ScannerViewModel.kt:96-148 | A result is valid exactly for a recorded collection. A valid one shows the full content; every other shows the shortened one. All carry the scan's time text. The message is "Invalid QR Format - Not an MRP receipt", "Receipt not found in database" or "Receipt already collected" for the three refusals, and "Receipt #" + the first 8 characters of the id + " - Successfully collected!" for a collection. |
| Scanner.Collected | app/src/main/java/com/example/mobilereceiptprinter/ScannerViewModel.kt:180-212 | The collection is inserted, and an existing receipt becomes collected with lastModified = now. No other row changes, and the store invariant is kept. |
| Scanner.AfterScan | app/src/main/java/com/example/mobilereceiptprinter/ScannerViewModel.kt:92-149 | A scan changes the store only when it records a collection. |
| Scanner.RescanReportsCollected | app/src/main/java/com/example/mobilereceiptprinter/ScannerViewModel.kt:129-141 | After a receipt is collected, scanning it again reports "already collected". |
| Scanner.CooldownAfterScan | app/src/main/java/com/example/mobilereceiptprinter/ScannerViewModel.kt:42-50 | After a processed scan at t, the same content scanned less than 2000 ms later is ignored. |
| Scanner.FirstScanProcessed | app/src/main/java/com/example/mobilereceiptprinter/ScannerViewModel.kt:43-46 | A content never scanned before is not in cooldown once the clock reads at least 2000. |
| Scanner.ScannerViewModel.ValidateReceiptExists | app/src/main/java/com/example/mobilereceiptprinter/ScannerViewModel.kt:154-162 | True exactly when the receipt id is in the store. |
| Scanner.ScannerViewModel.CheckReceiptCollected | app/src/main/java/com/example/mobilereceiptprinter/ScannerViewModel.kt:167-175 | True exactly when some collection refers to the receipt. |
| Scanner.ScannerViewModel.MarkReceiptAsCollected | app/src/main/java/com/example/mobilereceiptprinter/ScannerViewModel.kt:180-212 | Records the "Scanner User"/"QR Scanner" PENDING collection and marks the receipt collected, as in the collected-store function. |
| Scanner.ScannerViewModel.ValidateAndProcessQR | app/src/main/java/com/example/mobilereceiptprinter/ScannerViewModel.kt:92-149 | Returns the result for the verdict and leaves the store as that verdict dictates. |
| Scanner.ScannerViewModel.ProcessScan | app/src/main/java/com/example/mobilereceiptprinter/ScannerViewModel.kt:40-86 | Inside the cooldown nothing changes. Otherwise: the scan time is recorded, the verdict's result goes on top of the history (at most 10 entries, the oldest dropped), isScanning ends false, and the store follows the verdict. |
| Scanner.ScannerViewModel.PushResult | app/src/main/java/com/example/mobilereceiptprinter/ScannerViewModel.kt:58-65 | The new result is first, the previous ones follow in order, and the history never exceeds 10. |
| Scanner.ScannerViewModel.ClearResults | app/src/main/java/com/example/mobilereceiptprinter/ScannerViewModel.kt:225-228 | The history and the cooldown times are emptied, so from a clock reading of 2000 ms on no content is in cooldown. |
| SyncStatus.Count | app/src/main/java/com/example/mobilereceiptprinter/SyncStatusManager.kt:156-160 | A status count is at most the list length, and zero exactly when the status is absent. |
| SyncStatus.CountTwo | app/src/main/java/com/example/mobilereceiptprinter/SyncStatusManager.kt:156-160 | Two different statuses together occur at most once per row. |
| SyncStatus.PendingCountBound | app/src/main/java/com/example/mobilereceiptprinter/SyncStatusManager.kt:154-165 | The pending count (PENDING receipts + PENDING collections + CONFLICT receipts) never exceeds the number of records. |
| SyncStatus.SetReceiptStatus | app/src/main/java/com/example/mobilereceiptprinter/SyncStatusManager.kt:93-113 | Updating a receipt's status changes only that row's status; an absent id changes nothing. |
| SyncStatus.SetCollectionStatus | app/src/main/java/com/example/mobilereceiptprinter/SyncStatusManager.kt:117-129 | The same for a collection. |
| SyncStatus.SetReceiptStatusPending | app/src/main/java/com/example/mobilereceiptprinter/SyncStatusManager.kt:93-113 | Setting a receipt's status moves the pending count by the weight of the new status minus the weight of the old one. |
| SyncStatus.SetCollectionStatusPending | app/src/main/java/com/example/mobilereceiptprinter/SyncStatusManager.kt:117-129 | The same for a collection. |
| SyncStatus.LogsOf | app/src/main/java/com/example/mobilereceiptprinter/SyncStatusManager.kt:194 | This device's log entries: exactly the entries with its id. |
| SyncStatus.LogsOfConcat | app/src/main/java/com/example/mobilereceiptprinter/SyncStatusManager.kt:194 | The device's entries of a log in two parts are its entries of each part, in log order, each as many times as it occurs. |
| SyncStatus.LogsOfAppend | app/src/main/java/com/example/mobilereceiptprinter/SyncStatusManager.kt:194-197 | Appending an entry adds it once, at the end, to its own device's entries and changes no other device's, so `totalSyncs` grows by one for that device only. |
| SyncStatus.LatestTime | app/src/main/java/com/example/mobilereceiptprinter/SyncStatusManager.kt:198 | `maxByOrNull`: none exactly for no entries, otherwise a time some entry has, and no entry's time is later. |
| SyncStatus.StatsFacts | app/src/main/java/com/example/mobilereceiptprinter/SyncStatusManager.kt:192-209 | The total is the number of this device's entries. Successes plus failures are at most the total. The last sync time is absent exactly when there are none, and otherwise it is the latest of them. |
| SyncStatus.StatsAfterLog | app/src/main/java/com/example/mobilereceiptprinter/SyncStatusManager.kt:168-209 | Logging one entry raises the total by one, and the success or failure count by one according to its status. |
| SyncStatus.SyncStatusManager.UpdatePendingSyncCount | app/src/main/java/com/example/mobilereceiptprinter/SyncStatusManager.kt:154-165 | The count becomes the pending-count formula over the current store. |
| SyncStatus.SyncStatusManager.UpdateConnectedDevices | app/src/main/java/com/example/mobilereceiptprinter/SyncStatusManager.kt:47-49 | The connected-device list becomes the given one. |
| SyncStatus.SyncStatusManager.StartSync | app/src/main/java/com/example/mobilereceiptprinter/SyncStatusManager.kt:54-57 | SYNCING, with the count recomputed. |
| SyncStatus.SyncStatusManager.CompleteSyncSuccess | app/src/main/java/com/example/mobilereceiptprinter/SyncStatusManager.kt:62-65 | SUCCESS, with the count recomputed. |
| SyncStatus.SyncStatusManager.CompleteSyncError | app/src/main/java/com/example/mobilereceiptprinter/SyncStatusManager.kt:70-74 | ERROR, one "ERROR"/"FAILED" log entry carrying the message, and the count recomputed; the store is unchanged. |
| SyncStatus.SyncStatusManager.SetOfflineStatus | app/src/main/java/com/example/mobilereceiptprinter/SyncStatusManager.kt:79-81 | OFFLINE. |
| SyncStatus.SyncStatusManager.SetIdleStatus | app/src/main/java/com/example/mobilereceiptprinter/SyncStatusManager.kt:86-88 | IDLE. |
| SyncStatus.SyncStatusManager.MarkReceiptPendingSync | app/src/main/java/com/example/mobilereceiptprinter/SyncStatusManager.kt:93-96 | The receipt's status becomes PENDING and the count is recomputed. |
| SyncStatus.SyncStatusManager.MarkReceiptSynced | app/src/main/java/com/example/mobilereceiptprinter/SyncStatusManager.kt:101-104 | The receipt's status becomes SYNCED and the count is recomputed. |
| SyncStatus.SyncStatusManager.MarkReceiptConflict | app/src/main/java/com/example/mobilereceiptprinter/SyncStatusManager.kt:109-112 | The receipt's status becomes CONFLICT and the count is recomputed. |
| SyncStatus.SyncStatusManager.MarkCollectionPendingSync | app/src/main/java/com/example/mobilereceiptprinter/SyncStatusManager.kt:117-120 | The collection's status becomes PENDING and the count is recomputed. |
| SyncStatus.SyncStatusManager.MarkCollectionSynced | app/src/main/java/com/example/mobilereceiptprinter/SyncStatusManager.kt:125-128 | The collection's status becomes SYNCED and the count is recomputed. |
| SyncStatus.SyncStatusManager.LogSync | app/src/main/java/com/example/mobilereceiptprinter/SyncStatusManager.kt:168-178 | One entry with this device's id, the time and the given fields is appended to the log. |
| SyncStatus.SyncStatusManager.LogSyncError | app/src/main/java/com/example/mobilereceiptprinter/SyncStatusManager.kt:183-187 | One "ERROR"/0/"FAILED" entry with the message is appended. |
| SyncStatus.SyncStatusManager.GetSyncStats | app/src/main/java/com/example/mobilereceiptprinter/SyncStatusManager.kt:192-209 | The statistics over this device's log, the pending count and the number of connected devices. |
| Devices.RegeneratedIdShape | app/src/main/java/com/example/mobilereceiptprinter/DeviceManager.kt:38-43 | A regenerated id is the Android id, '-', and 8 UUID characters, and it has no '_' when its parts have none. |
| Devices.ResolvedIdStable | app/src/main/java/com/example/mobilereceiptprinter/DeviceManager.kt:34-47 | Once an underscore-free id is stored, every later call returns it unchanged. |
| Devices.DefaultName | app/src/main/java/com/example/mobilereceiptprinter/DeviceManager.kt:55 | The generated name is "MRP Device " followed by the id's last 8 characters (or all of them). |
| Devices.RoleCapabilities | app/src/main/java/com/example/mobilereceiptprinter/DeviceManager.kt:85-96 | A role grants a capability exactly when it is one of the three known roles; only BOTH grants both. |
| Devices.FreshDeviceDefaults | app/src/main/java/com/example/mobilereceiptprinter/DeviceManager.kt:71-103 | With no preferences: role BOTH, both capabilities, sync enabled. |
| Devices.DeviceManager.GetDeviceId | app/src/main/java/com/example/mobilereceiptprinter/DeviceManager.kt:34-47 | Returns the resolved id; only a missing or underscore id is regenerated and written back. |
| Devices.DeviceManager.GetDeviceName | app/src/main/java/com/example/mobilereceiptprinter/DeviceManager.kt:52-59 | A stored name is returned with nothing written. Otherwise the default name from the resolved id is generated and written, and so is the id when it was regenerated. |
| Devices.DeviceManager.SetDeviceName | app/src/main/java/com/example/mobilereceiptprinter/DeviceManager.kt:64-66 | The name preference is written. |
| Devices.DeviceManager.GetDeviceRole | app/src/main/java/com/example/mobilereceiptprinter/DeviceManager.kt:71-73 | The stored role, or BOTH when none is stored. |
| Devices.DeviceManager.SetDeviceRole | app/src/main/java/com/example/mobilereceiptprinter/DeviceManager.kt:78-80 | The role is written and read back. |
| Devices.DeviceManager.CanCreateReceipts | app/src/main/java/com/example/mobilereceiptprinter/DeviceManager.kt:85-88 | True exactly when the role is BILLER or BOTH, so a device with no stored role can create receipts. |
| Devices.DeviceManager.CanScanReceipts | app/src/main/java/com/example/mobilereceiptprinter/DeviceManager.kt:93-96 | True exactly when the role is COLLECTOR or BOTH, so a device with no stored role can scan. |
| Devices.DeviceManager.IsSyncEnabled | app/src/main/java/com/example/mobilereceiptprinter/DeviceManager.kt:101-103 | The stored flag, or true when none is stored. |
| Devices.DeviceManager.SetSyncEnabled | app/src/main/java/com/example/mobilereceiptprinter/DeviceManager.kt:108-110 | The flag is written and read back. |
| ReceiptForm.NextReceiptNumber | app/src/main/java/com/example/mobilereceiptprinter/MainActivity.kt:516-520 | A biller with no stored count gets 1; otherwise the count plus one, wrapping to Int.MIN_VALUE after Int.MAX_VALUE. |
| ReceiptForm.NumberingContinues | app/src/main/java/com/example/mobilereceiptprinter/MainActivity.kt:516-527 | When each number is saved as the count before the next is drawn, k successive receipts are numbered c+1, …, c+k. |
| ReceiptForm.NumberingFromZero | app/src/main/java/com/example/mobilereceiptprinter/MainActivity.kt:1488-1493 | A new or reset biller numbers its receipts 1, 2, 3, and so on. |
| ReceiptForm.BillerCounters.SaveBillerData | app/src/main/java/com/example/mobilereceiptprinter/MainActivity.kt:523-529 | The receipt's number becomes the biller's stored count. |
| ReceiptForm.BillerCounters.CreateReceiptNumber | app/src/main/java/com/example/mobilereceiptprinter/MainActivity.kt:722-760 | A non-blank biller draws its next number; a blank one keeps the form's previous number. Either way the number is saved as that biller's count, so a non-blank biller's next draw is that number plus one in 32-bit arithmetic. |
| ReceiptForm.BillerCounters.ResetBiller | app/src/main/java/com/example/mobilereceiptprinter/MainActivity.kt:1488-1493 | The count becomes 0, so the next receipt is number 1. |
| ReceiptForm.Matching | app/src/main/java/com/example/mobilereceiptprinter/MainActivity.kt:804-806 | The filter keeps exactly the suggestions that contain the input ignoring case and differ from it, in list order. |
| ReceiptForm.FilterSuggestions | app/src/main/java/com/example/mobilereceiptprinter/MainActivity.kt:802-814 | Empty for an empty input. Otherwise an order-preserving subsequence of at most 5 offered suggestions, and every offered one appears when fewer than 5 do. |
| ReceiptForm.PopupShownIff | app/src/main/java/com/example/mobilereceiptprinter/MainActivity.kt:845-874 | The popup (flag and non-empty list) shows exactly when the input is non-empty and some suggestion is offered for it. |
| ReceiptForm.ShowSuggestions | app/src/main/java/com/example/mobilereceiptprinter/MainActivity.kt:845-847 | The flag is raised only for a non-empty input and a non-empty list, and when it stays down no suggestion is offered. |
| ReceiptForm.ExactInputOffersNothing | app/src/main/java/com/example/mobilereceiptprinter/MainActivity.kt:845-847 | Typing a suggestion exactly raises the flag but offers nothing. |
| ReceiptForm.FilterAmount | app/src/main/java/com/example/mobilereceiptprinter/MainActivity.kt:895 | The filtered amount is a subsequence of the typed text made only of digits and '.'. |
| ReceiptForm.FilterAmountKeepsAccepted | app/src/main/java/com/example/mobilereceiptprinter/MainActivity.kt:895 | Text already made of digits and '.' passes unchanged. |
| ReceiptForm.FilterAmountAppend | app/src/main/java/com/example/mobilereceiptprinter/MainActivity.kt:895 | The filter distributes over concatenation: it works character by character. |
| ReceiptForm.FilterAmountIdempotent | app/src/main/java/com/example/mobilereceiptprinter/MainActivity.kt:895 | Filtering twice is filtering once. |
| ReceiptForm.FilteredAmountBlankIffEmpty | app/src/main/java/com/example/mobilereceiptprinter/MainActivity.kt:895-905 | A filtered amount is blank exactly when it is empty. |
| ReceiptForm.IsFormValid | app/src/main/java/com/example/mobilereceiptprinter/MainActivity.kt:903-905 | The form is valid exactly when biller, volunteer and amount each hold a non-whitespace character. |
| ReceiptForm.ValidFormWithFilteredAmount | app/src/main/java/com/example/mobilereceiptprinter/MainActivity.kt:903-905 | The form is valid exactly when biller and volunteer are non-blank and the filtered amount is non-empty. |

## Left out

- Network I/O is not modelled: the mDNS platform calls, that deliver the discovery and resolve callbacks, the server socket accept loop, sockets, timeouts and coroutine scopes. The callbacks' own effects are modelled as methods of the helper (OnDiscoveryStarted, OnStartDiscoveryFailed, OnDiscoveryStopped, OnServiceResolved, OnServiceLost, OnServiceRegistered, OnRegistrationFailed, OnServiceUnregistered); the order in which the platform calls them is not. Each peer's exchange is an `Exchange` parameter (failed, no reply, or a payload).
- The platform side of `initialize`, `registerService` and `cleanup` is left out: starting the server socket, publishing and unpublishing the service, closing the socket and cancelling the coroutine scope. Their effects on the helper's state are modelled: the network status and registration flag they and their listeners set, and cleanup's stopDiscovery. `updateNetworkStatus` is modelled as the assignment of the network status in the methods that call it.
- Discovery.DeviceDiscoveryHelper.Initialize does not model an exception thrown while registerService builds the service info, the one path to initialize's SYNC_ERROR catch, because the modelled device manager calls are total.
- `getDeviceInfo` and the discovery auto-stop timer are left out. The first only builds a record from the device manager; the second is a delayed coroutine that calls stopDiscovery.
- The fractional `progress` Float of `SyncProgress`, the biller `total_amount`, and the other floating-point UI values are left out.
- Discovery.DeviceDiscoveryHelper.SyncWithAllDevices: the outer `catch` that turns an unexpected exception into an error result is not modelled. Every modelled step is total. The per-peer catch is the `Failed` exchange.
- Discovery.DeviceDiscoveryHelper.SyncWithAllDevices: one clock reading `now` stands for every `System.currentTimeMillis()` in the call. That covers the request timestamps, each peer's result time and the log entry.
- org.json is modelled with strict types. A getter accepts only a value of its own type, so the library's coercions, such as a numeric string read by `getInt`, are not captured.
- Records.ParseReceipt reads an absent or null field as a parse error, which yields ERROR. The library's distinction between null and missing is not modelled.
- Records.Table.All returns rows in insertion order, and Records.ReceiptsJson builds the request's receipts array in that order. The source's `getAllReceipts` orders by id, descending (ReceiptDao.kt:20). No outcome depends on this: the receiver merges each element under its own id, and the elements of one table have distinct ids, so the final store and the counts are the same in either order.
- The collection DAO is not part of this model, so the order of `getAllCollections` is taken to be insertion order as well.
- Room DAO queries other than these are modelled as the SQL their names describe. The DAO bodies of `getCollectionsByReceiptId`, `updateCollectionStatus` and `updateCollectionStatusWithTimestamp` are not part of this model. The last is taken to set `isCollected` and `lastModified` and nothing else.
- Scanner.ScannerViewModel.MarkReceiptAsCollected requires the new collection id to be absent from the table, because the source draws it as a fresh UUID. The exception an insert with a clashing id would raise is not modelled.
- Scanner.ScannerViewModel.ProcessScan: the "Scan Error" branch is not modelled, because none of the modelled store reads can throw. The "Could not extract receipt ID" branch is not modelled either, because a payload that validates always yields an id.
- Scanner.ScannerViewModel.ProcessScan: one time text stands for both `getCurrentTimestamp()` and the collection's formatted time. The collection's `lastModified` default is taken to be the same `now`.
- The `isScanning` flag is modelled by its value after the call, which is false. The interval in which it is true is not modelled.
- QrCode.GenerateHash: the SHA-256 digest is a parameter (32 bytes). The hash function itself is not modelled.
- String lengths and slices count Dafny characters, not UTF-16 code units. This covers QrCode.JavaHashCode, `take(20)` in Scanner.Shortened, `takeLast(8)` in Devices.DefaultName and the length in QrCode.StoreData. The two differ only for characters outside the Basic Multilingual Plane.
- QrCode.StoreData, QrCode.GenerateThermalPrinterQR and QrCode.GenerateThermalPrinterQRWithNumber require `|qrContent| + 3 < 0xD800 * 256`. Above that, Kotlin's `toChar()` of the length's high byte would be a surrogate code unit, which a Dafny character cannot hold.
- The ZXing bitmap generation `generateQRBitmap` is left out: it is a third-party image library.
- Strings.ToLower folds ASCII letters only. `contains(ignoreCase = true)` also folds other Unicode letters.
- ReceiptForm.AmountChar accepts ASCII digits only. Kotlin's `Char.isDigit()` also accepts other Unicode decimal digits.
- Strings.IsWhitespace lists the Java and Unicode space characters explicitly.
- The memoisation of the filtered suggestions is not modelled; the filter is recomputed from the current list. The source keys the memo on the list size, so it can show stale suggestions when the contents change but the size does not.
- The preferences file `biller_<name>` is modelled as a map entry keyed by the biller name.
- DeviceManager reads `Build.MODEL` without using it; that read is left out.
- Discovery.DeviceDiscoveryHelper and SyncStatus.SyncStatusManager take the device id and name as constants, fixed for the object's lifetime, instead of calling the device manager each time.
- The launched recomputation in `updatePendingSyncCount` and the launched `logSyncError` are modelled as synchronous effects.

## Behaviour of the code worth knowing

- A lower-version receipt with a later timestamp overwrites the local one, because the timestamp branch is tried whenever the version is not higher (DeviceDiscoveryHelper.kt:497-508; Merge.LowerVersionLaterTimestampWins).
- Merging the same receipt or collection again reports CONFLICT and rewrites the local status, so the merge is not idempotent (DeviceDiscoveryHelper.kt:509-514; Merge.RemergeReceiptConflicts).
- A batch is not atomic: a non-object element throws, the rest of the batch is skipped, and earlier merges stay (DeviceDiscoveryHelper.kt:431-462; Merge.FoldReceiptsAbortedStable).
- A sync request is merged only when it has a "receipts" key; one carrying only collections is answered without merging (DeviceDiscoveryHelper.kt:628-630; Discovery.CollectionsOnlyRequestIgnored).
- With no peers, `syncWithAllDevices` returns a failed result without writing a log entry or changing the last result (DeviceDiscoveryHelper.kt:222-226).
- `initialize` always ends with the network status CONNECTED. `startSyncServer` only launches a coroutine, and `registerService` catches its own exception after reporting SYNC_ERROR, so the CONNECTED at line 126 overwrites that error. The catch at lines 128-131 is reached by neither failure, only by an exception raised while the service info is built, before registerService's own try (DeviceDiscoveryHelper.kt:119-133, 576-596, 641-676; Discovery.DeviceDiscoveryHelper.Initialize).
