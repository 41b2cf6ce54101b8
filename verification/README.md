# condui, verified

A Dafny model of the parts of condui where a mistake is hard to see: the
synchronisation of connections between devices, file operations over SFTP, the
RFB handshake with Apple's key exchange, remote desktop input, and the tunnel
manager. `dafny verify dfyconfig.toml` checks all of it.

## What is proved

**Synchronisation.** `SyncNow` reconciles three copies of a keyed set: the
local database, the blob on the server, and the hashes saved by the last sync.
The code is modelled twice and the two are tied together. `Merge`, `SetHash`
and `SyncNow` follow the code over a mutable database and server, with its
loops, switches and early exits, and with network calls and database statements
that fail.
`SyncProtocol` is the distributed protocol: any number of devices, one server,
arbitrary edits, syncs completed or stopped anywhere, each seen only through
hashes. `SyncNow.App.SyncNow` is proved to take the protocol's step, and
`SyncNow.CallIsEvent` makes every call, failed ones included, an event of the
protocol, so what is proved about all runs holds for the code.

On that basis: the loops are a three-way merge; skipping the merge or the
upload never changes where store and server end; every device converges to the
server's set, item by item to the last writer of the round.

Four of the properties fail for some inputs. For each the exact condition is
proved, and a run or a record that breaks it.

- The repository promises that devices "converge without manual refresh"
  (README.md:160). A merge that deletes a folder clears the connections filed in
  it in the store but not in the merged set, so the device has to upload them in
  a later turn. `Convergence.TwoRoundsExactly`: after a first round, every second
  round converges if and only if the last merge of no device in the first was of
  this kind. `TwoRoundsCanDisagree` is a run from the empty account that needs a
  third round, and `ThreeRoundsConverge` shows that three always suffice.
- A merge that stops at a failed statement is run again by the next sync, on a
  store that is partly merged. A folder deletion, a connection upsert and a
  connection deletion are two statements each, so the stop may also be inside a
  write. `MergeStops` shows that the store is one of `Retry.CutStore` after every
  stop of the loops; `Retry.RetryMerges` and `RetriedSync` say exactly after which
  of them the rerun ends as the uninterrupted merge does; `RetryCanKeep`,
  `TornDeletion`, `TornInsertion` and `TornOverwriting` are records for which it
  does not.
- A sync ends with three separate setting writes. Stopped between them it can
  leave a device that trusts a snapshot it did not save. `SyncProtocol.StopKeeps`
  and `Interrupted.SoundExactly` say after which stops every later sync still
  does what it should, `InvHolds` and `RunSound` the same of whole runs. What
  devices need in order to converge is less: `Aftermath.ConvergesExactly` gives
  the exact condition on the state after any run, whatever its stops.
  `OneStopDiverges` is a run from the empty account after which no number of
  syncs makes two devices agree, and `DivergenceLasts` shows that this state
  lasts exactly until somebody uploads again.
- `HashStableAcrossDevices`: a connection's hash survives the trip between two
  devices if and only if none of its secrets encrypts the empty string, as
  translation turns such a secret into a missing one. `EmptySecretChangesHash`
  shows such a record.

`ChangeDetection` says what the hashes see: a record's hash tells apart all but
the texts of its secrets, a stored row's hash its fields and plaintexts, so that
exactly the edits that are more than a new ciphertext are uploaded and outlive a
deletion elsewhere.

Secrets are symbolic terms: a ciphertext opens under its own key only, and text
is a sequence of characters and ciphertexts.

**SFTP.** `FileTree` is a mutable tree whose every call may work, be refused, or
take effect and lose its reply; it logs each state it passes through. Deletion,
transfer and tree upload are proved on every exit path against it, including
what a lost reply can leave behind.

**VNC.** `Rfb` is the viewer's handshake as a protocol machine together with a
declarative description of the handshakes it accepts; acceptance is proved in
both directions, with exact consumption. `RfbClient` proves the sequential code
equal to the machine. `RfbDuality` runs viewer and host against each other byte
by byte under every interleaving. `Ard` covers the arithmetic and the
credential block of security type 30, and `RfbBytes` spells out the numbers and
bytes: versions, security types, key bits, key exchange message.

**Remote desktop input.** `RdpInput` is the browser side, `RdpSession` the
session that replays its batches. Coalescing is proved to change nothing the
session or the remote side can tell afterwards, for every order in which a
release walks the map of held keys. Every key held belongs to a key that is
down; `DownIsHeld` says exactly when the converse holds as well.

**Tunnels.** `Tunnels` proves the manager's invariant over every run of calls,
and that a listener is lost exactly when a tunnel that is on is switched on
again on a port the system grants.

## Hypotheses

All devices of the run results hold the same account key and stay on the pro
tier, every secret opens and none is sealed around the empty string
(`MergeView.RowGood`, `MergeView.WireGood`), ids are unique, and each `SyncNow`, completed or stopped, is
one atomic step. The results of `Convergence` are about runs whose stops are safe
in the sense of `StopKeeps`, those of `Aftermath` and `Interrupted` about all
runs. The server gives every upload a version higher than the last, and its
description of a missing blob is an empty record rather than none, as the
client's decoding makes it (ssh-gui/backend/account/client.go:136-140).

## Model

| member | source | states |
|---|---|---|
| Vault.FieldRoundTrip | ssh-gui/backend/account/crypto.go:65-115 | A sealed field opens to its plaintext under its own key and under no other. |
| Vault.DecryptFromSyncLoop | ssh-gui/vault.go:85-102 | The loop over candidate keys returns the first opening, skips missing keys, and otherwise reports the last failure, or that there was no key at all. |
| Vault.SyncRoundTrip | ssh-gui/vault.go:73-107 | A sync secret opens to what was sealed exactly when its key is among the candidates, at any position. |
| Vault.VaultRoundTrip | ssh-gui/vault.go:109-138 | Every value printed for the local vault reads back under its key, the empty secret included, no other key opens a non-empty one, and none is taken for a sync secret. |
| Vault.OpeningIsUnique | ssh-gui/vault.go:85-102 | A value that opens under one key opens to the same text through every candidate list holding that key. |
| Vault.PrintedForms | ssh-gui/vault.go:66-118 | Vault values start with enc: and sync values with sync:, followed by nonce, colon and ciphertext; the empty secret prints as nothing. |
| Vault.OlderForms | ssh-gui/vault.go:120-138 | A bare ciphertext from before the prefix opens under its key, plain text is itself, and a nonce with nothing behind it is damaged. |
| HashStability.SealedSecret | ssh-gui/app_account.go:885-907 | Preparing one secret that opens keeps its plaintext, sealed under the sync key, whatever form the field had: local ciphertext, plain text, sealed already, or missing. |
| Envelope.PendingTravels | ssh-gui/app_account.go:813-816 | A secret whose key is elsewhere travels unchanged, is marked in the digest, and stays as it is on a device without the key. |
| Envelope.SealedUnderOwnNonce | ssh-gui/app_account.go:881-912 | Each field sealed for upload carries the nonce drawn for it. |
| Envelope.TranslatedUnderOwnNonce | ssh-gui/app_account.go:938-968 | So does each field sealed again for the local vault. |
| Envelope.MissingMeans | ssh-gui/backend/models/connection.go:67-79 | A record without a protocol is SSH, four protocols are valid, SSH is on by its switch or else by the protocol, and a record without VNC or RDP is uploaded with that access off and empty. |
| Envelope.PrepareFields | ssh-gui/app_account.go:881-930 | The loop seals the fields in order, each under its own nonce, and digests their plaintexts under the sync key, pending marks included only when something is pending; it fails with the first field that does not open. |
| Envelope.ReencryptConnectionsForSync | ssh-gui/app_account.go:864-936 | Every connection is prepared in place of its original, or the call fails with the failure of the first one that is not. |
| HashStability.PreparedHash | ssh-gui/app_account.go:792-805 | The hash of a prepared connection depends on no nonce. |
| HashStability.SecretTransport | ssh-gui/app_account.go:810-827 | A local secret sealed for sync and translated into another vault reads back with the same plaintext for every candidate list holding the sync key at any position; without it the sealed value is kept untouched. |
| HashStability.TranslatedSecret | ssh-gui/app_account.go:938-955 | Translating a sealed secret keeps its plaintext, except that an empty one disappears. |
| HashStability.PreparedIsWire | ssh-gui/app_account.go:864-936 | Preparing a stored connection whose secrets open succeeds and yields a record sealed under the sync key alone, with the same id and the digest of the same plaintexts. |
| HashStability.StoredWire | ssh-gui/app_account.go:957-968 | Storing a downloaded connection over any previous row gives a row that opens on this device and whose hash differs from the wire hash only where a plaintext was empty. |
| HashStability.HashStableAcrossDevices | ssh-gui/app_account.go:792-968 | Prepared on A, translated and stored on B and prepared there again, for all vault keys, nonces, candidate lists and previous rows: the hash is the same if and only if no secret encrypts the empty string. |
| ChangeDetection.HashTellsApart | ssh-gui/app_account.go:792-805 | Two records have the same hash if and only if they agree in every field but the texts of their secrets. |
| ChangeDetection.RowHashTellsApart | ssh-gui/app_account.go:792-936 | Two stored rows have the same hash if and only if they agree in every field but the texts of their secrets and in every plaintext, a secret that waits for its key counting as its own text. |
| ChangeDetection.EditIsSeen | ssh-gui/app_account.go:255-262 | On a device whose set hash is that of its records, an edit of a record makes the sync upload if and only if it is more than a new ciphertext. |
| ChangeDetection.EditReachesServer | ssh-gui/app_account.go:253-316 | A completed call then puts the edited record on the server in place of the one synced before, whatever the others did meanwhile. |
| ChangeDetection.EditOutlivesDeletion | ssh-gui/app_account.go:641-648 | A connection deleted remotely goes here if and only if nothing but ciphertexts changed since the snapshot. |
| ChangeDetection.OldSnapshotDeletes | ssh-gui/app_account.go:622-626 | A snapshot that keeps the connection under its bare id still lets the deletion through. |
| Models.FingerprintInjective | ssh-gui/app_account.go:765-781 | Equal set hashes mean equal sets (digests taken as the canonical record they digest). |
| Storage.SortIsOrdered | ssh-gui/backend/storage/tunnels.go:12-41 | Tunnels read back are ordered by local port, none lost or invented. |
| Storage.FreshTunnel | ssh-gui/backend/storage/tunnels.go:43-80 | A tunnel without an id is stored under the one drawn for it, switched off, owned by the connection and leading where it led. |
| Storage.Database.DeleteConnection | ssh-gui/backend/storage/delete_connection.go:3-20 | Two statements, the tunnels and then the row; a failure leaves the row as it was or without its tunnels. |
| HashStability.WrittenBack | ssh-gui/backend/storage/upsert_connection.go:5-86 | Writing a row back as it was read changes nothing. |
| HashStability.LeftOutIsKept | ssh-gui/backend/storage/upsert_connection.go:41-82 | Leaving VNC, RDP and tunnels out of a record has the same effect as sending them back as they were stored. |
| HashStability.StoredForm | ssh-gui/backend/storage/upsert_connection.go:5-86 | Over any earlier row an upsert leaves one in good form: its own id, tunnels with ids, owner and order, none active. |
| Storage.NothingFiledIn | ssh-gui/backend/storage/delete_folder.go:3-27 | Deleting a folder leaves no row filed in it, keeps every row, changes nothing but the folder field, and that only in rows that were filed there. |
| Merge.Index | ssh-gui/app_account.go:592-615 | The order lists every non-empty id of either side once, and the two indexes hold the last record of each id. |
| Merge.MergeRemoteFolders | ssh-gui/app_account.go:531-590 | The loop over the database visits each folder id once, in that order, and leaves database and result as the fold of the switch says, up to the first statement that fails, which may be the second of a deletion. |
| Merge.MergeOneConnection | ssh-gui/app_account.go:619-662 | One pass writes, deletes or keeps the row, and appends to the result, as the case of the switch requires, stopping on a refused record or a failed statement, which may leave the first of two statements done. |
| Merge.MergeRemoteConnections | ssh-gui/app_account.go:592-666 | The loop visits each connection id once and stops at the first refused record or failed statement, leaving what the passes before it did and at most half of one more. |
| MergeMeaning.KeptFolderHash | ssh-gui/app_account.go:680-690 | The folder the switch keeps has the hash of the three-way merge, absence being a value. |
| MergeMeaning.KeptConnectionHash | ssh-gui/app_account.go:668-678 | So has the connection it keeps, for every local, remote and previous copy. |
| MergeMeaning.FolderLoop | ssh-gui/app_account.go:555-589 | After the folder loop, store and result hold for every id the merged folder, and nothing else moved. |
| MergeMeaning.FolderLoopRows | ssh-gui/app_account.go:571-576 | The folder loop clears exactly the connections filed in a folder it deletes. |
| MergeMeaning.VisitMeaning | ssh-gui/app_account.go:627-662 | One pass changes only its own row, to the translated remote copy, the kept local one or none, and appends exactly the kept copy. |
| MergeMeaning.ConnectionLoop | ssh-gui/app_account.go:617-665 | The connection loop returns for every id the merged connection, and none for other ids. |
| MergeMeaning.ConnectionLoopRows | ssh-gui/app_account.go:617-665 | Every row of the store ends as the merge of its own three copies asks, whatever came before it in the order. |
| MergeMeaning.LoopTranslates | ssh-gui/app_account.go:617-662 | Every row that was not there before is a record of one side translated with all candidate keys of the call. |
| MergeMeaning.ConnectionsMergedOnce | ssh-gui/app_account.go:617-665 | No id appears twice in the merged connections. |
| MergeMeaning.FoldersMergedOnce | ssh-gui/app_account.go:555-589 | No id appears twice in the merged folders. |
| MergeView.ConnectionView | ssh-gui/app_account.go:627-662 | For one connection, the stored row and the returned record agree once secrets are compared as plaintext, up to a folder cleared by this merge. |
| MergeView.MergeIsThreeWay | ssh-gui/app_account.go:531-666 | Both loops together: the returned set is, id by id, remote where local equals the snapshot and local elsewhere; the store is the same but for kept connections cleared out of a deleted folder; every record still opens. |
| MergePrefix.FolderLoopStops | ssh-gui/app_account.go:555-589 | The store between any two turns of the folder loop, and between the two statements of a folder deletion, is the half-merged store of Retry. |
| MergePrefix.PrefixIsHalfMerged | ssh-gui/app_account.go:617-663 | So is the store after any number of turns of the connection loop. |
| MergeStops.HalfRowView | ssh-gui/app_account.go:627-662 | The first of the two statements of a turn leaves the record torn: a deletion has taken its tunnels only, an overwriting or insertion has brought everything but the tunnels; the row stays readable. |
| MergeStops.FolderTurnStops | ssh-gui/app_account.go:555-589 | A folder loop broken off in any turn, between the two statements of a deletion included, leaves a store of Retry, in good form. |
| MergeStops.ConnectionTurnStops | ssh-gui/app_account.go:617-663 | A connection loop broken off in any turn, between the two statements of an upsert or a deletion included, leaves a store of Retry, in good form, with at most one torn connection. |
| SyncProtocol.MetaChanges | ssh-gui/app_account.go:746-754 | The remote side counts as changed if and only if its description differs from the saved one in version, checksum or presence. |
| SyncProtocol.StoreAgreement | ssh-gui/app_account.go:571-576 | The merge leaves the store equal to the merged set if and only if no kept connection is filed in a folder it deletes. |
| SyncProtocol.SyncOutcome | ssh-gui/app_account.go:253-316 | Shortcut soundness: whatever is skipped, device and server end as if the device had merged and uploaded, recording exactly the server's set, and the server's version grows just when its blob changes. |
| SyncProtocol.StopKeeps | ssh-gui/app_account.go:276-316 | A sync stopped among its three setting writes, in either of the two orders, keeps the invariant if and only if the stop is safe: nothing or all three saved; in between, an upload must have been an empty one to an empty account, and a download must have saved the set hash or brought nothing new. |
| SyncProtocol.InvStep | ssh-gui/app_account.go:253-316 | Every edit and every completed sync keeps the invariant of all devices, and a stopped sync does if and only if its stop is safe. |
| SyncProtocol.InvHolds | ssh-gui/app_account.go:746-763 | At every moment of a run of any number of devices saved meta equal to the server's means snapshot equals server set, and a saved set hash is the snapshot's, if and only if every stop of the run is safe. |
| Convergence.ThreeRoundsConverge | ssh-gui/app_account.go:204-319 | After any run whose stops are safe, three rounds of syncs in any order make every store equal to the server's set, whatever folders the merges delete. |
| Convergence.TwoRoundsConverge | ssh-gui/app_account.go:204-319 | Two rounds are enough when the last merge of no device in the first deletes a folder a kept connection points to. |
| Convergence.TwoRoundsExactly | ssh-gui/app_account.go:204-319 | For two or more devices and any first round, every second round converges if and only if the last merge of no device in the first deletes a folder a kept connection points to. |
| Convergence.StoryBegins | ssh-gui/app_account.go:571-576 | From the empty account, a run without stops in which two devices share a filed connection, one deletes the folder and the other edits the connection, reaches the state written out. |
| Convergence.TwoRoundsCanDisagree | ssh-gui/app_account.go:571-576 | That run followed by two rounds leaves the two stores different, for every pair of versions of the connection: the deletion cleared a kept connection in the store only. |
| Convergence.ConvergedIsFinal | ssh-gui/app_account.go:264-266 | Once converged, no order of syncs changes a store, a setting or the server. |
| Convergence.TurnServer | ssh-gui/app_account.go:592-690 | One sync overwrites on the server exactly the items its device changed since its snapshot, deletions included. |
| Convergence.ConvergesToLastWriter | ssh-gui/app_account.go:204-319 | The set all devices agree on holds, item by item, the copy of the last device of the round that had changed it. |
| Aftermath.ConvergesExactly | ssh-gui/app_account.go:204-319 | After any run of two or more devices, whatever its stops: the devices converge within three rounds of the last edit, whatever is edited and synced in between, if and only if every saved set hash is that of the saved snapshot, and no device takes a snapshot that is not the server's set for current, unless some device has yet to save its first set hash. |
| Aftermath.StopSettles | ssh-gui/app_account.go:276-316 | From a state in order, a stop among the setting writes keeps that condition if and only if it is safe, or it fell right after the description of an upload while some device has yet to save its first set hash. |
| Retry.HalfMergedEnds | ssh-gui/app_account.go:555-663 | Stopping before the first id is the old store, after the last the merged one. |
| Retry.RetryMerges | ssh-gui/app_account.go:555-663 | Rerunning the merge after stopping anywhere, inside a write included, gives the uninterrupted set if and only if every connection already cleared out of a deleted folder is one the remote side cleared too or is decided the same either way, and the torn connection is harmless: deleted with no tunnels and not cleared, inserted with none, or overwritten with the same tunnels or nothing but other tunnels. |
| Retry.RetriedSync | ssh-gui/app_account.go:204-319 | The same of whole calls: the sync after a broken-off one puts on the server what that one would have put there, under just that condition. |
| Retry.TornDeletion | ssh-gui/backend/storage/delete_connection.go:3-20 | A connection with a tunnel, deleted remotely: stopped inside its deletion, the rerun keeps it, without the tunnel. |
| Retry.TornInsertion | ssh-gui/backend/storage/upsert_connection.go:18-85 | A new remote connection with a tunnel: stopped inside its insertion, the set of the rerun has lost the tunnel. |
| Retry.TornOverwriting | ssh-gui/backend/storage/upsert_connection.go:18-85 | A connection renamed and given a tunnel remotely: stopped inside its overwriting, the rerun keeps the name and loses the tunnel. |
| Retry.RetryCanKeep | ssh-gui/app_account.go:571-576 | When connection and folder were both deleted remotely, a rerun after the folder loop keeps the connection that the uninterrupted merge deletes. |
| Retry.RetryStores | ssh-gui/app_account.go:555-663 | When the merge deletes no folder in use and the torn connection, if any, is harmless, the retried merge gives the same set and the same store; in particular it is idempotent. |
| Interrupted.SoundExactly | ssh-gui/app_account.go:276-316 | After a stop among the setting writes, every later sync, whatever is edited here or uploaded elsewhere meanwhile, does what a sync promises if and only if the stop was safe. |
| Interrupted.RunSound | ssh-gui/app_account.go:204-319 | In a run, every sync at every moment does what it promises if and only if all stops of the run are safe. |
| Interrupted.StaleSnapshotDiverges | ssh-gui/app_account.go:305-316 | A set hash saved without its snapshot, and then a remote change to an item the device had uploaded: the next sync leaves the device believing it is up to date while its set differs from the server's. |
| Interrupted.OneStopDiverges | ssh-gui/app_account.go:305-316 | From the empty account, one stop before the snapshot is written leads to such a state, and no sequence of syncs of the two devices changes anything any more. |
| Interrupted.DivergenceLasts | ssh-gui/app_account.go:253-316 | The divergence lasts exactly until the next upload: before it no sync of anyone changes the diverged device, and the first upload brings the invariant of all devices back. |
| Interrupted.OwnEditReplaces | ssh-gui/app_account.go:288-316 | A local edit ends it too, at a price: the device's own set replaces the server's, changes of the others included. |
| SetHash.SetHashMeaning | ssh-gui/app_account.go:765-781 | The set hash is that of the multiset of entries, so it identifies the set the two lists hold, whatever their order. |
| SortedEntries.SortedHashesDecide | ssh-gui/app_account.go:765-781 | The sorted lists of printed entries of two sets are equal if and only if their set hashes are, for every digest that tells records apart and prints no colon; ids may hold any characters. |
| SortedEntries.CollectHashes | ssh-gui/app_account.go:765-778 | The two loops and the sort compute that list of printed entries, skipping empty ids. |
| SetHash.SyncSetHash | ssh-gui/app_account.go:765-781 | The two loops collect the hashed entries, skipping empty ids. |
| SetHash.SyncSnapshot | ssh-gui/app_account.go:704-721 | The snapshot records one hash per non-empty id, connections and folders apart. |
| SetHash.ItemsOfMeaning | ssh-gui/app_account.go:704-721 | What the snapshot records is exactly the set the two lists hold. |
| SyncNow.LoopsMerge | ssh-gui/app_account.go:504-512 | The two loops, run on the store to the end, return the three-way merge and leave the store as the protocol says, refusing nothing. |
| SyncNow.App.LoadPrepared | ssh-gui/app_account.go:224-244 | It fails if and only if some local secret of some record does not open; for a store in good form (every secret opens, none is sealed around the empty string) every record is listed once, prepared, with the hash the store shows. |
| SyncNow.App.MergeRemoteSyncData | ssh-gui/app_account.go:485-512 | A missing blob leaves everything alone; otherwise database and result become the merge of the two sides, or a failed statement leaves the database as a merge stopped there does. |
| SyncNow.App.SaveDownloaded | ssh-gui/app_account.go:276-286 | After a download the snapshot, the set hash, the description and the time are written in this order, up to the first write that fails. |
| SyncNow.App.SaveUploaded | ssh-gui/app_account.go:305-318 | After an upload the description, the set hash, the snapshot and the time are written in this order, up to the first write that fails. |
| SyncNow.App.Reconcile | ssh-gui/app_account.go:254-274 | The two change checks pick skipping, merging or uploading as the protocol step does. |
| SyncNow.App.Conclude | ssh-gui/app_account.go:276-318 | Uploading replaces the blob and then writes the settings; a failed upload or a lost answer saves none of them, and a failed write saves exactly those before it. |
| SyncNow.App.SyncPro | ssh-gui/app_account.go:253-318 | On the pro tier the database and the server go exactly where the protocol sends them: the step on success, the step stopped after the settings already written when such a write fails, a stopped merge when a statement of the merge fails, and no setting saved on any failure but the second. |
| SyncNow.App.SyncCapped | ssh-gui/app_account.go:288-318 | On another tier the capped list is uploaded unmerged, and only the snapshot is saved, unless that write fails. |
| SyncNow.App.SyncNow | ssh-gui/app_account.go:204-319 | A locked vault, a missing login, a failed account set-up or read and a missing key end the call with nothing changed, and only they give those errors; otherwise a whole pro call takes the step of the protocol, or the part of it before the call, statement or setting write that failed; uploads are sealed under the account key and under the vault key only when there is none; what is new here was translated with both keys; and undisturbed it completes. |
| SyncNow.App.BothKeysOpen | ssh-gui/app.go:305-318 | A device with both keys tries the account key first and opens what was sealed under either. |
| SyncNow.CallIsEvent | ssh-gui/app_account.go:204-319 | Every call, completed, failed outside, broken off in the merge or stopped at any setting write, is one event of the protocol, so the results about all runs cover it. |
| SftpDelete.RemoveEmptied | ssh-gui/backend/sftp/delete.go:79-89 | Removing a directory whose entries have all been deleted removes exactly the subtree it had and reports one more entry, or leaves it in place, or removed it with the reply lost. |
| SftpDelete.WithoutAll | ssh-gui/backend/sftp/delete.go:79-86 | Once the subtrees of all its entries are gone, a directory is empty. |
| SftpDelete.SubtreeRemoved | ssh-gui/backend/sftp/delete.go:61-89 | Removing a whole subtree leaves every remaining entry inside a directory. |
| SftpDelete.CountDeleteEntries | ssh-gui/backend/sftp/delete.go:38-59 | The count is the size of the subtree; it fails only on a missing path or a failed call. |
| SftpDelete.DeleteEntry | ssh-gui/backend/sftp/delete.go:61-89 | Success removes exactly the subtree, counting each entry; every state passed through is closed under parents and differs only below the path; a failure has counted what it removed, but for one removal whose reply was lost. |
| SftpDelete.DeleteFileWithProgress | ssh-gui/backend/sftp/delete.go:14-36 | As for DeleteEntry, and success ends with completed equal to total; on every exit without a lost reply completed is the number of entries removed. |
| SftpDelete.Progress.Removed | ssh-gui/app_sftp.go:143-160 | Every report is made when the completed count equals the number of entries gone from the tree, and the percentages sent are strictly increasing and within 0..99. |
| SftpDelete.PercentGrows | ssh-gui/app_sftp.go:144-149 | More completed entries never lower the percentage, which stays below 100 even when the tree grew. |
| SftpDelete.PercentIs | ssh-gui/app_sftp.go:144-149 | The percentage is the whole percents done, up to 98. |
| SftpDelete.PercentReads | ssh-gui/app_sftp.go:144-149 | Half the entries gone reads 50, none 0 and all 99. |
| SftpTransfer.CopyChunks | ssh-gui/backend/sftp/upload.go:55-57 | The copy leaves the full content, or stops on the first cancellation, read or write failure; only the temporary file changes. |
| SftpTransfer.TempForm | ssh-gui/backend/sftp/upload.go:36-36 | The temporary file is the hidden .name.suffix.part beside the destination. |
| SftpTransfer.CopyAndCommit | ssh-gui/backend/sftp/upload.go:41-75 | At every step the destination holds its old entry or the full content; success is the commit; a destination that may not be replaced is kept; a temporary file left behind is always reported, and a failed cleanup is reported exactly when removing the file, the last call, failed. |
| SftpTransfer.UploadFile | ssh-gui/backend/sftp/upload.go:15-76 | The commit protocol on every exit path, no change for a source that is not a regular file, failure with the old file kept when the server cannot replace atomically and the destination exists, and success whenever nothing stands in the way; a new temporary file stays behind unreported if and only if the call that created it lost its reply. |
| SftpTransfer.DownloadFile | ssh-gui/backend/sftp/download.go:14-67 | The same protocol on the local disk. |
| SftpTransfer.SuccessIsCommit | ssh-gui/backend/sftp/upload.go:64-75 | With no reply lost, nil is returned exactly when the destination holds the new content, and a failure that reports no cleanup error leaves the file system as it was. |
| SftpTransfer.LostCreation | ssh-gui/backend/sftp/upload.go:36-40 | When the creation takes effect and its reply is lost, the empty temporary file stays and nothing is said about it. |
| SftpTree.MirrorKeeps | ssh-gui/app_sftp_upload.go:48-52 | The mirror of a directory holds the mirror of each of its entries, later ones overwriting none. |
| SftpTree.UploadEntries | ssh-gui/app_sftp_upload.go:48-53 | The loop puts every entry in place, stops at the first failure, and fails only for a reason. |
| SftpTree.UploadLocalPath | ssh-gui/app_sftp_upload.go:11-54 | Success means the whole tree consisted of readable files and directories and stands remotely with equal contents, everything else unchanged but for missing directories above; a link or special file makes it fail; a failure changes nothing that stood outside the target; and with room, undisturbed sources and no failed call it succeeds. |
| Ard.FillRoundTrip | ssh-gui/backend/vnc/ard.go:49-50 | A number that fits is read back from its big-endian bytes unchanged. |
| Ard.SharedAgree | ssh-gui/backend/vnc/ard.go:49-50 | Both ends of the exchange compute the same shared value. |
| Ard.AcceptableOffers | ssh-gui/backend/vnc/ard.go:39-43 | An offer is accepted if and only if the prime is odd and has at least 512 bits and neither number is 0, 1 or -1 modulo it. |
| Ard.ExponentAndSizes | ssh-gui/backend/vnc/ard.go:36-50 | For every accepted offer the private exponent lies in [2, p-2] and both numbers fit in the announced length. |
| Ard.FieldSplits | ssh-gui/backend/vnc/ard.go:59-66 | Splitting a half of the block at its first NUL returns the text if and only if it has no NUL. |
| Ard.FillCredentials | ssh-gui/backend/vnc/ard.go:59-66 | The buffer filled in place holds both fields, each ended by a NUL, over the random filler. |
| Ard.EncryptInPlace | ssh-gui/backend/vnc/ard.go:68-70 | The loop over blocks encrypts the buffer sixteen bytes at a time. |
| Ard.BlocksRoundTrip | ssh-gui/backend/vnc/ard.go:68-70 | Decrypting the blocks returns the buffer. |
| Ard.Respond | ssh-gui/backend/vnc/ard.go:44-73 | The reply is the encrypted block followed by the public value. |
| Ard.ServerOpensCredentials | ssh-gui/backend/vnc/ard.go:36-73 | A server holding the exponent of its public value derives the same shared value from the reply, opens the block and reads exactly the username and the password, if and only if neither holds a NUL. |
| RfbBytes.VersionsAgreed | ssh-gui/backend/vnc/rfb.go:50-64 | Greetings 3.3 and 3.6 are answered with 3.3, 3.7 with 3.7, 3.8 and those of the known vendors with 3.8, byte by byte, and no other is answered. |
| RfbBytes.SecurityNumbers | ssh-gui/backend/vnc/rfb.go:84-99 | The choice in numbers: 30 with a username, else 2, else 1 without a password, else none. |
| RfbBytes.TypesLead | ssh-gui/backend/vnc/rfb.go:117-147 | Where types 1, 2 and 30 lead, by version and credentials. |
| RfbBytes.BitsReversed | ssh-gui/backend/vnc/rfb.go:133-135 | The eight bits of a key byte come out in the opposite order. |
| RfbBytes.KeyBits | ssh-gui/backend/vnc/rfb.go:131-135 | Each of the first eight password bytes gives its key byte bit by bit; missing ones are zero. |
| RfbBytes.ServerFindsChallenge | ssh-gui/backend/vnc/rfb.go:136-143 | A server that knows the password undoes each half of the answer and finds its challenge. |
| RfbBytes.OfferOnTheWire | ssh-gui/backend/vnc/ard.go:28-38 | The message is two bytes of generator, two of length, the prime and the server's value, big-endian. |
| RfbBytes.KeyLengths | ssh-gui/backend/vnc/ard.go:28-31 | Key lengths from 64 to 512 bytes are accepted and no other. |
| RfbBytes.EveryExponentDrawn | ssh-gui/backend/vnc/ard.go:44-48 | Every exponent from 2 to p-2 is drawn by exactly one value below the bound. |
| RfbBytes.FillerStays | ssh-gui/backend/vnc/ard.go:59-66 | Text, NUL and filler stand at their positions. |
| Rfb.HandshakeAccepted | ssh-gui/backend/vnc/rfb.go:45-157 | Every proper handshake followed by any bytes is accepted, read to its end and no further, and answered with the proper reply (sections 7.1.1 to 7.1.3, 7.2.2 and Appendix A of RFC 6143, and security type 30). |
| Rfb.OnlyHandshakesAccepted | ssh-gui/backend/vnc/rfb.go:45-157 | And nothing else is accepted: every success has read exactly one proper handshake. |
| RfbClient.ChooseSecurity | ssh-gui/backend/vnc/rfb.go:84-99 | The selection loop is the declarative choice: 30 if and only if there is a username, else 2 if offered, else 1 only with an empty password. |
| RfbClient.FillDesKey | ssh-gui/backend/vnc/rfb.go:131-135 | The key buffer holds the first eight password bytes, zero-padded, each with its bits reversed. |
| RfbClient.AuthenticateARD | ssh-gui/backend/vnc/ard.go:17-78 | The exchange reads its header and parameters, refuses unacceptable ones, and writes its reply, as the protocol machine does. |
| RfbClient.Authenticate | ssh-gui/backend/vnc/rfb.go:45-157 | The sequential code succeeds only as the machine does, with exactly its bytes read and written, and fails only on a failed write or where the machine fails. |
| RfbDuality.ViewerHandshake | ssh-gui/backend/vnc/rfb.go:161-187 | It succeeds only on the greeting and method it expects, with its three messages written and nothing more read, and otherwise fails only for a failed write or other input. |
| RfbDuality.MoveKeeps | ssh-gui/backend/vnc/rfb.go:45-187 | Each byte sent or taken by either side keeps the invariant of the two channels and leaves one byte less to move. |
| RfbDuality.NeverStuck | ssh-gui/backend/vnc/rfb.go:45-187 | A state where neither side can move is the one where both succeeded and both channels are empty. |
| RfbDuality.HandshakesMeet | ssh-gui/backend/vnc/rfb.go:45-187 | With empty credentials, under every interleaving the two handshakes end after the same 62 byte moves, both successful, both channels empty. |
| RdpInput.OthersKept | ssh-gui/frontend/src/components/rdp/rdpInput.js:32-38 | Coalescing keeps all events but moves, in order, and only ever drops events. |
| RdpInput.ReactKeepsBacked | ssh-gui/frontend/src/components/rdp/rdpInput.js:52-90 | A gesture leaves every held key code backed by a key that is down. |
| RdpInput.HeldIsBacked | ssh-gui/frontend/src/components/rdp/rdpInput.js:52-90 | For every sequence of gestures the events are ones the session accepts, and every key code they leave held belongs to a key still in the pressed map. |
| RdpInput.ButtonsHeld | ssh-gui/frontend/src/components/rdp/rdpInput.js:53-63 | A pointer button is held if and only if it is one of the first three and the last gesture that concerns it or releases everything pressed it. |
| RdpInput.KeySends | ssh-gui/frontend/src/components/rdp/rdpInput.js:68-81 | What a key sends: text for a character without modifiers, both units of a pair; else its scan code; nothing while composing, for a dead key or for one it does not know; and its first inputs again while it stays down. |
| RdpInput.Binding.Flush | ssh-gui/frontend/src/components/rdp/rdpInput.js:26-31 | The queue, if any, becomes one more batch, and the queue is empty. |
| RdpInput.Binding.Push | ssh-gui/frontend/src/components/rdp/rdpInput.js:32-38 | The event is queued, or replaces a queued move it follows; just at 128 the queue is sent, and batches never exceed 128. |
| RdpInput.Binding.ReleaseAll | ssh-gui/frontend/src/components/rdp/rdpInput.js:39-39 | The pressed map is emptied and a release ends what is sent. |
| RdpInput.Binding.OnKeyDown | ssh-gui/frontend/src/components/rdp/rdpInput.js:68-81 | A press sends what its key sends, remembered from the first press, and nothing while composing or for a key it does not know. |
| RdpInput.Binding.OnKeyUp | ssh-gui/frontend/src/components/rdp/rdpInput.js:82-88 | A lifted key lets go of exactly what its press sent, whatever the modifiers are by then. |
| RdpInput.Binding.Handle | ssh-gui/frontend/src/components/rdp/rdpInput.js:52-90 | Every gesture is reacted to in full, its events queued or sent, moves coalesced. |
| RdpInput.Binding.Dispose | ssh-gui/frontend/src/components/rdp/rdpInput.js:93-95 | Disposal ends with a release, an empty queue and nothing further sent. |
| RdpSession.ThinReaches | ssh-gui/frontend/src/components/rdp/rdpInput.js:32-38 | A coalesced sequence takes the session to exactly the states the uncoalesced one can reach: held things, pointer, and the order of all actions but moves. |
| RdpSession.HoldsExactly | ssh-gui/app_rdp_input.go:38-87 | From a fresh session the map holds exactly what the events leave held, and the remote side what the map says. |
| RdpSession.Session.Input | ssh-gui/app_rdp_input.go:38-91 | One event is checked, clamped, recorded and sent as specified; a failure leaves map and remote side agreeing but for one thing; a release ends, having let go of everything. |
| RdpSession.Session.SendRDPInput | ssh-gui/app_rdp_input.go:20-37 | A batch over 256 changes nothing; otherwise the events are applied in order up to the first failure. |
| RdpSession.SendChain | ssh-gui/frontend/src/components/rdp/rdpInput.js:29-30 | With an open session and working sends the whole chain of batches of a binding is applied, none refused. |
| RdpSession.BatchesAccepted | ssh-gui/frontend/src/components/rdp/rdpInput.js:32-38 | Every event of every batch a binding sends is one the session accepts. |
| RdpSession.NoStuckKeys | ssh-gui/frontend/src/components/rdp/rdpInput.js:26-97 | Once everything is flushed and sent, each key held in the session belongs to a key still down in the browser, exactly the pointer buttons pressed last are held, left, middle and right under the remote side's numbers, the remote side holds exactly what the map says, the state is the uncoalesced one, and after a release nothing is held. |
| RdpSession.PointerFollows | ssh-gui/frontend/src/components/rdp/rdpInput.js:52-67 | After a pointer gesture on the canvas the remote pointer is where the gesture was; a button adds its press or release, the wheel one notch, -120 for a positive delta, to what was done before, and a move nothing. |
| RdpSession.KeyActs | ssh-gui/app_rdp_input.go:47-61 | A key that sends one event adds that key or character, down or up, and leaves it held or not accordingly. |
| RdpSession.Nearest | ssh-gui/app_rdp_input.go:45-46 | A position on the canvas is sent as it is, one beside it as the nearest. |
| RdpSession.LetGoWhileDown | ssh-gui/frontend/src/components/rdp/rdpInput.js:82-88 | Lifting one of two keys that are down and typed the same character lets go of the character while the other is down. |
| RdpSession.MirroredStep | ssh-gui/frontend/src/components/rdp/rdpInput.js:52-90 | While what is held and what is down agree, a gesture keeps them so if and only if it does not lift a key that shares a character with another key that is down. |
| RdpSession.DownIsHeld | ssh-gui/frontend/src/components/rdp/rdpInput.js:52-90 | The converse of NoStuckKeys: at every moment of a run all keys that are down are held, if and only if no gesture of the run is such a lift. |
| RdpSession.DigitLetGo | ssh-gui/frontend/src/components/rdp/rdpInput.js:68-88 | Both keys for one digit go down and one comes up: the other is still down and the digit is no longer held. |
| Tunnels.Manager.Toggle | ssh-gui/backend/tunnels/manager.go:47-109 | Switching on succeeds exactly when the system grants the port, switching off closes the tunnel's listener and nothing else, and the invariant is kept. |
| Tunnels.Manager.CloseSession | ssh-gui/backend/tunnels/manager.go:113-131 | All and only the tunnels of the session are removed, and with them their listeners. |
| Tunnels.Manager.MarkActive | ssh-gui/backend/tunnels/manager.go:37-43 | Each tunnel is marked active in place just when it has a live listener. |
| Tunnels.StepMeans | ssh-gui/backend/tunnels/manager.go:47-131 | A tunnel switched on listens on the port granted, forwards to the host and port asked for and belongs to its session; switching off takes just it; a session that ends takes its own and no other, and no other loses its listener. |
| Tunnels.StepKeeps | ssh-gui/backend/tunnels/manager.go:47-131 | Every call keeps: equal keys in both maps, a listener of its own on its port for each tunnel, no port bound twice; and it loses track of a listener just when it switches on a tunnel that is on. |
| Tunnels.RunKeeps | ssh-gui/backend/tunnels/manager.go:37-131 | The invariant holds after every run, and every open listener has its tunnel if and only if no call of the run switched on a tunnel that was on already. |

## Left out

- Overlapping `SyncNow` calls, deletion of the blob on the server and tier
  changes during a run: the code has no compare-and-swap or reconciliation for
  them, so they are hypotheses.
- SyncNow.App.SyncCapped: covers one call; nothing is claimed about runs that
  mix it with pro calls, since it saves a snapshot without its set hash.
- SyncNow.App.LoadPrepared: lists the stored records in some order, where the
  code orders connections by name; no result depends on that order, except
  which connections a capped upload keeps.
- SyncNow.App.SyncNow: what refreshing the access token and setting up the
  identity do is not modelled, only that they fail, nor is the older remote
  payload without folders. A statement of the merge fails only from some point on,
  as the call ends at the first failure. Replacing the tunnels of a connection is
  one step, being a transaction.
- Aftermath.ConvergesExactly: speaks of at least two devices; a single one is
  left out.
- Blob encryption: the blob opens with the account key.
- Vault.FieldRoundTrip: AES-GCM is a symbolic term and base64 text typed by hand
  is ordinary text, so a forged or damaged ciphertext, or one with a nonce of
  the wrong length, is simply one that does not open.
- Envelope.PrepareFields: fields are values in a sequence; the code writes
  through pointers into a cloned record.
- Snapshot keys: the prefixes "connection:" and "folder:" and the older bare id
  are three constructors, so an id that itself contains a prefix is not covered.
- Storage.Database.UpsertConnection: tunnel ids drawn for new tunnels are
  assumed not to collide with those of other connections.
- SftpDelete.DeleteFileWithProgress: path.Clean, relative paths and links above
  the deleted path are not modelled; the root stands for the refused paths. The
  tree is changed by no one else during the call.
- SftpTransfer.UploadFile: chunks are written in order, where the client may
  write up to 32 at a time; a partial temporary file is never observable at the
  destination either way.
- SftpTransfer.DownloadFile: CreateTemp's retries over taken names are one
  attempt with a given name; the source's own kind is not checked, as in the
  code.
- SftpTree.UploadLocalPath: the local tree does not change during the upload,
  and cleaning of local paths is reduced to the check of the last name.
- Ard.ServerOpensCredentials: AES and MD5 are functions, AES one that its inverse
  undoes; clearing of buffers is not modelled.
- RfbClient.Authenticate: DES is a function; deadlines, cancellation and the
  frame test of a desktop (ssh-gui/backend/vnc/rfb.go:189-217) are not modelled,
  and error texts are not distinguished.
- RdpInput.Binding.Handle: pointer positions arrive already scaled to the canvas;
  focus, pointer capture and prevented defaults have no model.
- RdpSession.Session.Input: the frame keeps its size while the session lives;
  flags of the transport are reduced to the button, its state and the position.
- RdpSession.NoStuckKeys: speaks of runs whose sends succeed; for a failing send
  the contract of Session.Input says what may differ.
- Tunnels.Manager.Toggle: forwarded connections, their goroutines and the lock
  are not modelled; closing a listener always frees its port.
- Account registration, sharing, terminals, the database explorer, Docker and
  system statistics: plumbing or text with no property of this depth.
