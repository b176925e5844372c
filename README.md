# GCS checkpoint syncer, modelled in Dafny

Hyperlane agents publish signed checkpoints, latest indices, agent metadata,
announcements and reorg flags to an object store. The code modelled here,
`GcsStorageClient` in `rust/main/hyperlane-base/src/types/gcs_storage.rs`,
is the Google Cloud Storage implementation of that syncer contract. It sits on
top of two transport primitives: get object and insert object.

The model has these modules:

- `Naming` (naming.dfy): the constant keys, `get_checkpoint_key`,
  `object_path` with its folder prefix, `validate_bucket_name`,
  `announcement_location`, and the way a reader splits a `gs://` location.
- `Decimal` and `Json` (decimal.dfy, json.dfy): the decimal spelling used in
  checkpoint keys. Also the byte encodings the syncer writes and reads back:
  a JSON number for the `u32` latest index, and a self-delimiting layout for a
  signed checkpoint.
- `ObjectStore` (object_store.dfy): the bucket as a class with
  `var objects: map<string, seq<byte>>`, and the backend failure shapes
  `InvalidName`, `HttpNotFound` and `Other`. A bucket carries its name. A
  client's `inner` is a bucket of its own `bucket` name
  (`GcsStorageClient.Valid`, required of `Build`'s `connected` argument). It
  stands for the `&self.bucket` that every request passes. So clients of
  different bucket names never share objects
  (`SyncerProperties.DistinctBucketsAreDisjoint`). That clients of the same
  name share one `Bucket` object is up to the caller of `Build`. Whatever the network reports on a
  round trip is an explicit `fault` argument that the environment chooses.
- `GcsStorage` (gcs_storage.dfy): the client class with its nine syncer
  operations as methods on the bucket, `build`, and the functions that
  specify the reads and the update.
- `SyncerProperties` (syncer_properties.dfy): lemmas that relate the
  operations to each other. They cover read-after-write, isolation of slots,
  fresh-store absence and monotonicity of the latest index.
- `Types`, `Wrappers`, `Sequences`: stored values, `Option`/`Result`, and a
  first-occurrence search.

The model follows the code as written, including these points where it
departs from the general syncer contract:

- `latest_index` treats an `InvalidName` report as "never written", but
  `fetch_checkpoint` treats it as an error.
- `announcement_location` is built from `gcsAnnouncementKey`, and
  `write_announcement` writes to `announcement.json`. So for a store with
  bucket `test-bucket` and folder `agent1`, the location is
  `gs://test-bucket/agent1/gcsAnnouncementKey`, not
  `.../agent1/announcement.json`. `Naming.LocationIsNotAnnouncementObject`
  proves the two never coincide.
- Only metadata and the announcement are folder-prefixed. Stores that share a
  bucket (that is, are given the same `Bucket` object) but use different
  folders share the latest-index key, the
  checkpoint keys and the reorg flag. Folder isolation therefore holds only
  for the two prefixed slots. For the same slot, `Naming.FolderIsolation`
  shows two folders collide exactly when they agree after trailing '/' are
  trimmed. Across slots, `Naming.CrossSlotIsolation` shows one store's
  metadata object is never another store's announcement object.
- `build` constructs the storage client before it checks the bucket name. A
  client-construction failure is therefore reported even for a bad bucket
  name.
- `reorg_status` always answers "no reorg", whatever was written.
- Monotonicity of the latest index relies on absence reports being truthful:
  `SyncerProperties.SpuriousAbsenceStoresIndex` shows that after a spurious
  404 or invalid-name report, any positive index is stored, whatever the
  bucket held. So a smaller index can overwrite a larger one
  (`SyncerProperties.SpuriousAbsenceLowersIndex`).

## Model

| member | source | states |
|---|---|---|
| `Naming.TrimEndSlashes` | rust/main/hyperlane-base/src/types/gcs_storage.rs:117 | the trimmed folder is a prefix of the folder, followed only by '/', and does not itself end in '/' |
| `Naming.TrimEndSlashesUnique` | rust/main/hyperlane-base/src/types/gcs_storage.rs:117 | those three properties determine the trimmed folder uniquely |
| `Naming.FolderTrailingSlashes` | rust/main/hyperlane-base/src/types/gcs_storage.rs:115-121 | folders `f`, `f/`, `f//`, ... give the same object path for every name |
| `Naming.FolderIsolation` | rust/main/hyperlane-base/src/types/gcs_storage.rs:115-121 | two folders give the same path for a name iff they agree after trimming; a folder-prefixed path never equals the unprefixed one |
| `Naming.CrossSlotIsolation` | rust/main/hyperlane-base/src/types/gcs_storage.rs:115-121 | under any two folders, a metadata path is never an announcement path, in either direction |
| `Naming.ObjectPathInjective` | rust/main/hyperlane-base/src/types/gcs_storage.rs:115-121 | within one store, object paths of distinct names are distinct |
| `Naming.PrefixedPathHasSlash` | rust/main/hyperlane-base/src/types/gcs_storage.rs:117 | a folder-prefixed path contains '/' |
| `Naming.CheckpointKeyInjective` | rust/main/hyperlane-base/src/types/gcs_storage.rs:111-113 | `checkpoint_{i}_with_id.json` keys are equal iff the indices are |
| `Naming.CheckpointKeyHasNoSlash` | rust/main/hyperlane-base/src/types/gcs_storage.rs:111-113 | a checkpoint key contains no '/' |
| `Naming.SlotKeysDistinct` | rust/main/hyperlane-base/src/types/gcs_storage.rs:16-19 | no checkpoint key equals the latest-index or reorg-flag key, or the metadata, `announcement.json` or `gcsAnnouncementKey` path; those slot keys are pairwise distinct under any folder |
| `Naming.ValidateBucketName` | rust/main/hyperlane-base/src/types/gcs_storage.rs:123-130 | succeeds iff the bucket name has no '/'; the error names the bucket |
| `Naming.LocationRoundTrip` | rust/main/hyperlane-base/src/types/gcs_storage.rs:252-255 | for a valid bucket, splitting the location at `gs://` and the first '/' gives back the bucket and the folder-prefixed `gcsAnnouncementKey` path |
| `Naming.LocationIsNotAnnouncementObject` | rust/main/hyperlane-base/src/types/gcs_storage.rs:252-255 | the path in the location is never the object `write_announcement` writes (line 236) |
| `Naming.SlashedBucketMisreads` | rust/main/hyperlane-base/src/types/gcs_storage.rs:123-130 | with a '/' in the bucket name, a reader of the location would take only the part before it as the bucket: the reason for the check |
| `Decimal.Show` | rust/main/hyperlane-base/src/types/gcs_storage.rs:112 | the decimal spelling of an index is canonical (digits, no leading zero) and denotes that index |
| `Decimal.ShowParse` | rust/main/hyperlane-base/src/types/gcs_storage.rs:112 | every canonical digit string is the spelling of the number it denotes |
| `Json.EncodeU32` | rust/main/hyperlane-base/src/types/gcs_storage.rs:169 | the latest index is written as a non-empty string of ASCII digits |
| `Json.U32RoundTrip` | rust/main/hyperlane-base/src/types/gcs_storage.rs:155 | decoding the written bytes of a `u32` gives that `u32` |
| `Json.U32Canonical` | rust/main/hyperlane-base/src/types/gcs_storage.rs:155 | whatever the decoder accepts is the writer's output for that value, up to surrounding JSON whitespace |
| `Json.CheckpointRoundTrip` | rust/main/hyperlane-base/src/types/gcs_storage.rs:192 | decoding an encoded checkpoint gives the checkpoint back |
| `GcsStorage.GcsStorageClient.LatestIndex` | rust/main/hyperlane-base/src/types/gcs_storage.rs:153-165 | result is `Some(v)` when the key holds an encoding of `v`; `None` on `InvalidName`, 404 or absence; `DecodeFailure` on malformed bytes; an error on any other backend failure |
| `GcsStorage.GcsStorageClient.WriteLatestIndex` | rust/main/hyperlane-base/src/types/gcs_storage.rs:168-174 | on success only `gcsLatestIndexKey` changes, to the encoded index; on failure the error is returned and the bucket is unchanged |
| `GcsStorage.GcsStorageClient.UpdateLatestIndex` | rust/main/hyperlane-base/src/types/gcs_storage.rs:177-183 | reads the latest index (absent as 0), propagates a read error, writes only if the new index is larger, and propagates a write error |
| `GcsStorage.GcsStorageClient.FetchCheckpoint` | rust/main/hyperlane-base/src/types/gcs_storage.rs:186-200 | `Some(c)` when the key for the index holds an encoding of `c`; `None` only on 404 or absence; `InvalidName` and other failures are errors; malformed bytes are `DecodeFailure` |
| `GcsStorage.GcsStorageClient.WriteCheckpoint` | rust/main/hyperlane-base/src/types/gcs_storage.rs:203-215 | on success only the key for the checkpoint's own index changes, to its encoding; on failure nothing changes |
| `GcsStorage.GcsStorageClient.WriteMetadata` | rust/main/hyperlane-base/src/types/gcs_storage.rs:218-232 | on success only the folder-prefixed `gcsMetadataKey` object changes, to the metadata bytes; on failure nothing changes |
| `GcsStorage.GcsStorageClient.WriteAnnouncement` | rust/main/hyperlane-base/src/types/gcs_storage.rs:235-249 | on success only the folder-prefixed `announcement.json` object changes, to the announcement bytes; on failure nothing changes |
| `GcsStorage.GcsStorageClient.WriteReorgStatus` | rust/main/hyperlane-base/src/types/gcs_storage.rs:257-263 | on success only the unprefixed `gcsReorgFlagKey` object changes, to the event bytes; on failure nothing changes |
| `GcsStorage.GcsStorageClient.ReorgStatus` | rust/main/hyperlane-base/src/types/gcs_storage.rs:265-267 | always `Ok(None)`, independent of the bucket's contents |
| `GcsStorage.GcsStorageClient.constructor` | rust/main/hyperlane-base/src/types/gcs_storage.rs:105 | a client is only made for a validated bucket name, bound to the bucket of that name, and keeps bucket, folder and transport |
| `GcsStorage.GcsStorageClient.AnnouncementLocation` | rust/main/hyperlane-base/src/types/gcs_storage.rs:252-255 | the client's location depends on its bucket and folder only, splits back into the bucket and the folder-prefixed `gcsAnnouncementKey` path, and is not the `announcement.json` object |
| `GcsStorage.Build` | rust/main/hyperlane-base/src/types/gcs_storage.rs:92-106 | a client-construction failure comes first; then a bucket name with '/' is rejected; otherwise a fresh valid client for that bucket and folder, bound to the bucket of that name |
| `SyncerProperties.DistinctBucketsAreDisjoint` | rust/main/hyperlane-base/src/types/gcs_storage.rs:150-260 | two valid clients of different bucket names hold different `Bucket` objects, so writes through one (each modifies only its own `inner`) leave the other's objects unchanged |
| `SyncerProperties.FreshStoreAbsence` | rust/main/hyperlane-base/src/types/gcs_storage.rs:153-200 | on an empty bucket `latest_index` and every `fetch_checkpoint` report absence, not an error |
| `SyncerProperties.InvalidNameAsymmetry` | rust/main/hyperlane-base/src/types/gcs_storage.rs:156-198 | an `InvalidName` report is absence for `latest_index` and an error for `fetch_checkpoint` |
| `SyncerProperties.LatestIndexReadsBack` | rust/main/hyperlane-base/src/types/gcs_storage.rs:153-174 | after a successful `write_latest_index(i)`, `latest_index` reads `Some(i)` |
| `SyncerProperties.CheckpointReadsBack` | rust/main/hyperlane-base/src/types/gcs_storage.rs:186-215 | after a successful `write_checkpoint(c)`, `fetch_checkpoint(c.index)` reads `Some(c)` |
| `SyncerProperties.CheckpointReadIsolated` | rust/main/hyperlane-base/src/types/gcs_storage.rs:168-263 | a checkpoint read at `j` is unchanged by each single write other than `write_checkpoint` at `j` |
| `SyncerProperties.CheckpointReadIsolatedAll` | rust/main/hyperlane-base/src/types/gcs_storage.rs:187-199 | a checkpoint read at `j` is unchanged by any sequence of writes, successful or not, none of them at the key for `j` |
| `SyncerProperties.NeverWrittenStaysAbsent` | rust/main/hyperlane-base/src/types/gcs_storage.rs:187-199 | on a fresh bucket, after any writes none of which targets checkpoint `j`, `fetch_checkpoint(j)` reads `None` |
| `SyncerProperties.LatestIndexReadIsolated` | rust/main/hyperlane-base/src/types/gcs_storage.rs:168-263 | `latest_index` is unchanged by checkpoint, metadata, announcement and reorg writes |
| `SyncerProperties.RewriteIsIdempotent` | rust/main/hyperlane-base/src/types/gcs_storage.rs:203-263 | writing the same value to a slot twice gives the same bucket as writing it once |
| `SyncerProperties.UpdateTouchesOnlyLatestIndex` | rust/main/hyperlane-base/src/types/gcs_storage.rs:177-183 | `update_latest_index` leaves the bucket alone or replaces only the latest-index object with the new index |
| `SyncerProperties.UpdateIsMonotone` | rust/main/hyperlane-base/src/types/gcs_storage.rs:177-183 | with truthful reads an update never lowers a stored latest index; on success it leaves max(previous, new) |
| `SyncerProperties.UpdateFromAbsent` | rust/main/hyperlane-base/src/types/gcs_storage.rs:177-183 | without a stored latest index, index 0 writes nothing and a positive index is stored |
| `SyncerProperties.UpdateIsIdempotent` | rust/main/hyperlane-base/src/types/gcs_storage.rs:177-183 | updating twice with the same index gives the same bucket as updating once |
| `SyncerProperties.SerialUpdatesReachMax` | rust/main/hyperlane-base/src/types/gcs_storage.rs:177-183 | after serial updates the latest index is the maximum of the previous value and all updates, or still absent if it was absent and every update was 0 |
| `SyncerProperties.FreshSerialUpdates` | rust/main/hyperlane-base/src/types/gcs_storage.rs:177-183 | on a fresh bucket serial updates with some positive index store the largest index |
| `SyncerProperties.SpuriousAbsenceStoresIndex` | rust/main/hyperlane-base/src/types/gcs_storage.rs:156-183 | on any bucket, a 404 or invalid-name report on the read makes `update_latest_index(i)` with `i > 0` store `i`, whatever was stored before |
| `SyncerProperties.SpuriousAbsenceLowersIndex` | rust/main/hyperlane-base/src/types/gcs_storage.rs:156-183 | a 404 or invalid-name report on a bucket that holds 10 lets `update_latest_index(5)` store 5 |

## Left out

- Construction of the `ya_gcp` storage client and the auth flows (no-auth, service-account key, user secret), with the environment-variable names: this is a foreign library plus credential I/O. Its outcome is the `connected` argument of `GcsStorage.Build`, and its panics are not modelled.
- async/await and the tokio runtime: each operation is a synchronous method.
- The lost-update race of `update_latest_index` under concurrent writers: only serial call sequences are modelled.
- The transport: get object and insert object are `ObjectStore.Bucket` methods over a map. The failure a round trip reports is an argument. A failed insert is assumed to leave the bucket unchanged.
- serde_json internals: the `u32` reader accepts JSON whitespace around a canonical decimal below 2^32. The JSON object layout of `SignedCheckpointWithMessageId` is replaced by a stand-in layout: decimal index, a comma byte, then the other fields and the signature as opaque bytes. Metadata, announcement and reorg event are represented by their serialised bytes.
- Serialisation failure (the `?` after `to_vec` / `to_string_pretty`) is treated as impossible.
- Pretty-printed versus compact output is not modelled.
- Error messages: errors carry only a classification, not the `bail!` text.
- `tracing` `info!`/`error!` logging on bucket validation and on metadata and announcement writes: logging only.
- The `Debug` impl, the test-only `get_by_path` and the network test against the public Landsat bucket.
- Sharing within one bucket is not modelled: the storage service's table from names to buckets is left out. Clients of different names are proved to hold different `Bucket` objects. That two clients built for the same name reach the same object is assumed of whoever supplies `connected` to `GcsStorage.Build`. Two separate `Bucket("b")` objects give two clients that see nothing of each other's writes.
