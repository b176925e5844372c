/**
 * The Google Cloud Storage checkpoint syncer: a client bound to one bucket
 * (and optional folder) that implements the syncer operations with one or
 * two round trips to the bucket each.
 */
module GcsStorage {
  import opened Wrappers
  import opened Types
  import opened Json
  import opened Naming
  import opened ObjectStore

  /** The errors the syncer operations and the builder report. */
  datatype SyncerError =
    | InvalidBucket(reason: BucketNameError) // the bucket name failed validation
    | ClientConstruction                     // the storage client could not be built
    | Backend(cause: BackendError)           // a transport failure passed on to the caller
    | DecodeFailure                          // an object exists but does not decode

  /** What a write returns: the transport's failure, if any, becomes an error. */
  function WriteResult(fault: Option<BackendError>): Result<(), SyncerError>
  {
    if fault.Some? then Err(Backend(fault.value)) else Ok(())
  }

  /**
   * What `latest_index` computes from the bucket's objects: a reported
   * invalid name or 404, like an absent object, means "never written";
   * any other failure, or bytes that do not decode, is an error.
   */
  function LatestIndexOf(objects: Objects, fault: Option<BackendError>): Result<Option<u32>, SyncerError>
  {
    match fault
    case Some(Other) => Err(Backend(Other))
    case Some(_) => Ok(None)
    case None =>
      if LATEST_INDEX_KEY !in objects then Ok(None)
      else
        match DecodeU32(objects[LATEST_INDEX_KEY])
        case Some(v) => Ok(Some(v))
        case None => Err(DecodeFailure)
  }

  /**
   * What `fetch_checkpoint` computes: only a 404 (or an absent object) means
   * "not there"; an invalid name is an error here.
   */
  function CheckpointAt(objects: Objects, index: u32, fault: Option<BackendError>): Result<Option<SignedCheckpointWithMessageId>, SyncerError>
  {
    match fault
    case Some(HttpNotFound) => Ok(None)
    case Some(e) => Err(Backend(e))
    case None =>
      var key := CheckpointKey(index);
      if key !in objects then Ok(None)
      else
        match DecodeCheckpoint(objects[key])
        case Some(c) => Ok(Some(c))
        case None => Err(DecodeFailure)
  }

  /**
   * Result and new objects of `update_latest_index`: read the current index
   * (absence counts as 0) and write `index` only when it is larger.
   */
  function UpdateOutcome(objects: Objects, index: u32, readFault: Option<BackendError>, writeFault: Option<BackendError>): (Result<(), SyncerError>, Objects)
  {
    match LatestIndexOf(objects, readFault)
    case Err(e) => (Err(e), objects)
    case Ok(curr) =>
      if index > curr.GetOr(0) then
        (WriteResult(writeFault), Put(objects, LATEST_INDEX_KEY, EncodeU32(index), writeFault))
      else (Ok(()), objects)
  }

  class GcsStorageClient {
    /**
     * The remote bucket named `bucket`: every `get_object` and
     * `insert_object` of the client passes `&self.bucket`, so all of its
     * requests reach this one bucket.
     */
    const inner: Bucket
    const bucket: string
    const folder: Option<string>

    /** A client is only made for a validated name, bound to the bucket of that name. */
    ghost predicate Valid()
    {
      ValidateBucketName(bucket).Ok? && inner.name == bucket
    }

    constructor (inner: Bucket, bucket: string, folder: Option<string>)
      requires ValidateBucketName(bucket).Ok?
      requires inner.name == bucket
      ensures this.inner == inner && this.bucket == bucket && this.folder == folder
      ensures Valid()
    {
      this.inner := inner;
      this.bucket := bucket;
      this.folder := folder;
    }

    /**
     * `announcement_location`: depends only on the client's bucket and
     * folder, never on what the bucket holds, and splits back into them.
     */
    function AnnouncementLocation(): (location: string)
      requires Valid()
      ensures SplitLocation(location) == Some((bucket, ObjectPath(folder, ANNOUNCEMENT_KEY)))
      ensures SplitLocation(location).value.1 != ObjectPath(folder, ANNOUNCEMENT_OBJECT)
    {
      LocationRoundTrip(bucket, folder);
      LocationIsNotAnnouncementObject(bucket, folder);
      Naming.AnnouncementLocation(bucket, folder)
    }

    /** `latest_index`. */
    method LatestIndex(fault: Option<BackendError>) returns (r: Result<Option<u32>, SyncerError>)
      ensures r == LatestIndexOf(inner.objects, fault)
    {
      var response := inner.GetObject(LATEST_INDEX_KEY, fault);
      match response {
        case Ok(data) =>
          var v := DecodeU32(data);
          r := if v.Some? then Ok(Some(v.value)) else Err(DecodeFailure);
        case Err(InvalidName) => r := Ok(None);
        case Err(HttpNotFound) => r := Ok(None);
        case Err(e) => r := Err(Backend(e));
      }
    }

    /** `write_latest_index`. */
    method WriteLatestIndex(index: u32, fault: Option<BackendError>) returns (r: Result<(), SyncerError>)
      modifies inner
      ensures r == WriteResult(fault)
      ensures inner.objects == Put(old(inner.objects), LATEST_INDEX_KEY, EncodeU32(index), fault)
    {
      var written := inner.InsertObject(LATEST_INDEX_KEY, EncodeU32(index), fault);
      r := if written.Err? then Err(Backend(written.error)) else Ok(());
    }

    /** `update_latest_index`; `readFault` and `writeFault` are what the two round trips report. */
    method UpdateLatestIndex(index: u32, readFault: Option<BackendError>, writeFault: Option<BackendError>) returns (r: Result<(), SyncerError>)
      modifies inner
      ensures (r, inner.objects) == UpdateOutcome(old(inner.objects), index, readFault, writeFault)
    {
      var latest := LatestIndex(readFault);
      if latest.Err? {
        return Err(latest.error);
      }
      var curr := latest.value.GetOr(0);
      if index > curr {
        r := WriteLatestIndex(index, writeFault);
        if r.Err? {
          return;
        }
      }
      r := Ok(());
    }

    /** `fetch_checkpoint`. */
    method FetchCheckpoint(index: u32, fault: Option<BackendError>) returns (r: Result<Option<SignedCheckpointWithMessageId>, SyncerError>)
      ensures r == CheckpointAt(inner.objects, index, fault)
    {
      var response := inner.GetObject(CheckpointKey(index), fault);
      match response {
        case Ok(data) =>
          var c := DecodeCheckpoint(data);
          r := if c.Some? then Ok(Some(c.value)) else Err(DecodeFailure);
        case Err(HttpNotFound) => r := Ok(None);
        case Err(e) => r := Err(Backend(e));
      }
    }

    /** `write_checkpoint`: keyed by the checkpoint's own index. */
    method WriteCheckpoint(checkpoint: SignedCheckpointWithMessageId, fault: Option<BackendError>) returns (r: Result<(), SyncerError>)
      modifies inner
      ensures r == WriteResult(fault)
      ensures inner.objects == Put(old(inner.objects), CheckpointKey(checkpoint.index), EncodeCheckpoint(checkpoint), fault)
    {
      var written := inner.InsertObject(CheckpointKey(checkpoint.index), EncodeCheckpoint(checkpoint), fault);
      r := if written.Err? then Err(Backend(written.error)) else Ok(());
    }

    /** `write_metadata`: the one folder-prefixed metadata slot. */
    method WriteMetadata(metadata: AgentMetadata, fault: Option<BackendError>) returns (r: Result<(), SyncerError>)
      modifies inner
      ensures r == WriteResult(fault)
      ensures inner.objects == Put(old(inner.objects), ObjectPath(folder, METADATA_KEY), metadata.json, fault)
    {
      var objectName := ObjectPath(folder, METADATA_KEY);
      var written := inner.InsertObject(objectName, metadata.json, fault);
      r := if written.Err? then Err(Backend(written.error)) else Ok(());
    }

    /** `write_announcement`: the one folder-prefixed announcement slot. */
    method WriteAnnouncement(announcement: SignedAnnouncement, fault: Option<BackendError>) returns (r: Result<(), SyncerError>)
      modifies inner
      ensures r == WriteResult(fault)
      ensures inner.objects == Put(old(inner.objects), ObjectPath(folder, ANNOUNCEMENT_OBJECT), announcement.json, fault)
    {
      var objectName := ObjectPath(folder, ANNOUNCEMENT_OBJECT);
      var written := inner.InsertObject(objectName, announcement.json, fault);
      r := if written.Err? then Err(Backend(written.error)) else Ok(());
    }

    /** `write_reorg_status`: the reorg flag slot, not folder-prefixed. */
    method WriteReorgStatus(event: ReorgEvent, fault: Option<BackendError>) returns (r: Result<(), SyncerError>)
      modifies inner
      ensures r == WriteResult(fault)
      ensures inner.objects == Put(old(inner.objects), REORG_FLAG_KEY, event.json, fault)
    {
      var written := inner.InsertObject(REORG_FLAG_KEY, event.json, fault);
      r := if written.Err? then Err(Backend(written.error)) else Ok(());
    }

    /** `reorg_status`: reports no reorg, whatever the bucket holds. */
    method ReorgStatus() returns (r: Result<Option<ReorgEvent>, SyncerError>)
      ensures r == Ok(None)
    {
      r := Ok(None);
    }
  }

  /**
   * `GcsStorageClientBuilder::build`. `connected` is the outcome of building
   * the storage client for the builder's auth flow (None: it failed); that
   * happens before the bucket name is checked. On success it is the bucket
   * the storage service holds under `bucketName`.
   */
  method Build(bucketName: string, folder: Option<string>, connected: Option<Bucket>) returns (r: Result<GcsStorageClient, SyncerError>)
    requires connected.Some? ==> connected.value.name == bucketName
    ensures connected.None? ==> r == Err(ClientConstruction)
    ensures connected.Some? && '/' in bucketName ==> r == Err(InvalidBucket(SlashInBucketName(bucketName)))
    ensures connected.Some? && '/' !in bucketName ==>
      r.Ok? && fresh(r.value) && r.value.inner == connected.value && r.value.bucket == bucketName && r.value.folder == folder && r.value.Valid()
  {
    if connected.None? {
      return Err(ClientConstruction);
    }
    var valid := ValidateBucketName(bucketName);
    if valid.Err? {
      return Err(InvalidBucket(valid.error));
    }
    var client := new GcsStorageClient(connected.value, bucketName, folder);
    r := Ok(client);
  }
}
