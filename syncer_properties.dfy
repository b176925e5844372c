/**
 * What the syncer's operations promise together: absence is not an error,
 * writes read back, writes stay in their own slot, and the latest index
 * only moves up under serial updates.
 */
module SyncerProperties {
  import opened Wrappers
  import opened Types
  import opened Json
  import opened Naming
  import opened ObjectStore
  import opened GcsStorage

  /**
   * Clients of different bucket names hold different `Bucket` objects. Every
   * client operation modifies only its own `inner`, so writes through one
   * bucket's client leave every other bucket's objects unchanged.
   */
  lemma DistinctBucketsAreDisjoint(c1: GcsStorageClient, c2: GcsStorageClient)
    requires c1.Valid() && c2.Valid() && c1.bucket != c2.bucket
    ensures c1.inner != c2.inner
  {
  }

  /** On a bucket nothing was ever written to, both reads report absence, not an error. */
  lemma FreshStoreAbsence(index: u32)
    ensures LatestIndexOf(map[], None) == Ok(None)
    ensures CheckpointAt(map[], index, None) == Ok(None)
  {
  }

  /** An invalid-name report means "absent" to `latest_index` but is an error to `fetch_checkpoint`. */
  lemma InvalidNameAsymmetry(objects: Objects, index: u32)
    ensures LatestIndexOf(objects, Some(InvalidName)) == Ok(None)
    ensures CheckpointAt(objects, index, Some(InvalidName)) == Err(Backend(InvalidName))
  {
  }

  /** After a successful `write_latest_index(i)`, `latest_index` reads `Some(i)`. */
  lemma LatestIndexReadsBack(objects: Objects, index: u32)
    ensures LatestIndexOf(Put(objects, LATEST_INDEX_KEY, EncodeU32(index), None), None) == Ok(Some(index))
  {
    U32RoundTrip(index);
  }

  /** After a successful `write_checkpoint(c)`, `fetch_checkpoint(c.index)` reads `Some(c)`. */
  lemma CheckpointReadsBack(objects: Objects, c: SignedCheckpointWithMessageId)
    ensures CheckpointAt(Put(objects, CheckpointKey(c.index), EncodeCheckpoint(c), None), c.index, None) == Ok(Some(c))
  {
    CheckpointRoundTrip(c);
  }

  /**
   * A checkpoint read at `j` is unaffected by every write that is not
   * `write_checkpoint` at `j`, successful or not.
   */
  lemma CheckpointReadIsolated(objects: Objects, folder: Option<string>, i: u32, j: u32, data: seq<byte>, wf: Option<BackendError>, rf: Option<BackendError>)
    requires i != j
    ensures CheckpointAt(Put(objects, CheckpointKey(i), data, wf), j, rf) == CheckpointAt(objects, j, rf)
    ensures CheckpointAt(Put(objects, LATEST_INDEX_KEY, data, wf), j, rf) == CheckpointAt(objects, j, rf)
    ensures CheckpointAt(Put(objects, ObjectPath(folder, METADATA_KEY), data, wf), j, rf) == CheckpointAt(objects, j, rf)
    ensures CheckpointAt(Put(objects, ObjectPath(folder, ANNOUNCEMENT_OBJECT), data, wf), j, rf) == CheckpointAt(objects, j, rf)
    ensures CheckpointAt(Put(objects, REORG_FLAG_KEY, data, wf), j, rf) == CheckpointAt(objects, j, rf)
  {
    CheckpointKeyInjective(i, j);
    SlotKeysDistinct(folder, j);
  }

  /** One `insert_object` call: the key, the bytes and what the network reports. */
  datatype Write = Write(key: string, data: seq<byte>, fault: Option<BackendError>)

  /** The bucket after the writes `ws`, in order. */
  function PutAll(objects: Objects, ws: seq<Write>): Objects
    decreases |ws|
  {
    if ws == [] then objects else PutAll(Put(objects, ws[0].key, ws[0].data, ws[0].fault), ws[1..])
  }

  /** A write to any other key leaves the checkpoint read at `j` as it was. */
  lemma CheckpointIgnores(objects: Objects, key: string, data: seq<byte>, wf: Option<BackendError>, j: u32, rf: Option<BackendError>)
    requires key != CheckpointKey(j)
    ensures CheckpointAt(Put(objects, key, data, wf), j, rf) == CheckpointAt(objects, j, rf)
  {
    var after := Put(objects, key, data, wf);
    var k := CheckpointKey(j);
    assert (k in after) == (k in objects);
    assert k in objects ==> after[k] == objects[k];
  }

  /** Any sequence of writes none of which is at checkpoint `j` leaves the read at `j` as it was. */
  lemma {:induction false} CheckpointReadIsolatedAll(objects: Objects, ws: seq<Write>, j: u32, rf: Option<BackendError>)
    requires forall k :: 0 <= k < |ws| ==> ws[k].key != CheckpointKey(j)
    ensures CheckpointAt(PutAll(objects, ws), j, rf) == CheckpointAt(objects, j, rf)
    decreases |ws|
  {
    if ws != [] {
      var next := Put(objects, ws[0].key, ws[0].data, ws[0].fault);
      CheckpointIgnores(objects, ws[0].key, ws[0].data, ws[0].fault, j, rf);
      CheckpointReadIsolatedAll(next, ws[1..], j, rf);
    }
  }

  /** On a fresh bucket, an index that no write targets reads as absent. */
  lemma NeverWrittenStaysAbsent(ws: seq<Write>, j: u32)
    requires forall k :: 0 <= k < |ws| ==> ws[k].key != CheckpointKey(j)
    ensures CheckpointAt(PutAll(map[], ws), j, None) == Ok(None)
  {
    CheckpointReadIsolatedAll(map[], ws, j, None);
  }

  /** The latest index is unaffected by every write except `write_latest_index`. */
  lemma LatestIndexReadIsolated(objects: Objects, folder: Option<string>, i: u32, data: seq<byte>, wf: Option<BackendError>, rf: Option<BackendError>)
    ensures LatestIndexOf(Put(objects, CheckpointKey(i), data, wf), rf) == LatestIndexOf(objects, rf)
    ensures LatestIndexOf(Put(objects, ObjectPath(folder, METADATA_KEY), data, wf), rf) == LatestIndexOf(objects, rf)
    ensures LatestIndexOf(Put(objects, ObjectPath(folder, ANNOUNCEMENT_OBJECT), data, wf), rf) == LatestIndexOf(objects, rf)
    ensures LatestIndexOf(Put(objects, REORG_FLAG_KEY, data, wf), rf) == LatestIndexOf(objects, rf)
  {
    SlotKeysDistinct(folder, i);
    LatestIndexIgnores(objects, CheckpointKey(i), data, wf, rf);
    LatestIndexIgnores(objects, ObjectPath(folder, METADATA_KEY), data, wf, rf);
    LatestIndexIgnores(objects, ObjectPath(folder, ANNOUNCEMENT_OBJECT), data, wf, rf);
    LatestIndexIgnores(objects, REORG_FLAG_KEY, data, wf, rf);
  }

  /** A write to any other key leaves the latest-index read as it was. */
  lemma LatestIndexIgnores(objects: Objects, key: string, data: seq<byte>, wf: Option<BackendError>, rf: Option<BackendError>)
    requires key != LATEST_INDEX_KEY
    ensures LatestIndexOf(Put(objects, key, data, wf), rf) == LatestIndexOf(objects, rf)
  {
    var after := Put(objects, key, data, wf);
    assert (LATEST_INDEX_KEY in after) == (LATEST_INDEX_KEY in objects);
    assert LATEST_INDEX_KEY in objects ==> after[LATEST_INDEX_KEY] == objects[LATEST_INDEX_KEY];
  }

  /** Writing the same value twice leaves the bucket as writing it once. */
  lemma RewriteIsIdempotent(objects: Objects, key: string, data: seq<byte>, fault: Option<BackendError>)
    ensures Put(Put(objects, key, data, fault), key, data, fault) == Put(objects, key, data, fault)
  {
  }

  /** `update_latest_index` either leaves the bucket alone or replaces only the latest-index object. */
  lemma UpdateTouchesOnlyLatestIndex(objects: Objects, index: u32, rf: Option<BackendError>, wf: Option<BackendError>)
    ensures var after := UpdateOutcome(objects, index, rf, wf).1;
      after == objects || after == objects[LATEST_INDEX_KEY := EncodeU32(index)]
  {
  }

  function Max(a: u32, b: u32): u32
  {
    if a < b then b else a
  }

  /**
   * One update, with truthful reads (no spurious absence report), never
   * lowers a stored latest index, and on success leaves it at the maximum.
   */
  lemma UpdateIsMonotone(objects: Objects, index: u32, rf: Option<BackendError>, wf: Option<BackendError>, prev: u32)
    requires LatestIndexOf(objects, None) == Ok(Some(prev))
    requires rf != Some(InvalidName) && rf != Some(HttpNotFound)
    ensures var (r, after) := UpdateOutcome(objects, index, rf, wf);
      LatestIndexOf(after, None) == Ok(Some(if r.Ok? then Max(prev, index) else prev))
  {
    if rf.None? && index > prev && wf.None? {
      LatestIndexReadsBack(objects, index);
    }
  }

  /** From a bucket without a latest index: index 0 writes nothing, a positive index is stored. */
  lemma UpdateFromAbsent(objects: Objects, index: u32)
    requires LATEST_INDEX_KEY !in objects
    ensures index == 0 ==> UpdateOutcome(objects, index, None, None) == (Ok(()), objects)
    ensures index > 0 ==> LatestIndexOf(UpdateOutcome(objects, index, None, None).1, None) == Ok(Some(index))
  {
    if index > 0 {
      LatestIndexReadsBack(objects, index);
    }
  }

  /** The bucket after one fault-free `update_latest_index`. */
  function Step(objects: Objects, index: u32): Objects
  {
    UpdateOutcome(objects, index, None, None).1
  }

  /** The bucket after fault-free serial updates with `indices`, in order. */
  function UpdateAll(objects: Objects, indices: seq<u32>): Objects
    decreases |indices|
  {
    if indices == [] then objects else UpdateAll(Step(objects, indices[0]), indices[1..])
  }

  function SeqMax(xs: seq<u32>): u32
    decreases |xs|
  {
    if xs == [] then 0 else Max(xs[0], SeqMax(xs[1..]))
  }

  /**
   * The latest index serial updates should leave: still absent if it was
   * absent and every update was 0, otherwise the maximum of the previous
   * value (absent counting as 0) and all the updates.
   */
  function ExpectedLatest(prev: Option<u32>, xs: seq<u32>): Option<u32>
  {
    if prev.None? && forall k :: 0 <= k < |xs| ==> xs[k] == 0 then None
    else Some(Max(prev.GetOr(0), SeqMax(xs)))
  }

  /** The latest index one fault-free update leaves, given the one it read. */
  function Bump(prev: Option<u32>, index: u32): Option<u32>
  {
    if index > prev.GetOr(0) then Some(index) else prev
  }

  lemma StepLatest(objects: Objects, index: u32, prev: Option<u32>)
    requires LatestIndexOf(objects, None) == Ok(prev)
    ensures LatestIndexOf(Step(objects, index), None) == Ok(Bump(prev, index))
    ensures !(index > prev.GetOr(0)) ==> Step(objects, index) == objects
  {
    if index > prev.GetOr(0) {
      LatestIndexReadsBack(objects, index);
    }
  }

  /** Fault-free updating twice with the same index is updating once. */
  lemma UpdateIsIdempotent(objects: Objects, index: u32)
    ensures Step(Step(objects, index), index) == Step(objects, index)
  {
    var once := Step(objects, index);
    match LatestIndexOf(objects, None)
    case Err(_) =>
      assert once == objects;
    case Ok(prev) =>
      StepLatest(objects, index, prev);
      StepLatest(once, index, Bump(prev, index));
  }

  /** Peeling the first update off the expected result. */
  lemma ExpectedLatestCons(prev: Option<u32>, xs: seq<u32>)
    requires xs != []
    ensures ExpectedLatest(prev, xs) == ExpectedLatest(Bump(prev, xs[0]), xs[1..])
  {
    var rest := xs[1..];
    assert forall k :: 0 <= k < |rest| ==> rest[k] == xs[k + 1];
    assert (forall k :: 0 <= k < |xs| ==> xs[k] == 0)
      <==> xs[0] == 0 && forall k :: 0 <= k < |rest| ==> rest[k] == 0;
  }

  /** Serial fault-free updates leave the maximum of everything written (absence counting as 0). */
  lemma {:induction false} SerialUpdatesReachMax(objects: Objects, xs: seq<u32>, prev: Option<u32>)
    requires LatestIndexOf(objects, None) == Ok(prev)
    ensures LatestIndexOf(UpdateAll(objects, xs), None) == Ok(ExpectedLatest(prev, xs))
    decreases |xs|
  {
    if xs != [] {
      StepLatest(objects, xs[0], prev);
      SerialUpdatesReachMax(Step(objects, xs[0]), xs[1..], Bump(prev, xs[0]));
      ExpectedLatestCons(prev, xs);
    }
  }

  /** On a fresh bucket, serial updates store the largest index, unless all were 0. */
  lemma FreshSerialUpdates(xs: seq<u32>)
    requires exists k :: 0 <= k < |xs| && xs[k] > 0
    ensures LatestIndexOf(UpdateAll(map[], xs), None) == Ok(Some(SeqMax(xs)))
  {
    SerialUpdatesReachMax(map[], xs, None);
  }

  /**
   * Monotonicity rests on absence reports being truthful: after a spurious 404
   * or invalid-name report on the read, any positive index is stored, whatever
   * the bucket held before, so a smaller index can overwrite a larger one.
   */
  lemma SpuriousAbsenceStoresIndex(objects: Objects, index: u32, fault: BackendError)
    requires 0 < index && (fault == InvalidName || fault == HttpNotFound)
    ensures LatestIndexOf(UpdateOutcome(objects, index, Some(fault), None).1, None) == Ok(Some(index))
  {
    LatestIndexReadsBack(objects, index);
  }

  /** A concrete instance: a stored 10 is overwritten by 5. */
  lemma SpuriousAbsenceLowersIndex(fault: BackendError)
    requires fault == InvalidName || fault == HttpNotFound
    ensures var objects := map[LATEST_INDEX_KEY := EncodeU32(10)];
      LatestIndexOf(objects, None) == Ok(Some(10)) &&
      LatestIndexOf(UpdateOutcome(objects, 5, Some(fault), None).1, None) == Ok(Some(5))
  {
    var objects: Objects := map[LATEST_INDEX_KEY := EncodeU32(10)];
    U32RoundTrip(10);
    LatestIndexReadsBack(objects, 5);
  }
}
