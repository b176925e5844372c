/**
 * Object keys of a GCS-backed checkpoint store, the folder prefix, the
 * bucket-name check and the announcement location string.
 */
module Naming {
  import opened Wrappers
  import opened Types
  import opened Decimal
  import opened Sequences

  const LATEST_INDEX_KEY: string := "gcsLatestIndexKey"
  const METADATA_KEY: string := "gcsMetadataKey"
  const ANNOUNCEMENT_KEY: string := "gcsAnnouncementKey"
  const REORG_FLAG_KEY: string := "gcsReorgFlagKey"
  /** The object name `write_announcement` actually writes to. */
  const ANNOUNCEMENT_OBJECT: string := "announcement.json"

  /** Why the builder refuses a bucket name. */
  datatype BucketNameError = SlashInBucketName(bucket: string)

  /** `get_checkpoint_key`. */
  function CheckpointKey(index: u32): string
  {
    "checkpoint_" + Show(index) + "_with_id.json"
  }

  /** `str::trim_end_matches('/')`: the longest prefix not ending in '/' after which only '/' follows. */
  function TrimEndSlashes(f: string): (g: string)
    ensures |g| <= |f| && g == f[..|g|]
    ensures forall i :: |g| <= i < |f| ==> f[i] == '/'
    ensures g == [] || g[|g| - 1] != '/'
  {
    if |f| > 0 && f[|f| - 1] == '/' then TrimEndSlashes(f[..|f| - 1]) else f
  }

  /** `object_path`: the object name under the store's folder, if it has one. */
  function ObjectPath(folder: Option<string>, name: string): string
  {
    match folder
    case None => name
    case Some(f) => TrimEndSlashes(f) + "/" + name
  }

  /** `validate_bucket_name`: a bucket name must not contain '/'. */
  function ValidateBucketName(bucket: string): (r: Result<(), BucketNameError>)
    ensures r.Ok? <==> '/' !in bucket
    ensures r.Err? ==> r.error == SlashInBucketName(bucket)
  {
    if '/' in bucket then Err(SlashInBucketName(bucket)) else Ok(())
  }

  /** `announcement_location`. */
  function AnnouncementLocation(bucket: string, folder: Option<string>): string
  {
    "gs://" + bucket + "/" + ObjectPath(folder, ANNOUNCEMENT_KEY)
  }

  /** How a reader splits a "gs://bucket/path" location: the bucket ends at the first '/'. */
  function SplitLocation(s: string): Option<(string, string)>
  {
    if |s| < 5 || s[..5] != "gs://" then None
    else
      var rest := s[5..];
      var k := IndexOf(rest, '/');
      if k == |rest| then None else Some((rest[..k], rest[k + 1..]))
  }

  function Slashes(k: nat): (s: string)
    ensures |s| == k && forall i :: 0 <= i < k ==> s[i] == '/'
  {
    seq(k, _ => '/')
  }

  /** The three properties in TrimEndSlashes's contract determine its result. */
  lemma TrimEndSlashesUnique(f: string, g: string)
    requires |g| <= |f| && g == f[..|g|]
    requires forall i :: |g| <= i < |f| ==> f[i] == '/'
    requires g == [] || g[|g| - 1] != '/'
    ensures TrimEndSlashes(f) == g
  {
  }

  /** Folders "a", "a/", "a//", ... name the same place. */
  lemma FolderTrailingSlashes(f: string, k: nat, name: string)
    ensures ObjectPath(Some(f + Slashes(k)), name) == ObjectPath(Some(f), name)
  {
    var g := TrimEndSlashes(f);
    var fk := f + Slashes(k);
    assert fk[..|g|] == g;
    TrimEndSlashesUnique(fk, g);
  }

  /** Two folders give the same path for a name exactly when they agree after trimming. */
  lemma FolderIsolation(f1: string, f2: string, name: string)
    ensures ObjectPath(Some(f1), name) == ObjectPath(Some(f2), name)
        <==> TrimEndSlashes(f1) == TrimEndSlashes(f2)
    ensures ObjectPath(None, name) != ObjectPath(Some(f1), name)
  {
    var g1, g2 := TrimEndSlashes(f1), TrimEndSlashes(f2);
    var p1, p2 := ObjectPath(Some(f1), name), ObjectPath(Some(f2), name);
    if p1 == p2 {
      assert |g1| == |g2|;
      assert g1 == p1[..|g1|] && g2 == p2[..|g2|];
    }
    assert |ObjectPath(None, name)| < |p1|;
  }

  /**
   * One store's metadata object is never another store's announcement
   * object, whatever the two folders are.
   */
  lemma CrossSlotIsolation(f1: Option<string>, f2: Option<string>)
    ensures ObjectPath(f1, METADATA_KEY) != ObjectPath(f2, ANNOUNCEMENT_OBJECT)
    ensures ObjectPath(f1, ANNOUNCEMENT_OBJECT) != ObjectPath(f2, METADATA_KEY)
  {
    var m1, a2 := ObjectPath(f1, METADATA_KEY), ObjectPath(f2, ANNOUNCEMENT_OBJECT);
    var a1, m2 := ObjectPath(f1, ANNOUNCEMENT_OBJECT), ObjectPath(f2, METADATA_KEY);
    assert m1[|m1| - 1] == 'y' && a2[|a2| - 1] == 'n';
    assert a1[|a1| - 1] == 'n' && m2[|m2| - 1] == 'y';
  }

  /** Within one store, distinct names give distinct paths. */
  lemma ObjectPathInjective(folder: Option<string>, n1: string, n2: string)
    ensures ObjectPath(folder, n1) == ObjectPath(folder, n2) <==> n1 == n2
  {
    if folder.Some? && ObjectPath(folder, n1) == ObjectPath(folder, n2) {
      var pre := TrimEndSlashes(folder.value) + "/";
      assert ObjectPath(folder, n1) == pre + n1 && ObjectPath(folder, n2) == pre + n2;
      assert n1 == (pre + n1)[|pre|..];
      assert n2 == (pre + n2)[|pre|..];
    }
  }

  /** A folder-prefixed path always contains '/'. */
  lemma PrefixedPathHasSlash(f: string, name: string)
    ensures '/' in ObjectPath(Some(f), name)
  {
    var g := TrimEndSlashes(f);
    assert ObjectPath(Some(f), name)[|g|] == '/';
  }

  lemma CheckpointKeyInjective(i: u32, j: u32)
    ensures CheckpointKey(i) == CheckpointKey(j) <==> i == j
  {
    if CheckpointKey(i) == CheckpointKey(j) {
      var a, b := Show(i), Show(j);
      var ka, kb := CheckpointKey(i), CheckpointKey(j);
      assert |a| == |b|;
      assert ka[11..11 + |a|] == a;
      assert kb[11..11 + |b|] == b;
      ShowInjective(i, j);
    }
  }

  lemma CheckpointKeyHasNoSlash(i: u32)
    ensures '/' !in CheckpointKey(i)
  {
    var d := Show(i);
    var k := CheckpointKey(i);
    forall p | 0 <= p < |k| ensures k[p] != '/' {
      if 11 <= p < 11 + |d| {
        assert k[p] == d[p - 11];
      }
    }
  }

  /**
   * No checkpoint key coincides with any single-slot key, and the
   * single-slot keys of a store (latest index, reorg flag, metadata, the
   * written `announcement.json` object and the `gcsAnnouncementKey` object
   * the location names) are pairwise distinct.
   */
  lemma SlotKeysDistinct(folder: Option<string>, i: u32)
    ensures CheckpointKey(i) != LATEST_INDEX_KEY
    ensures CheckpointKey(i) != REORG_FLAG_KEY
    ensures CheckpointKey(i) != ObjectPath(folder, METADATA_KEY)
    ensures CheckpointKey(i) != ObjectPath(folder, ANNOUNCEMENT_OBJECT)
    ensures ObjectPath(folder, METADATA_KEY) != ObjectPath(folder, ANNOUNCEMENT_OBJECT)
    ensures ObjectPath(folder, METADATA_KEY) !in {LATEST_INDEX_KEY, REORG_FLAG_KEY}
    ensures ObjectPath(folder, ANNOUNCEMENT_OBJECT) !in {LATEST_INDEX_KEY, REORG_FLAG_KEY}
    ensures CheckpointKey(i) != ObjectPath(folder, ANNOUNCEMENT_KEY)
    ensures ObjectPath(folder, ANNOUNCEMENT_KEY) !in {LATEST_INDEX_KEY, REORG_FLAG_KEY}
    ensures ObjectPath(folder, ANNOUNCEMENT_KEY) != ObjectPath(folder, METADATA_KEY)
    ensures ObjectPath(folder, ANNOUNCEMENT_KEY) != ObjectPath(folder, ANNOUNCEMENT_OBJECT)
    ensures LATEST_INDEX_KEY != REORG_FLAG_KEY
  {
    var k := CheckpointKey(i);
    assert k[0] == 'c';
    CheckpointKeyHasNoSlash(i);
    ObjectPathInjective(folder, METADATA_KEY, ANNOUNCEMENT_OBJECT);
    ObjectPathInjective(folder, ANNOUNCEMENT_KEY, METADATA_KEY);
    ObjectPathInjective(folder, ANNOUNCEMENT_KEY, ANNOUNCEMENT_OBJECT);
    assert '/' !in LATEST_INDEX_KEY && '/' !in REORG_FLAG_KEY;
    if folder.Some? {
      PrefixedPathHasSlash(folder.value, METADATA_KEY);
      PrefixedPathHasSlash(folder.value, ANNOUNCEMENT_OBJECT);
      PrefixedPathHasSlash(folder.value, ANNOUNCEMENT_KEY);
    }
  }

  /**
   * With a valid bucket name the location splits back into that bucket and
   * the folder-prefixed announcement key.
   */
  lemma LocationRoundTrip(bucket: string, folder: Option<string>)
    requires ValidateBucketName(bucket).Ok?
    ensures SplitLocation(AnnouncementLocation(bucket, folder)) == Some((bucket, ObjectPath(folder, ANNOUNCEMENT_KEY)))
  {
    var path := ObjectPath(folder, ANNOUNCEMENT_KEY);
    var s := AnnouncementLocation(bucket, folder);
    assert s[..5] == "gs://";
    var rest := s[5..];
    assert rest == bucket + ['/'] + path;
    IndexOfAfterPrefix(bucket, '/', path);
    assert rest[..|bucket|] == bucket;
    assert rest[|bucket| + 1..] == path;
  }

  /** The location names a different object from the one `write_announcement` writes. */
  lemma LocationIsNotAnnouncementObject(bucket: string, folder: Option<string>)
    requires ValidateBucketName(bucket).Ok?
    ensures SplitLocation(AnnouncementLocation(bucket, folder)).Some?
    ensures SplitLocation(AnnouncementLocation(bucket, folder)).value.1 != ObjectPath(folder, ANNOUNCEMENT_OBJECT)
  {
    LocationRoundTrip(bucket, folder);
    ObjectPathInjective(folder, ANNOUNCEMENT_KEY, ANNOUNCEMENT_OBJECT);
  }

  /**
   * Without the bucket check, a reader would take only the part before the
   * first '/' of the bucket name as the bucket.
   */
  lemma SlashedBucketMisreads(b1: string, b2: string, folder: Option<string>)
    requires '/' !in b1
    ensures SplitLocation(AnnouncementLocation(b1 + "/" + b2, folder)).Some?
    ensures SplitLocation(AnnouncementLocation(b1 + "/" + b2, folder)).value.0 == b1 != b1 + "/" + b2
  {
    var tail := b2 + "/" + ObjectPath(folder, ANNOUNCEMENT_KEY);
    var s := AnnouncementLocation(b1 + "/" + b2, folder);
    assert s[..5] == "gs://";
    var rest := s[5..];
    assert rest == b1 + ['/'] + tail;
    IndexOfAfterPrefix(b1, '/', tail);
    assert rest[..|b1|] == b1;
  }
}
