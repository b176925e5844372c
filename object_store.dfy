/**
 * The object-storage transport the syncer is layered on: one bucket, read
 * with "get object" and written with "insert object". Whatever the network
 * reports on a round trip (a permission error, an invalid object name, ...)
 * is an explicit `fault` argument chosen by the environment.
 */
module ObjectStore {
  import opened Wrappers
  import opened Types

  /** The three failure shapes the syncer distinguishes. */
  datatype BackendError =
    | InvalidName   // the backend rejected the object identifier
    | HttpNotFound  // HTTP 404: no such object
    | Other         // anything else: permission, network, rate limiting, ...

  type Objects = map<string, seq<byte>>

  /** Answer to "get object": a reported fault wins; otherwise a missing key is a 404. */
  function Get(objects: Objects, key: string, fault: Option<BackendError>): Result<seq<byte>, BackendError>
  {
    if fault.Some? then Err(fault.value)
    else if key in objects then Ok(objects[key])
    else Err(HttpNotFound)
  }

  /** Effect of "insert object": the key is replaced on success, nothing changes on failure. */
  function Put(objects: Objects, key: string, data: seq<byte>, fault: Option<BackendError>): Objects
  {
    if fault.None? then objects[key := data] else objects
  }

  /**
   * One remote bucket, identified by its name. Buckets of different names are
   * different objects; that two requests naming the same bucket reach the same
   * object is up to whoever supplies the buckets.
   */
  class Bucket {
    const name: string
    var objects: Objects

    constructor (name: string)
      ensures this.name == name && objects == map[]
    {
      this.name := name;
      objects := map[];
    }

    method GetObject(key: string, fault: Option<BackendError>) returns (r: Result<seq<byte>, BackendError>)
      ensures r == Get(objects, key, fault)
    {
      if fault.Some? {
        r := Err(fault.value);
      } else if key in objects {
        r := Ok(objects[key]);
      } else {
        r := Err(HttpNotFound);
      }
    }

    method InsertObject(key: string, data: seq<byte>, fault: Option<BackendError>) returns (r: Result<(), BackendError>)
      modifies this
      ensures r == if fault.Some? then Err(fault.value) else Ok(())
      ensures objects == Put(old(objects), key, data, fault)
    {
      if fault.Some? {
        r := Err(fault.value);
      } else {
        objects := objects[key := data];
        r := Ok(());
      }
    }
  }
}
