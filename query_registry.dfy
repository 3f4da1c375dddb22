/** The registries of utilities/query_management.py: QueryManager holds its
    queues in a dict keyed by uuid, a QueryQueue holds its QueryObjects in a
    list. The uuid generator is a parameter. */
module QueryRegistry {
  import opened Common
  import opened QueryRequests
  import opened QuerySplitting

  /** errors.InvalidQueryQueueError, carrying the unknown uuid. */
  datatype RegistryError = InvalidQueryQueue(uuid: string)

  /** One chunk of a query, numbered within its queue. */
  class QueryObject {
    const queue: QueryQueue
    const query: Query
    const nr: int
    var path: Option<string>

    constructor (queue: QueryQueue, query: Query, nr: int)
      ensures this.queue == queue && this.query == query && this.nr == nr && path.None?
    {
      this.queue := queue;
      this.query := query;
      this.nr := nr;
      path := None;
    }
  }

  class QueryQueue {
    var queryObjects: seq<QueryObject>
    var path: Option<string>

    constructor ()
      ensures queryObjects == [] && path.None?
    {
      queryObjects := [];
      path := None;
    }

    /** add_query_object: appends at the end of the list. */
    method AddQueryObject(queryObject: QueryObject)
      modifies this
      ensures queryObjects == old(queryObjects) + [queryObject]
      ensures path == old(path)
    {
      queryObjects := queryObjects + [queryObject];
    }

    /** The loop of create_query_objects: one QueryObject per chunk key
        0, 1, ..., numbered by that key, appended in key order. */
    method AddChunks(chunks: map<int, Query>, ghost n: nat)
      requires forall i :: i in chunks <==> 0 <= i < n
      modifies this
      ensures path == old(path)
      ensures |queryObjects| == |old(queryObjects)| + n && queryObjects[..|old(queryObjects)|] == old(queryObjects)
      ensures var added := queryObjects[|old(queryObjects)|..];
        forall i :: 0 <= i < n ==>
          fresh(added[i]) && added[i].query == chunks[i] && added[i].nr == i && added[i].queue == this
    {
      ghost var before := queryObjects;
      ghost var made: seq<QueryObject> := [];
      var key := 0;
      while key in chunks
        invariant 0 <= key <= n && |made| == key
        invariant queryObjects == before + made && path == old(path)
        invariant forall i :: 0 <= i < key ==> fresh(made[i]) && made[i].query == chunks[i]
        invariant forall i :: 0 <= i < key ==> made[i].nr == i && made[i].queue == this
        decreases n - key
      {
        var queryObject := new QueryObject(this, chunks[key], key);
        AddQueryObject(queryObject);
        made := made + [queryObject];
        key := key + 1;
      }
      assert queryObjects[..|before|] == before;
    }
  }

  class QueryManager {
    const cert: Option<string>
    const timeout: Option<int>
    const threshold: Option<int>
    const directoryPath: string
    var queues: map<string, QueryQueue>

    /** No two uuids share a queue object. */
    ghost predicate Valid()
      reads this
    {
      forall a, b :: a in queues && b in queues && a != b ==> queues[a] != queues[b]
    }

    constructor (cert: Option<string>, timeout: Option<int>, directoryPath: Option<string>, threshold: Option<int>)
      ensures Valid() && queues == map[]
      ensures this.cert == cert && this.timeout == timeout && this.threshold == threshold
      ensures this.directoryPath == if directoryPath.None? then "data" else directoryPath.value
    {
      this.cert := cert;
      this.timeout := timeout;
      this.threshold := threshold;
      this.directoryPath := if directoryPath.None? then "data" else directoryPath.value;
      queues := map[];
    }

    /** add_query_queue: registers a new, empty queue under `uuid` (the hex
        string the source draws from uuid4) and returns that uuid. */
    method AddQueryQueue(uuid: string) returns (id: string)
      requires Valid()
      modifies this
      ensures Valid()
      ensures id == uuid && uuid in queues
      ensures fresh(queues[uuid]) && queues[uuid].queryObjects == [] && queues[uuid].path.None?
      ensures queues == old(queues)[uuid := queues[uuid]]
    {
      var queryQueue := new QueryQueue();
      queues := queues[uuid := queryQueue];
      return uuid;
    }

    /** create_query_objects: splits `query` into `separator`-wide chunks and
        appends one QueryObject per chunk, in key order, to the queue named by
        `uuid`; an unknown uuid changes no queue. */
    method CreateQueryObjects(uuid: string, query: Query, separator: int) returns (r: Result<(), RegistryError>)
      requires Valid() && separator > 0
      modifies queues.Values
      ensures queues == old(queues) && Valid()
      ensures uuid !in queues ==> r == Err(InvalidQueryQueue(uuid))
      ensures uuid !in queues ==> forall k :: k in queues ==> queues[k].queryObjects == old(queues[k].queryObjects)
      ensures uuid in queues ==> r == Ok(())
      ensures uuid in queues ==> forall k :: k in queues && k != uuid ==> queues[k].queryObjects == old(queues[k].queryObjects)
      ensures uuid in queues ==>
        var w := ChunkBounds(query.globalStart, query.globalEnd, separator);
        var before := old(queues[uuid].queryObjects);
        var after := queues[uuid].queryObjects;
        && |after| == |before| + |w|
        && after[..|before|] == before
        && var added := after[|before|..];
           forall i :: 0 <= i < |w| ==>
             && fresh(added[i]) && fresh(added[i].query)
             && added[i].nr == i && added[i].queue == queues[uuid]
             && IsChunk(added[i].query, query, w[i])
    {
      var queryObjects := SplitBySeparator(query, separator);
      if uuid !in queues {
        return Err(InvalidQueryQueue(uuid));
      }
      var queryQueue := queues[uuid];
      ghost var w := ChunkBounds(query.globalStart, query.globalEnd, separator);
      ghost var before := queryQueue.queryObjects;
      queryQueue.AddChunks(queryObjects, |w|);
      ghost var added := queryQueue.queryObjects[|before|..];
      forall i | 0 <= i < |w|
        ensures fresh(added[i].query) && IsChunk(added[i].query, query, w[i])
      {
        assert added[i].query == queryObjects[i];
      }
      return Ok(());
    }
  }
}
