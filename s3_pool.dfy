/**
 * `S3Pool` of `src/lib/database/s3_pool.py`: per-server file counts, least-loaded
 * placement with its published snapshot, and the two upload methods.
 *
 * The concurrent fan-out of `get_file_count` is a sequence of counts taken in the
 * configured order; what each `list_objects` and `put_object` call does on the wire
 * is a parameter of the operation.
 */
module S3Pool {
  import opened Outcomes

  type Bytes = seq<bv8>

  /** The objects one server holds, keyed by (bucket, object name). */
  type Store = map<(string, string), Bytes>

  /** A file count as `get_file_count` returns it: `float(len(objects))` or `float("inf")`. */
  datatype Count = Finite(n: nat) | Infinite

  /** `a < b` on those floats. */
  predicate Below(a: Count, b: Count) {
    match a
    case Infinite => false
    case Finite(x) => b.Infinite? || x < b.n
  }

  /** `a <= b` on those floats (there is no NaN among them). */
  predicate AtMost(a: Count, b: Count) {
    !Below(b, a)
  }

  /** What one `list_objects` call on a server does. */
  datatype Listing =
    | Listed      // the bucket's objects come back
    | ListError   // the client catches an `S3Error` and returns `None`
    | ListRaises  // any other exception, caught by `get_file_count`

  /** What one `put_object` call on a server does. */
  datatype PutOutcome =
    | Stored      // the object is written: `True`
    | PutError    // the client catches an `S3Error`: `False`
    | PutRaises   // any other exception escapes the client

  datatype PoolError =
    | IndexError           // `self.s3_servers[0]` on an empty server list
    | KeyError(server: string)  // `self.s3_clients[server]` for a server not configured
    | PutRaised            // the exception that escaped `put_object`

  /** The cache key the count snapshot is published under. */
  const SnapshotKey: string := "s3_server_file_count"

  /** The objects of `bucket` held in `store`. */
  function ObjectCount(store: Store, bucket: string): nat {
    |set k | k in store && k.0 == bucket|
  }

  /** The store of a server; a server nobody wrote to holds nothing. */
  function StoreOf(stores: map<string, Store>, server: string): Store {
    if server in stores then stores[server] else map[]
  }

  /** `get_file_count(server)`: infinity unless the server is configured and its listing comes back. */
  function FileCount(servers: seq<string>, stores: map<string, Store>, bucket: string,
                     server: string, listing: Listing): (r: Count)
    ensures r == Infinite <==> server !in servers || listing != Listed
    ensures r.Finite? ==> r.n == ObjectCount(StoreOf(stores, server), bucket)
  {
    if server !in servers then Infinite
    else if listing == Listed then Finite(ObjectCount(StoreOf(stores, server), bucket))
    else Infinite
  }

  /** The gathered results: one count per configured server, in order. */
  function Counts(servers: seq<string>, stores: map<string, Store>, bucket: string,
                  listings: seq<Listing>): (r: seq<Count>)
    requires |listings| == |servers|
    ensures |r| == |servers|
    ensures forall i :: 0 <= i < |r| ==> r[i] == FileCount(servers, stores, bucket, servers[i], listings[i])
  {
    seq(|servers|, i requires 0 <= i < |servers| => FileCount(servers, stores, bucket, servers[i], listings[i]))
  }

  // ---------------------------------------------------------------------------
  // The dict built by `dict(zip(servers, results))`

  /** A Python dict as its entries in insertion order. */
  type Dict = seq<(string, Count)>

  predicate DistinctKeys(d: Dict) {
    forall i, j :: 0 <= i < j < |d| ==> d[i].0 != d[j].0
  }

  predicate HasKey(d: Dict, k: string) {
    exists i :: 0 <= i < |d| && d[i].0 == k
  }

  /** The position of the first entry with key `k`, or -1. */
  function IndexOf(d: Dict, k: string): (r: int)
    ensures -1 <= r < |d|
    ensures r >= 0 ==> d[r].0 == k
    ensures forall i :: 0 <= i < |d| && (r < 0 || i < r) ==> d[i].0 != k
  {
    if d == [] then -1
    else
      var i := IndexOf(d[..|d| - 1], k);
      if i >= 0 then i
      else if d[|d| - 1].0 == k then |d| - 1
      else -1
  }

  /** `d[k] = v`: a key already present keeps its place and takes the new value; a new key goes last. */
  function Assign(d: Dict, k: string, v: Count): (r: Dict)
    ensures DistinctKeys(d) ==> DistinctKeys(r)
  {
    var i := IndexOf(d, k);
    if i < 0 then d + [(k, v)] else d[i := (k, v)]
  }

  /** The entries after `d[k] = v`: the old keys in their places, `k` present with `v`. */
  lemma AssignShape(d: Dict, k: string, v: Count)
    ensures var r := Assign(d, k, v);
      && (|r| == |d| || r == d + [(k, v)])
      && (HasKey(d, k) <==> |r| == |d|)
      && (forall i :: 0 <= i < |d| ==> r[i].0 == d[i].0)
      && (forall i :: 0 <= i < |r| ==> r[i] == (k, v) || (i < |d| && r[i] == d[i]))
      && HasKey(r, k)
  {
    var i := IndexOf(d, k);
    if i < 0 {
      assert (d + [(k, v)])[|d|].0 == k;
    } else {
      assert d[i := (k, v)][i].0 == k;
    }
  }

  /** A key present before `d[k] = v` is present after it. */
  lemma AssignKeepsKey(d: Dict, k: string, v: Count, key: string)
    requires HasKey(d, key)
    ensures HasKey(Assign(d, k, v), key)
  {
    var i :| 0 <= i < |d| && d[i].0 == key;
    AssignShape(d, k, v);
    assert Assign(d, k, v)[i].0 == key;
  }

  /** `d[k]` for a key present in `d`. */
  function Lookup(d: Dict, k: string): Count
    requires HasKey(d, k)
  {
    d[IndexOf(d, k)].1
  }

  /** `dict(zip(ks, vs))`: the pairs assigned from left to right. */
  function ZipDict(ks: seq<string>, vs: seq<Count>): Dict
    requires |ks| == |vs|
  {
    if ks == [] then []
    else Assign(ZipDict(ks[..|ks| - 1], vs[..|vs| - 1]), ks[|ks| - 1], vs[|vs| - 1])
  }

  /** The plain pairing of keys with values. */
  function Zip(ks: seq<string>, vs: seq<Count>): (r: Dict)
    requires |ks| == |vs|
    ensures |r| == |ks| && forall i :: 0 <= i < |ks| ==> r[i] == (ks[i], vs[i])
  {
    seq(|ks|, i requires 0 <= i < |ks| => (ks[i], vs[i]))
  }

  /** The dict never holds a key twice. */
  lemma {:induction false} ZipDictDistinct(ks: seq<string>, vs: seq<Count>)
    requires |ks| == |vs|
    ensures DistinctKeys(ZipDict(ks, vs))
  {
    if ks != [] {
      ZipDictDistinct(ks[..|ks| - 1], vs[..|vs| - 1]);
    }
  }

  /** The first server is the first entry. */
  lemma {:induction false} ZipDictFirst(ks: seq<string>, vs: seq<Count>)
    requires |ks| == |vs| && ks != []
    ensures |ZipDict(ks, vs)| > 0 && ZipDict(ks, vs)[0].0 == ks[0]
  {
    var n := |ks| - 1;
    if n > 0 {
      ZipDictFirst(ks[..n], vs[..n]);
      AssignShape(ZipDict(ks[..n], vs[..n]), ks[n], vs[n]);
    }
  }

  /** Every server has an entry. */
  lemma {:induction false} ZipDictKeys(ks: seq<string>, vs: seq<Count>)
    requires |ks| == |vs|
    ensures forall j :: 0 <= j < |ks| ==> HasKey(ZipDict(ks, vs), ks[j])
  {
    if ks != [] {
      var n := |ks| - 1;
      ZipDictKeys(ks[..n], vs[..n]);
      var d' := ZipDict(ks[..n], vs[..n]);
      assert ZipDict(ks, vs) == Assign(d', ks[n], vs[n]);
      forall j | 0 <= j < |ks| ensures HasKey(Assign(d', ks[n], vs[n]), ks[j]) {
        if j < n {
          assert ks[..n][j] == ks[j];
          AssignKeepsKey(d', ks[n], vs[n], ks[j]);
        } else {
          AssignShape(d', ks[n], vs[n]);
        }
      }
    }
  }

  /** Every entry pairs a listed server with one of its counts. */
  lemma {:induction false} ZipDictEntries(ks: seq<string>, vs: seq<Count>)
    requires |ks| == |vs|
    ensures forall i :: 0 <= i < |ZipDict(ks, vs)| ==> exists j :: 0 <= j < |ks| && ZipDict(ks, vs)[i] == (ks[j], vs[j])
  {
    if ks != [] {
      var n := |ks| - 1;
      var ks', vs' := ks[..n], vs[..n];
      ZipDictEntries(ks', vs');
      var d', d := ZipDict(ks', vs'), ZipDict(ks, vs);
      AssignShape(d', ks[n], vs[n]);
      forall i | 0 <= i < |d| ensures exists j :: 0 <= j < |ks| && d[i] == (ks[j], vs[j]) {
        assert d == Assign(d', ks[n], vs[n]);
        if d[i] == (ks[n], vs[n]) {
          assert 0 <= n < |ks|;
        } else {
          assert i < |d'| && d[i] == d'[i];
          assert exists j :: 0 <= j < |ks'| && d'[i] == (ks'[j], vs'[j]);
          var j :| 0 <= j < |ks'| && d'[i] == (ks'[j], vs'[j]);
          assert d[i] == (ks[j], vs[j]);
        }
      }
      assert forall i :: 0 <= i < |d| ==> exists j :: 0 <= j < |ks| && d[i] == (ks[j], vs[j]);
    } else {
      assert ZipDict(ks, vs) == [];
    }
  }

  /** The dict's shape, as the placement needs it. */
  lemma ZipDictShape(ks: seq<string>, vs: seq<Count>)
    requires |ks| == |vs|
    ensures var d := ZipDict(ks, vs);
      && DistinctKeys(d)
      && (ks != [] ==> |d| > 0 && d[0].0 == ks[0])
      && (forall j :: 0 <= j < |ks| ==> HasKey(d, ks[j]))
      && (forall i :: 0 <= i < |d| ==> exists j :: 0 <= j < |ks| && d[i] == (ks[j], vs[j]))
  {
    ZipDictDistinct(ks, vs);
    if ks != [] {
      ZipDictFirst(ks, vs);
    }
    ZipDictKeys(ks, vs);
    ZipDictEntries(ks, vs);
  }

  /** `IndexOf` is determined by its contract. */
  lemma IndexOfIs(d: Dict, k: string, p: int)
    requires -1 <= p < |d|
    requires p >= 0 ==> d[p].0 == k
    requires forall i :: 0 <= i < |d| && (p < 0 || i < p) ==> d[i].0 != k
    ensures IndexOf(d, k) == p
  {
  }

  /** After `d[k] = v`, `k` reads `v` and every other key reads what it read before. */
  lemma AssignLookup(d: Dict, k: string, v: Count, k': string)
    requires HasKey(d, k') || k' == k
    ensures HasKey(Assign(d, k, v), k')
    ensures k' == k ==> Lookup(Assign(d, k, v), k') == v
    ensures k' != k ==> Lookup(Assign(d, k, v), k') == Lookup(d, k')
  {
    var r := Assign(d, k, v);
    AssignShape(d, k, v);
    var p := IndexOf(d, k');
    if p >= 0 {
      IndexOfIs(r, k', p);
    } else {
      IndexOfIs(r, k', |d|);
    }
  }

  /** A server's entry holds the count of its last occurrence in the list. */
  lemma {:induction false} ZipDictValue(ks: seq<string>, vs: seq<Count>, j: nat)
    requires |ks| == |vs| && j < |ks|
    requires forall j' :: j < j' < |ks| ==> ks[j'] != ks[j]
    ensures HasKey(ZipDict(ks, vs), ks[j])
    ensures Lookup(ZipDict(ks, vs), ks[j]) == vs[j]
  {
    var n := |ks| - 1;
    var d' := ZipDict(ks[..n], vs[..n]);
    if j < n {
      ZipDictValue(ks[..n], vs[..n], j);
      assert ks[..n][j] == ks[j];
    }
    AssignLookup(d', ks[n], vs[n], ks[j]);
  }

  /** With no server listed twice the dict is exactly the zipped pairs. */
  lemma {:induction false} ZipDictOfDistinct(ks: seq<string>, vs: seq<Count>)
    requires |ks| == |vs|
    requires forall i, j :: 0 <= i < j < |ks| ==> ks[i] != ks[j]
    ensures ZipDict(ks, vs) == Zip(ks, vs)
  {
    if ks != [] {
      var n := |ks| - 1;
      var ks', vs' := ks[..n], vs[..n];
      assert ks' + [ks[n]] == ks && vs' + [vs[n]] == vs;
      assert ZipDict(ks, vs) == Assign(ZipDict(ks', vs'), ks[n], vs[n]);
      ZipDictOfDistinct(ks', vs');
      assert ks[n] !in ks' by {
        forall i | 0 <= i < n ensures ks'[i] != ks[n] {
          assert ks'[i] == ks[i];
        }
      }
      AssignFresh(ks', vs', ks[n], vs[n]);
    }
  }

  /** Assigning a key not yet present appends the pair. */
  lemma AssignFresh(ks: seq<string>, vs: seq<Count>, k: string, v: Count)
    requires |ks| == |vs| && k !in ks
    ensures Assign(Zip(ks, vs), k, v) == Zip(ks + [k], vs + [v])
  {
    var d := Zip(ks, vs);
    forall i | 0 <= i < |d| ensures d[i].0 != k {
      assert d[i].0 == ks[i];
    }
    IndexOfIs(d, k, -1);
    assert forall i :: 0 <= i < |ks| + 1 ==> (d + [(k, v)])[i] == ((ks + [k])[i], (vs + [v])[i]);
  }

  // ---------------------------------------------------------------------------
  // `min(server_counts, key=lambda k: server_counts[k])`

  /**
   * The position `min` settles on: it walks the entries in order and moves only to a
   * strictly smaller count, so it ends on the first minimum.
   */
  function FirstMin(d: Dict): (r: nat)
    requires |d| > 0
    ensures r < |d|
    ensures forall j :: 0 <= j < |d| ==> AtMost(d[r].1, d[j].1)
    ensures forall j :: 0 <= j < r ==> Below(d[r].1, d[j].1)
  {
    if |d| == 1 then 0
    else
      var m := FirstMin(d[..|d| - 1]);
      if Below(d[|d| - 1].1, d[m].1) then |d| - 1 else m
  }

  /**
   * The server `get_least_loaded_server` returns for the gathered counts, when the cache
   * write succeeds or raises (`cacheUp`); every failure falls back to `s3_servers[0]`,
   * which itself raises on an empty list.
   */
  function Placement(servers: seq<string>, counts: seq<Count>, cacheUp: bool): (r: Result<string, PoolError>)
    requires |counts| == |servers|
    ensures r.Err? <==> servers == []
    ensures r.Err? ==> r.error == IndexError
    ensures r.Ok? ==> r.value in servers
    ensures !cacheUp && servers != [] ==> r == Ok(servers[0])
  {
    if servers == [] then Err(IndexError)
    else if !cacheUp then Ok(servers[0])
    else
      ZipDictShape(servers, counts);
      var d := ZipDict(servers, counts);
      var k := d[FirstMin(d)].0;
      assert exists j :: 0 <= j < |servers| && k == servers[j];
      Ok(k)
  }

  /**
   * With distinct servers the placement is the first server, in configured order,
   * whose count is at most every other count.
   */
  lemma PlacementIsFirstMinimum(servers: seq<string>, counts: seq<Count>) returns (k: nat)
    requires |counts| == |servers| && servers != []
    requires forall i, j :: 0 <= i < j < |servers| ==> servers[i] != servers[j]
    ensures k < |servers| && Placement(servers, counts, true) == Ok(servers[k])
    ensures forall i :: 0 <= i < |servers| ==> AtMost(counts[k], counts[i])
    ensures forall i :: 0 <= i < k ==> Below(counts[k], counts[i])
  {
    ZipDictOfDistinct(servers, counts);
    k := FirstMin(Zip(servers, counts));
  }

  /**
   * Whatever the list, the placement's count in the published dict is at most the
   * count the dict holds for every configured server.
   */
  lemma PlacementIsLeastLoaded(servers: seq<string>, counts: seq<Count>)
    requires |counts| == |servers| && servers != []
    ensures var d := ZipDict(servers, counts);
      var chosen := Placement(servers, counts, true).value;
      && HasKey(d, chosen)
      && forall i :: 0 <= i < |servers| ==> HasKey(d, servers[i]) && AtMost(Lookup(d, chosen), Lookup(d, servers[i]))
  {
    ZipDictShape(servers, counts);
    var d := ZipDict(servers, counts);
    var m := FirstMin(d);
    assert IndexOf(d, d[m].0) == m;
    forall i | 0 <= i < |servers| ensures AtMost(Lookup(d, d[m].0), Lookup(d, servers[i])) {
      var p := IndexOf(d, servers[i]);
      assert AtMost(d[m].1, d[p].1);
    }
  }

  /** When every server reports the same count (all infinite, say) the first server is chosen. */
  lemma TieGoesToFirst(servers: seq<string>, counts: seq<Count>)
    requires |counts| == |servers| && servers != []
    requires forall i :: 0 <= i < |counts| ==> counts[i] == counts[0]
    ensures Placement(servers, counts, true) == Ok(servers[0])
  {
    ZipDictShape(servers, counts);
    var d := ZipDict(servers, counts);
    var m := FirstMin(d);
  }

  // ---------------------------------------------------------------------------
  // Writes

  /** The stores after `put_object` wrote `content` as `name` in `bucket` on `server`. */
  function Written(stores: map<string, Store>, server: string, bucket: string, name: string,
                   content: Bytes): (r: map<string, Store>)
    ensures server in r && r[server] == StoreOf(stores, server)[(bucket, name) := content]
    ensures forall s :: s != server ==> StoreOf(r, s) == StoreOf(stores, s)
  {
    stores[server := StoreOf(stores, server)[(bucket, name) := content]]
  }

  /** What `S3Client.upload_file` returns or raises for a put. */
  function PutResult(put: PutOutcome): (r: Result<bool, PoolError>)
    ensures r.Ok? <==> put != PutRaises
    ensures r.Ok? ==> (r.value <==> put == Stored)
  {
    match put
    case Stored => Ok(true)
    case PutError => Ok(false)
    case PutRaises => Err(PutRaised)
  }

  /** What `upload_file` returns or raises: the placement's error, the put's exception, or the pair. */
  function UploadResult(placed: Result<string, PoolError>, put: PutOutcome): (r: Result<(string, bool), PoolError>)
    ensures r.Ok? <==> placed.Ok? && put != PutRaises
    ensures r.Ok? ==> r.value == (placed.value, put == Stored)
    ensures placed.Err? ==> r == Err(placed.error)
  {
    if placed.Err? then Err(placed.error)
    else match PutResult(put)
      case Ok(written) => Ok((placed.value, written))
      case Err(e) => Err(e)
  }

  /** The stores after an upload that returned `r`: written only when the put reported success. */
  function StoresAfter(stores: map<string, Store>, r: Result<(string, bool), PoolError>, bucket: string,
                       name: string, content: Bytes): map<string, Store>
  {
    if r.Ok? && r.value.1 then Written(stores, r.value.0, bucket, name, content) else stores
  }

  /** A write adds one object to its bucket's count unless the name was already taken. */
  lemma ObjectCountAfterWrite(store: Store, bucket: string, name: string, content: Bytes, other: string)
    ensures ObjectCount(store[(bucket, name) := content], bucket) ==
      ObjectCount(store, bucket) + (if (bucket, name) in store then 0 else 1)
    ensures other != bucket ==> ObjectCount(store[(bucket, name) := content], other) == ObjectCount(store, other)
  {
    var after := store[(bucket, name) := content];
    var before := set k | k in store && k.0 == bucket;
    assert (set k | k in after && k.0 == bucket) == before + {(bucket, name)};
    assert (set k | k in after && k.0 == other) == (set k | k in store && k.0 == other) || other == bucket;
  }

  /**
   * A successful write is seen by the next count of the same server: a new object
   * raises it by one; every other server's count is unchanged.
   */
  lemma CountAfterWrite(servers: seq<string>, stores: map<string, Store>, bucket: string,
                        server: string, name: string, content: Bytes, other: string)
    requires server in servers
    ensures var after := Written(stores, server, bucket, name, content);
      && FileCount(servers, after, bucket, server, Listed) ==
         Finite(ObjectCount(StoreOf(stores, server), bucket) + (if (bucket, name) in StoreOf(stores, server) then 0 else 1))
      && (other != server ==> forall l :: FileCount(servers, after, bucket, other, l) == FileCount(servers, stores, bucket, other, l))
  {
    ObjectCountAfterWrite(StoreOf(stores, server), bucket, name, content, bucket);
  }

  /** The pool: its configured servers and bucket, the snapshot it publishes, and the servers' objects. */
  class Pool {
    const servers: seq<string>
    const bucket: string
    /** The cache entries this pool writes through its Redis client. */
    var published: map<string, Dict>
    /** The objects each server holds. */
    var stores: map<string, Store>

    constructor(servers: seq<string>, bucket: string, contents: map<string, Store>)
      ensures this.servers == servers && this.bucket == bucket
      ensures published == map[] && stores == contents
    {
      this.servers := servers;
      this.bucket := bucket;
      published := map[];
      stores := contents;
    }

    /**
     * `get_least_loaded_server`: gather the counts, publish the snapshot, take the first
     * minimum. `cacheUp` is false when the cache write raises.
     */
    method GetLeastLoadedServer(listings: seq<Listing>, cacheUp: bool) returns (r: Result<string, PoolError>)
      requires |listings| == |servers|
      modifies this`published
      ensures published == if cacheUp then old(published)[SnapshotKey := ZipDict(servers, Counts(servers, stores, bucket, listings))]
                           else old(published)
      ensures r == Placement(servers, Counts(servers, stores, bucket, listings), cacheUp)
    {
      var results := Counts(servers, stores, bucket, listings);
      var serverCounts := ZipDict(servers, results);
      if !cacheUp {
        if servers == [] {
          return Err(IndexError);
        }
        return Ok(servers[0]);
      }
      published := published[SnapshotKey := serverCounts];
      if serverCounts == [] {
        ZipDictShape(servers, results);
        return Err(IndexError);
      }
      ZipDictShape(servers, results);
      r := Ok(serverCounts[FirstMin(serverCounts)].0);
    }

    /** `S3Client.upload_file` on one server. */
    method Put(server: string, bucketName: string, name: string, content: Bytes, put: PutOutcome)
      returns (r: Result<bool, PoolError>)
      modifies this`stores
      ensures r == PutResult(put)
      ensures stores == if put == Stored then Written(old(stores), server, bucketName, name, content) else old(stores)
    {
      match put
      case Stored =>
        stores := Written(stores, server, bucketName, name, content);
        r := Ok(true);
      case PutError =>
        r := Ok(false);
      case PutRaises =>
        r := Err(PutRaised);
    }

    /** `upload_file`: place the object on the least loaded server and return that server with the put's result. */
    method UploadFile(bucketName: string, name: string, content: Bytes, listings: seq<Listing>,
                      cacheUp: bool, put: PutOutcome)
      returns (r: Result<(string, bool), PoolError>)
      requires |listings| == |servers|
      modifies this`published, this`stores
      ensures published == if cacheUp then old(published)[SnapshotKey := ZipDict(servers, Counts(servers, old(stores), bucket, listings))]
                           else old(published)
      ensures r == UploadResult(Placement(servers, Counts(servers, old(stores), bucket, listings), cacheUp), put)
      ensures stores == StoresAfter(old(stores), r, bucketName, name, content)
    {
      var least := GetLeastLoadedServer(listings, cacheUp);
      if least.Err? {
        return Err(least.error);
      }
      var result := Put(least.value, bucketName, name, content, put);
      if result.Err? {
        return Err(result.error);
      }
      r := Ok((least.value, result.value));
    }

    /** `upload_file_server`: put the object on the named server, which must be configured. */
    method UploadFileServer(bucketName: string, name: string, content: Bytes, server: string, put: PutOutcome)
      returns (r: Result<bool, PoolError>)
      modifies this`stores
      ensures server !in servers ==> r == Err(KeyError(server)) && stores == old(stores)
      ensures server in servers ==> r == PutResult(put)
      ensures server in servers ==>
        stores == if put == Stored then Written(old(stores), server, bucketName, name, content) else old(stores)
    {
      if server !in servers {
        return Err(KeyError(server));
      }
      r := Put(server, bucketName, name, content, put);
    }
  }
}
