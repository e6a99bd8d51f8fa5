/**
 * `upload_file_service` of `src/controllers/file_upload_controller.py`: validate the upload,
 * deduplicate it by content hash, place new content through the pool, record the metadata,
 * and register an embedding job whose status is `Pending`.
 *
 * The file cache (metadata by hash) and the general cache (job status) are two separate
 * Redis clients; both swallow their own errors, so a failed read is a miss and a failed
 * write is silently lost. Hashing, the clock and `uuid4` are parameters.
 */
module FileUploadController {
  import opened Outcomes
  import opened FileValidation
  import opened S3Pool

  /** A metadata record as the file cache hands it back; `users` may be missing. */
  datatype Metadata = Metadata(uploaded: string, server: (string, bool), users: Option<seq<string>>, fileType: string)

  /** A scheduled `process_embedding(file_hash, embedding_id, file)` call. */
  datatype Job = Job(fileHash: string, embeddingId: string, filename: Option<string>)

  /** The effects on the stores, in the order the controller issues them. */
  datatype Event =
    | ReadMetadata(hash: string)
    | UploadObject(hash: string)
    | WriteMetadata(hash: string)
    | WriteStatus(key: string)
    | Schedule(job: Job)

  /** Why the call ends with status 500. */
  datatype Cause =
    | Unsupported(invalid: ValidationError)
    | UsersMissing                     // `metadata["users"]` on a record without users
    | UploadRaised(raised: PoolError)  // an exception out of `s3_pool.upload_file`

  datatype HttpError = HttpError(status: int, cause: Cause)

  datatype Response = Response(message: string, embeddingId: string)

  /** How the external services behave during one call. */
  datatype Environment = Environment(
    metadataReadOk: bool,      // false: the file cache read fails and yields `None`
    listings: seq<Listing>,    // the pool's `list_objects` outcomes, one per server
    cacheUp: bool,             // the pool's snapshot write succeeds
    put: PutOutcome,           // the pool's `put_object` outcome
    metadataWriteOk: bool,     // the file cache write succeeds
    statusWriteOk: bool)       // the general cache write succeeds

  const StatusTtl: nat := 3600
  const Pending: string := "Pending"
  const Success: string := "File uploaded successfully"

  /** The general cache key of a job's status. */
  function StatusKey(embeddingId: string): (r: string)
    ensures |r| == |"embedding_status:"| + |embeddingId|
    ensures r[..|"embedding_status:"|] == "embedding_status:"
  {
    "embedding_status:" + embeddingId
  }

  /** Distinct jobs never share a status key. */
  lemma StatusKeyInjective(a: string, b: string)
    requires StatusKey(a) == StatusKey(b)
    ensures a == b
  {
    var n := |"embedding_status:"|;
    assert a == StatusKey(a)[n..];
    assert b == StatusKey(b)[n..];
  }

  /** The local merge of the duplicate branch: the caller is added unless already listed. */
  function MergeUsers(users: seq<string>, caller: string): (r: seq<string>)
    ensures caller in r
    ensures forall u :: u in r <==> u in users || u == caller
    ensures caller in users ==> r == users
    ensures caller !in users ==> r == users + [caller]
  {
    if caller in users then users else users + [caller]
  }

  predicate NoDuplicates(users: seq<string>) {
    forall i, j :: 0 <= i < j < |users| ==> users[i] != users[j]
  }

  /** A users list without repetitions stays without repetitions, and merging twice adds nothing. */
  lemma MergeKeepsUsersDistinct(users: seq<string>, caller: string)
    requires NoDuplicates(users)
    ensures NoDuplicates(MergeUsers(users, caller))
    ensures MergeUsers(MergeUsers(users, caller), caller) == MergeUsers(users, caller)
  {
    if caller !in users {
      var r := users + [caller];
      forall i, j | 0 <= i < j < |r| ensures r[i] != r[j] {
        if j == |users| {
          assert r[i] == users[i];
        }
      }
    }
  }

  /** The record written for new content: the caller is its only user. */
  function NewRecord(now: string, placed: (string, bool), caller: string, category: string): (r: Metadata)
    ensures r.users == Some([caller]) && NoDuplicates(r.users.value)
    ensures r.server == placed && r.fileType == category
  {
    Metadata(now, placed, Some([caller]), category)
  }

  /** The upload object: its attributes, its content and whether it was closed. */
  class UploadFile {
    var filename: Option<string>
    var fileType: Option<string>
    const content: Bytes
    var closed: bool

    constructor(filename: Option<string>, content: Bytes)
      ensures this.filename == filename && this.content == content
      ensures fileType == None && !closed
    {
      this.filename := filename;
      this.content := content;
      fileType := None;
      closed := false;
    }
  }

  /** The two caches, the background task list and the effect log. */
  class AppState {
    /** The file cache: metadata records by content hash. */
    var metadata: map<string, Metadata>
    /** The general cache: a value and its expiry in seconds, by key. */
    var status: map<string, (string, nat)>
    var tasks: seq<Job>
    var log: seq<Event>

    constructor(metadata: map<string, Metadata>, status: map<string, (string, nat)>)
      ensures this.metadata == metadata && this.status == status
      ensures tasks == [] && log == []
    {
      this.metadata := metadata;
      this.status := status;
      tasks := [];
      log := [];
    }

    /** `process_embedding` as the controller schedules it: a stub that does nothing. */
    method ProcessEmbedding(job: Job)
      ensures metadata == old(metadata) && status == old(status) && tasks == old(tasks)
    {
    }

    /** Write the `Pending` status, schedule the job and answer with its id. */
    method CreateJob(hash: string, embeddingId: string, filename: Option<string>, statusWriteOk: bool)
      returns (r: Response)
      modifies this`status, this`tasks, this`log
      ensures r == Response(Success, embeddingId)
      ensures status == if statusWriteOk then old(status)[StatusKey(embeddingId) := (Pending, StatusTtl)] else old(status)
      ensures tasks == old(tasks) + [Job(hash, embeddingId, filename)]
      ensures log == old(log) + [WriteStatus(StatusKey(embeddingId)), Schedule(Job(hash, embeddingId, filename))]
    {
      var key := StatusKey(embeddingId);
      log := log + [WriteStatus(key)];
      if statusWriteOk {
        status := status[key := (Pending, StatusTtl)];
      }
      var job := Job(hash, embeddingId, filename);
      tasks := tasks + [job];
      log := log + [Schedule(job)];
      r := Response(Success, embeddingId);
    }

    /**
     * What the call does once the file is valid, for content hash `hash` of category
     * `category`: the duplicate branch when the cache read finds the hash, the new-object
     * branch otherwise.
     */
    twostate predicate Ingested(pool: Pool, hash: string, content: Bytes, category: string, caller: string,
                                bucketName: string, embeddingId: string, filename: Option<string>, now: string,
                                env: Environment, new r: Result<Response, HttpError>)
      reads this, pool
      requires |env.listings| == |pool.servers|
    {
      var job := Job(hash, embeddingId, filename);
      var scheduled := if env.statusWriteOk then old(status)[StatusKey(embeddingId) := (Pending, StatusTtl)] else old(status);
      var counts := Counts(pool.servers, old(pool.stores), pool.bucket, env.listings);
      var placed := Placement(pool.servers, counts, env.cacheUp);
      if env.metadataReadOk && hash in old(metadata) then
        // Duplicate: no upload, no snapshot, and the record is left as it was.
        && metadata == old(metadata)
        && pool.stores == old(pool.stores) && pool.published == old(pool.published)
        && (old(metadata)[hash].users.None? ==>
              && r == Err(HttpError(500, UsersMissing))
              && status == old(status) && tasks == old(tasks)
              && log == old(log) + [ReadMetadata(hash)])
        && (old(metadata)[hash].users.Some? ==>
              && r == Ok(Response(Success, embeddingId))
              && status == scheduled && tasks == old(tasks) + [job]
              && log == old(log) + [ReadMetadata(hash), WriteStatus(StatusKey(embeddingId)), Schedule(job)])
      else
        // New content: placement, upload under the bare hash, record, job.
        var uploaded := UploadResult(placed, env.put);
        && pool.published == (if env.cacheUp then old(pool.published)[SnapshotKey := ZipDict(pool.servers, counts)]
                              else old(pool.published))
        && pool.stores == StoresAfter(old(pool.stores), uploaded, bucketName, hash, content)
        && (uploaded.Err? ==>
              && r == Err(HttpError(500, UploadRaised(uploaded.error)))
              && metadata == old(metadata) && status == old(status) && tasks == old(tasks)
              && log == old(log) + [ReadMetadata(hash), UploadObject(hash)])
        && (uploaded.Ok? ==>
              && r == Ok(Response(Success, embeddingId))
              && metadata == (if env.metadataWriteOk then old(metadata)[hash := NewRecord(now, uploaded.value, caller, category)]
                              else old(metadata))
              && status == scheduled && tasks == old(tasks) + [job]
              && log == old(log) + [ReadMetadata(hash), UploadObject(hash), WriteMetadata(hash),
                                    WriteStatus(StatusKey(embeddingId)), Schedule(job)])
    }

    /** Everything after validation: the cache lookup, either branch, and the job. */
    method Ingest(pool: Pool, hash: string, content: Bytes, category: string, caller: string,
                  bucketName: string, embeddingId: string, filename: Option<string>, now: string, env: Environment)
      returns (r: Result<Response, HttpError>)
      requires |env.listings| == |pool.servers|
      modifies this, pool
      ensures Ingested(pool, hash, content, category, caller, bucketName, embeddingId, filename, now, env, r)
    {
      log := log + [ReadMetadata(hash)];
      if env.metadataReadOk && hash in metadata {
        r := Duplicate(hash, caller, embeddingId, filename, env.statusWriteOk);
      } else {
        r := Store(pool, hash, content, category, caller, bucketName, embeddingId, filename, now, env);
      }
    }

    /** The duplicate branch: the stored record is read, merged locally, and left as it was. */
    method Duplicate(hash: string, caller: string, embeddingId: string, filename: Option<string>, statusWriteOk: bool)
      returns (r: Result<Response, HttpError>)
      requires hash in metadata
      modifies this`status, this`tasks, this`log
      ensures metadata[hash].users.None? ==>
        r == Err(HttpError(500, UsersMissing)) && status == old(status) && tasks == old(tasks) && log == old(log)
      ensures metadata[hash].users.Some? ==>
        && r == Ok(Response(Success, embeddingId))
        && status == (if statusWriteOk then old(status)[StatusKey(embeddingId) := (Pending, StatusTtl)] else old(status))
        && tasks == old(tasks) + [Job(hash, embeddingId, filename)]
        && log == old(log) + [WriteStatus(StatusKey(embeddingId)), Schedule(Job(hash, embeddingId, filename))]
    {
      var existing := metadata[hash];
      if existing.users.None? {
        return Err(HttpError(500, UsersMissing));
      }
      // The merged list lives only in this local record; it is never written back.
      var merged := existing.(users := Some(MergeUsers(existing.users.value, caller)));
      var response := CreateJob(hash, embeddingId, filename, statusWriteOk);
      r := Ok(response);
    }

    /** The new-object branch: upload through the pool, write the record, create the job. */
    method Store(pool: Pool, hash: string, content: Bytes, category: string, caller: string,
                 bucketName: string, embeddingId: string, filename: Option<string>, now: string, env: Environment)
      returns (r: Result<Response, HttpError>)
      requires |env.listings| == |pool.servers|
      modifies this`metadata, this`status, this`tasks, this`log, pool`stores, pool`published
      ensures var counts := Counts(pool.servers, old(pool.stores), pool.bucket, env.listings);
        var uploaded := UploadResult(Placement(pool.servers, counts, env.cacheUp), env.put);
        && pool.published == (if env.cacheUp then old(pool.published)[SnapshotKey := ZipDict(pool.servers, counts)]
                              else old(pool.published))
        && pool.stores == StoresAfter(old(pool.stores), uploaded, bucketName, hash, content)
        && (uploaded.Err? ==>
              && r == Err(HttpError(500, UploadRaised(uploaded.error)))
              && metadata == old(metadata) && status == old(status) && tasks == old(tasks)
              && log == old(log) + [UploadObject(hash)])
        && (uploaded.Ok? ==>
              && r == Ok(Response(Success, embeddingId))
              && metadata == (if env.metadataWriteOk then old(metadata)[hash := NewRecord(now, uploaded.value, caller, category)]
                              else old(metadata))
              && status == (if env.statusWriteOk then old(status)[StatusKey(embeddingId) := (Pending, StatusTtl)] else old(status))
              && tasks == old(tasks) + [Job(hash, embeddingId, filename)]
              && log == old(log) + [UploadObject(hash), WriteMetadata(hash),
                                    WriteStatus(StatusKey(embeddingId)), Schedule(Job(hash, embeddingId, filename))])
    {
      log := log + [UploadObject(hash)];
      var uploaded := pool.UploadFile(bucketName, hash, content, env.listings, env.cacheUp, env.put);
      if uploaded.Err? {
        return Err(HttpError(500, UploadRaised(uploaded.error)));
      }
      // The result is a `(server, ok)` pair, which is always truthy: `ok == false` is stored, not refused.
      var response := Record(hash, uploaded.value, caller, category, now, embeddingId, filename,
                             env.metadataWriteOk, env.statusWriteOk);
      r := Ok(response);
    }

    /** After a successful upload: write the record of the new content, then create the job. */
    method Record(hash: string, placed: (string, bool), caller: string, category: string, now: string,
                  embeddingId: string, filename: Option<string>, metadataWriteOk: bool, statusWriteOk: bool)
      returns (r: Response)
      modifies this`metadata, this`status, this`tasks, this`log
      ensures r == Response(Success, embeddingId)
      ensures metadata == if metadataWriteOk then old(metadata)[hash := NewRecord(now, placed, caller, category)] else old(metadata)
      ensures status == if statusWriteOk then old(status)[StatusKey(embeddingId) := (Pending, StatusTtl)] else old(status)
      ensures tasks == old(tasks) + [Job(hash, embeddingId, filename)]
      ensures log == old(log) + [WriteMetadata(hash), WriteStatus(StatusKey(embeddingId)), Schedule(Job(hash, embeddingId, filename))]
    {
      log := log + [WriteMetadata(hash)];
      if metadataWriteOk {
        metadata := metadata[hash := NewRecord(now, placed, caller, category)];
      }
      r := CreateJob(hash, embeddingId, filename, statusWriteOk);
    }

    /**
     * `upload_file_service`. Validation runs first and an unsupported name changes nothing;
     * otherwise the file's content hash is ingested. The file is closed on every path.
     */
    method UploadFileService(pool: Pool, file: UploadFile, caller: string, sha: Bytes -> string,
                             bucketName: string, embeddingId: string, now: string, env: Environment)
      returns (r: Result<Response, HttpError>)
      requires |env.listings| == |pool.servers|
      modifies this, pool, file
      ensures file.closed && file.filename == old(file.filename)
      ensures var checked := FileValidation.FileValidation(FileObject(old(file.filename), old(file.fileType)));
        && (checked.Err? ==>
              && r == Err(HttpError(500, Unsupported(checked.error)))
              && file.fileType == old(file.fileType)
              && metadata == old(metadata) && status == old(status) && tasks == old(tasks) && log == old(log)
              && pool.stores == old(pool.stores) && pool.published == old(pool.published))
        && (checked.Ok? ==>
              && file.fileType == checked.value.fileType
              && Ingested(pool, sha(file.content), file.content, checked.value.fileType.GetOr("TXT"), caller,
                          bucketName, embeddingId, old(file.filename), now, env, r))
    {
      var checked := FileValidation.FileValidation(FileObject(file.filename, file.fileType));
      if checked.Err? {
        file.closed := true;
        return Err(HttpError(500, Unsupported(checked.error)));
      }
      file.fileType := checked.value.fileType;
      var content := file.content;
      var hash := sha(content);
      // `getattr(file, "file_type", "TXT")`: validation has just set the attribute.
      var category := file.fileType.GetOr("TXT");
      r := Ingest(pool, hash, content, category, caller, bucketName, embeddingId, file.filename, now, env);
      file.closed := true;
    }
  }
}
