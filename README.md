# backend-core ingestion core, modelled in Dafny

This project models the core of the RIT RAG research tool's backend: how an upload is
classified, deduplicated, placed and turned into an embedding job; how the ingestion
worker lays out the objects it writes; and two developer tools: the route generator
`bearpath.py` and the error-code preprocessor `gen_error_codes.py`.

Modules, one per core source file, plus three helpers:

- `Outcomes`: `Option` and `Result`.
- `PyStr`: the Python string operations the core uses (`lower`, `upper`, `strip`,
  `split`, `join`, `find`, `rfind`, `startswith`, `endswith`, `isspace`, `replace`,
  `str(int)`). Case mapping covers ASCII letters only; the whitespace set is Python's full
  `str.isspace` set.
- `PySort`: `sorted()` on strings, with Python's code-point order.
- `Models` (`src/lib/models.py`): `FILE_TYPE_MAP` as a constant map.
- `FileValidation` (`src/services/file_validation.py`): `os.path.splitext` for POSIX paths,
  lower-casing and the table lookup.
- `S3Pool` (`src/lib/database/s3_pool.py`): per-server counts (a natural number or
  infinity), `dict(zip(...))` with Python's duplicate-key behaviour, the first-minimum
  choice, and the `Pool` class, whose methods publish the snapshot and write objects.
- `FileUploadController` (`src/controllers/file_upload_controller.py`): the `AppState`
  class. It holds the file cache, the general cache, the background tasks and an effect
  log, and `UploadFileService` runs one request against them.
- `Embedding` (`src/services/embedding.py`): the category check, the dispatch, the page
  split, and the write plan. The write plan is a log of index adds and uploads, built in
  loops that stop at the first call that raises.
- `Bearpath` (`tools/bearpath.py`): route segmentation, and the `RouteTree` class, a file
  system of directories and files that `EnsureDirectoryStructure` updates in place.
  Also the `extract_full_function` scanner, endpoint maps, aggregate keys and the
  generated `__init__.py` text.
- `GenErrorCodes` (`tools/gen_error_codes.py`): error codes from a SHA-256 parameter, the
  upward search for the enclosing `def`, and the per-file and per-walk rewriting loops
  with the error map they record.

External services are parameters:

- Redis, MinIO, the vector index and the AI clients;
- SHA-256, the clock and `uuid4`;
- the three chunking helpers that `embedding.py` calls but does not define.

Most calls that can fail take an outcome argument, and the model states what happens for
each outcome. The embedding and AI calls are total in the model, and the vector-index add,
which cannot raise, is given a failure flag anyway (see "Left out").

## Model

| member | source | states |
|---|---|---|
| Models.TableKeysWellFormed | src/lib/models.py:13-59 | every key is a dot followed by lower-case letters or digits, so it can be the output of `splitext` followed by `lower()` |
| Models.EmptyIsNotAKey | src/lib/models.py:13-59 | the empty extension is not a key |
| Models.TableValuesAreCategories | src/lib/models.py:13-59 | every value is one of `TXT`, `PHO`, `AUD`, `VID`, and all four occur |
| Models.CategoriesAreNotKeys | src/lib/models.py:13-59 | no category code (and not `PDF`) is a key, since the keys are extensions |
| Models.PdfIsText | src/lib/models.py:18 | `.pdf` maps to `TXT`, and `PDF` is never a value |
| Models.ImagesArePhotos | src/lib/models.py:37-45 | the nine image extensions map to `PHO` |
| Models.PhotosAreImages | src/lib/models.py:37-45 | only those extensions map to `PHO` |
| Models.AudioExtensionsAreAudio | src/lib/models.py:47-50 | the four audio extensions map to `AUD` |
| Models.AudioIsAudioExtensions | src/lib/models.py:47-50 | only those map to `AUD` |
| Models.VideoExtensionsAreVideo | src/lib/models.py:53-58 | the six video extensions map to `VID` |
| Models.VideoIsVideoExtensions | src/lib/models.py:53-58 | only those map to `VID` |
| Models.TableSize | src/lib/models.py:13-59 | the table has exactly 39 distinct keys, proved from the strictly increasing sorted key list |
| FileValidation.SplitExt | src/services/file_validation.py:6 | `splitext`: root + extension is the path; the extension is empty or one dot followed by no dot and no `/` |
| FileValidation.Classify | src/services/file_validation.py:6-10 | an accepted name yields one of the four category codes |
| FileValidation.FileValidation | src/services/file_validation.py:5-13 | on success the same file comes back with a `file_type` that is a category code |
| FileValidation.RejectedIffUnknown | src/services/file_validation.py:6-10 | validation fails exactly when the lower-cased extension is not a key, and the error carries that extension |
| FileValidation.ClassifyIgnoresCase | src/services/file_validation.py:6-7 | names equal up to letter case classify the same (`A.TXT` as `a.txt`) |
| FileValidation.SplitExtLower | src/services/file_validation.py:6-7 | lower-casing a path lower-cases its extension and nothing else |
| FileValidation.UpperCaseSuffixAccepted | src/services/file_validation.py:6-12 | `stem + upper(ext)` is accepted with `FILE_TYPE_MAP[ext]` |
| FileValidation.NoDotRejected | src/services/file_validation.py:6-10 | no dot in the last component: empty extension, rejected |
| FileValidation.LeadingDotsRejected | src/services/file_validation.py:6-10 | a last component of dots and one suffix (`.txt`, `..txt`) has an empty extension and is rejected |
| FileValidation.FinalSuffixDecides | src/services/file_validation.py:6-12 | only the final suffix counts (`a.tar.mp4` is `VID`) |
| FileValidation.ValidationIdempotent | src/services/file_validation.py:5-13 | validating a validated file gives the same result |
| S3Pool.FileCount | src/lib/database/s3_pool.py:93-106 | the count is infinite exactly when the server is not configured or its listing is `None` or raises; otherwise it is the exact object count of the bucket |
| S3Pool.Counts | src/lib/database/s3_pool.py:130-131 | one count per configured server, in list order |
| S3Pool.ZipDictDistinct | src/lib/database/s3_pool.py:132 | `dict(zip(...))` never holds a key twice |
| S3Pool.ZipDictKeys | src/lib/database/s3_pool.py:132 | every server has an entry |
| S3Pool.ZipDictValue | src/lib/database/s3_pool.py:132 | a server's entry holds the count of its last occurrence in the list |
| S3Pool.ZipDictOfDistinct | src/lib/database/s3_pool.py:132 | with no repeated server the dict is exactly the zipped pairs |
| S3Pool.FirstMin | src/lib/database/s3_pool.py:135 | `min` over the dict ends on an entry whose count is at most every count and strictly below every earlier one |
| S3Pool.Placement | src/lib/database/s3_pool.py:129-138 | the placement fails exactly when no server is configured (`s3_servers[0]` raises); otherwise it is a configured server, and it is `s3_servers[0]` when the cache write raises |
| S3Pool.PlacementIsFirstMinimum | src/lib/database/s3_pool.py:130-135 | with distinct servers the choice is the first server, in configured order, whose count is at most every count |
| S3Pool.PlacementIsLeastLoaded | src/lib/database/s3_pool.py:130-135 | in every case the chosen server's published count is at most every configured server's |
| S3Pool.TieGoesToFirst | src/lib/database/s3_pool.py:132-135 | equal counts (all infinite, say) choose the first server |
| S3Pool.PutResult | src/lib/database/s3_pool.py:184-189 | a put returns true exactly when the object was stored and raises only when the client raises |
| S3Pool.UploadResult | src/lib/database/s3_pool.py:182-191 | `upload_file` returns `(placement, put result)`, or the error of whichever step raised |
| S3Pool.CountAfterWrite | src/lib/database/s3_pool.py:93-106 | a stored object raises the same server's next count by one when its name is new; other servers' counts do not change |
| S3Pool.Pool.GetLeastLoadedServer | src/lib/database/s3_pool.py:129-138 | publishes the snapshot under `s3_server_file_count` (when the cache is up) and returns `Placement` of the gathered counts |
| S3Pool.Pool.Put | src/lib/database/s3_pool.py:184-189 | writes the object into the named server's store only when the put succeeds |
| S3Pool.Pool.UploadFile | src/lib/database/s3_pool.py:182-191 | places, then writes only to the chosen server, returning `UploadResult` |
| S3Pool.Pool.UploadFileServer | src/lib/database/s3_pool.py:240-247 | writes only to the named server and returns its put result; an unconfigured server raises `KeyError` with nothing written |
| FileUploadController.StatusKey | src/controllers/file_upload_controller.py:62 | the status key is `embedding_status:` followed by the job id |
| FileUploadController.StatusKeyInjective | src/controllers/file_upload_controller.py:62 | distinct jobs never share a status key |
| FileUploadController.MergeUsers | src/controllers/file_upload_controller.py:42-43 | the caller is added only when absent; the users otherwise are unchanged |
| FileUploadController.MergeKeepsUsersDistinct | src/controllers/file_upload_controller.py:42-43 | a list without repetitions stays so, and merging twice adds nothing |
| FileUploadController.NewRecord | src/controllers/file_upload_controller.py:52-57 | a new record lists the caller as its only user and stores the `(server, ok)` pair and the category |
| FileUploadController.AppState.CreateJob | src/controllers/file_upload_controller.py:61-64 | writes `Pending` with expiry 3600 under the job's key (unless the write fails silently), schedules the job and answers with the same id |
| FileUploadController.AppState.Duplicate | src/controllers/file_upload_controller.py:34-43 | the duplicate branch leaves the metadata as it was and uploads nothing; a record without `users` raises |
| FileUploadController.AppState.Store | src/controllers/file_upload_controller.py:45-58 | the new-object branch uploads under the bare hash before the metadata write; a `(server, false)` result is stored, not refused |
| FileUploadController.AppState.Record | src/controllers/file_upload_controller.py:52-64 | writes the new record, then the status, then schedules the job |
| FileUploadController.AppState.Ingest | src/controllers/file_upload_controller.py:34-64 | a cache hit takes the duplicate branch, a miss or a failed read the new-object branch; the effects happen in order |
| FileUploadController.AppState.UploadFileService | src/controllers/file_upload_controller.py:24-70 | an unsupported name becomes a 500 before any store is touched; otherwise the validated category (default `TXT`) is ingested under the content hash; the file is closed on every path |
| Embedding.Render | src/services/embedding.py:61-80 | the object key is `{hash}/embedings/` followed by the leaf (`{i}.TXT`, `{i}.TXT.ENB`, `{j}.PHO`, `{j}.PHO.ENB`, `data.json`) |
| Embedding.RenderInjective | src/services/embedding.py:61-80 | distinct objects of one content hash have distinct keys |
| Embedding.PhotoKeysAreNotTextKeys | src/services/embedding.py:61-77 | a photo key is never a chunk key, even for equal numbers |
| Embedding.RenderInjectiveAcrossHashes | src/services/embedding.py:61-80 | with hashes of one length (hex digests), equal keys mean the same object |
| Embedding.Gate | src/services/embedding.py:23-28 | as written, the category passes only when it is a key of the extension table |
| Embedding.GateIntended | src/services/embedding.py:23-28 | intended: the category passes exactly when the table produces it |
| Embedding.GateAdmitsNoDispatchable | src/services/embedding.py:27-47 | what passes the written check has no dispatch branch |
| Embedding.IntendedGateAdmitsCategories | src/services/embedding.py:27-47 | every category the table produces passes the intended check and has a branch |
| Embedding.Dispatch | src/services/embedding.py:35-47 | dispatch succeeds exactly for `PDF`, `TXT` (when the content decodes), `PHO`, `AUD` and `VID`; any other category raises; a photo upload is its own single photo, and text, audio and video have none |
| Embedding.PagesReachChunker | src/services/embedding.py:49-52 | a multi-page PDF reaches `chunk_text_by_page` with exactly its stripped pages when the pages separate cleanly from `/d/=/-t/` |
| Embedding.SlashFreePagesReachChunker | src/services/embedding.py:49-52 | pages without `/` always come back whole |
| Embedding.PageSplitAmbiguous | src/services/embedding.py:50-51 | pages that do not contain the separator can still split differently (`["/d/=/-t", "x"]`) |
| Embedding.ManifestOf | src/services/embedding.py:56 | the manifest counts the chunks and photos and records the id, hash, empty related data and original name and type |
| Embedding.Prepare | src/services/embedding.py:23-64 | the chunks, formatted photos and manifest, or the first error; an empty text leaves `text_chunks`/`embeding_data` unbound and raises |
| Embedding.StepThree | src/services/embedding.py:59-62 | the three calls of one chunk (or photo) are issued in order; the first that raises ends the run there, with `Raised` at its position |
| Embedding.TextLoop | src/services/embedding.py:57-62 | the chunk loop logs exactly the text phase of `Plan` when nothing raises, and otherwise ends at the first call that raises |
| Embedding.PhotoLoop | src/services/embedding.py:63-77 | the photo loop pairs photo `j` with chunk `j`; when nothing raises it logs the photo phase for the photos that have a chunk, and it reports the `IndexError` stop exactly when there are more photos than chunks; otherwise it ends at the first call that raises |
| Embedding.WritePlan | src/services/embedding.py:55-80 | issues the calls of `Plan` in order, stopping at the first call that raises or at a photo without a chunk of its number |
| Embedding.RanIsFunctional | src/services/embedding.py:55-80 | which calls raise decides the log and the result |
| Embedding.ChunkBeforeManifest | src/services/embedding.py:57-62 | chunk `i`: its index add, then `{i}.TXT`, then `{i}.TXT.ENB`, all before the manifest |
| Embedding.PhotoBeforeManifest | src/services/embedding.py:65-77 | photo `j`, numbered from 1 again, is embedded with chunk `j` and then writes `{j}.PHO` and `{j}.PHO.ENB`, all before the manifest |
| Embedding.ManifestOnlyLast | src/services/embedding.py:80 | the manifest is written once, as the last call |
| Embedding.CompletedRun | src/services/embedding.py:55-80 | when nothing raises and every photo has a chunk, the job makes `3·chunks + 3·photos + 1` calls and ends with the manifest |
| Embedding.EmptyTextRaises | src/services/embedding.py:49-80 | an empty text makes no call and ends in an unbound-name error |
| Embedding.ProcessEmbeddingAsWritten | src/services/embedding.py:12-80 | as written, every call ends in an error before any external call |
| Embedding.ProcessEmbedding | src/services/embedding.py:12-80 | with the intended check: an unknown category makes no call; a preparation error (the unsupported-type branch, a failed decode, an unbound name) makes no call and is the job's exact error; otherwise the write plan of the prepared chunks, photos and manifest runs |
| Embedding.AsWrittenNeverPrepares | src/services/embedding.py:23-47 | as written, nothing gets past the category check |
| Embedding.TextFileRefusedAsWritten | src/services/embedding.py:27-38 | a decodable text file is refused as written and processed with the intended check |
| Bearpath.Segments | tools/bearpath.py:46 | no segment is empty or holds `/` |
| Bearpath.SegmentsOfJoin | tools/bearpath.py:46 | segmenting `/a/b/` or `a/b` gives back the joined segments |
| Bearpath.SlashesOnly | tools/bearpath.py:46 | a path of slashes, or the empty path, has no segments |
| Bearpath.RouteDir | tools/bearpath.py:47-49 | directory `k` is `src/routes` followed by the first `k` segments |
| Bearpath.RouteTree.EnsureDirectory | tools/bearpath.py:49-60 | makes the directory with its parents and its missing `base.py` and `__init__.py`; files that exist are not overwritten; it fails with nothing changed when an ancestor is a regular file |
| Bearpath.RouteTree.EnsureDirectoryStructure | tools/bearpath.py:45-60 | on success every route directory holds both default modules; new directories are ancestors of the route; existing files are kept; new files are templates of route directories |
| Bearpath.FirstTargetFrom | tools/bearpath.py:72-82 | the first line from `i` that decorates the wanted method (any case) and route (exact) |
| Bearpath.BlockEndUnique | tools/bearpath.py:84-90 | the block that starts at a decorator has one end |
| Bearpath.FollowLine | tools/bearpath.py:75-91 | after the start, a line stops the function exactly when `Stops` holds (a router decorator, or a non-`def` line indented below the last `def` line or starting with `@router`); otherwise the tracked indentation is that of the last `def` line so far |
| Bearpath.ExtractFullFunction | tools/bearpath.py:66-92 | the extracted lines are the contiguous block from the first matching decorator to the next router decorator, or the first line indented below the `def`; there are none, and the text is `""`, when nothing matches |
| Bearpath.ExtractEndpoints | tools/bearpath.py:110-129 | the routes found are the keys; each entry has the upper-cased method of the route's last match; an unreadable file yields no endpoints |
| Bearpath.StemOfModule | tools/bearpath.py:176 | the stem of `x.py` is `x` |
| Bearpath.AggregateKey | tools/bearpath.py:172-177 | `__init__.py` gets no key; every other key starts with `/` |
| Bearpath.AggregateKeyOfModule | tools/bearpath.py:176 | `base.py` maps to `/` and only it; `x.py` maps to `/x` |
| Bearpath.AggregateKeyInjective | tools/bearpath.py:176 | different modules never share a key |
| Bearpath.AppendModuleLines | tools/bearpath.py:197-202 | appends one import (or include, lines 216-221) per module file in the given order, skipping `__init__.py` and `base.py` |
| Bearpath.AppendPackageLines | tools/bearpath.py:204-208 | appends one import (or include, lines 223-227) per package in the given order |
| Bearpath.InitTextParts | tools/bearpath.py:187-230 | the generated lines, position by position: header, base import, imports, empty line, router, base include, includes, final empty line |
| Bearpath.RouterIsIncluded | tools/bearpath.py:197-227 | every module or package router is both imported and included |
| Bearpath.UpdateInitImports | tools/bearpath.py:186-230 | the lines are `InitLines` of the sorted listing and the text is their newline join |
| Bearpath.ImportsBeforeRouter | tools/bearpath.py:187-230 | every import precedes the single `router = APIRouter()`; nothing after it is an import |
| Bearpath.BaseIncludedIff | tools/bearpath.py:193-214 | the base router is included with prefix `''` exactly when `base.py` exists |
| Bearpath.ModuleIsRouted | tools/bearpath.py:197-221 | each module other than `__init__.py` and `base.py` is imported and included with prefix `/{stem}` |
| Bearpath.PackageIsRouted | tools/bearpath.py:204-227 | each sub-package is imported and included with prefix `/{name}` |
| Bearpath.InitIgnoresOrder | tools/bearpath.py:197-227 | the text depends only on which files and packages exist, not on their listing order |
| GenErrorCodes.Hex | tools/gen_error_codes.py:10 | `hexdigest`: two lower-case hex digits per byte |
| GenErrorCodes.IdentifierInjective | tools/gen_error_codes.py:9 | with colon-free names the identifier determines file, function and line |
| GenErrorCodes.ErrorCode | tools/gen_error_codes.py:8-10 | a code is eight hex digits, those of the first four bytes of the digest of `file:func:line` |
| GenErrorCodes.GetFunctionName | tools/gen_error_codes.py:38-43 | the upward loop returns `FunctionName`, the name from the nearest `def` line at or above `idx` |
| GenErrorCodes.DefAbove | tools/gen_error_codes.py:40-43 | the line the name is read from is a `def` line at or above `idx` with no `def` line after it up to `idx`, or there is none and the name is `"global"` |
| GenErrorCodes.NameOfDef | tools/gen_error_codes.py:41-42 | `def name(...)`, however indented, is a definition and yields `name` |
| GenErrorCodes.AsyncDefIgnored | tools/gen_error_codes.py:41 | `async def` lines are not definitions |
| GenErrorCodes.RewriteChangesMarked | tools/gen_error_codes.py:22-30 | the line count is kept; a line changes exactly when it holds `Error #{error_code}`, and then it gets shorter |
| GenErrorCodes.RecordKeys | tools/gen_error_codes.py:25-28 | a marked line adds its own code to the map and no other |
| GenErrorCodes.ErrorMapKeys | tools/gen_error_codes.py:23-28 | the map's codes are the earlier ones plus those of the marked lines |
| GenErrorCodes.ErrorMapLastWins | tools/gen_error_codes.py:28 | a code maps to the file, function and 1-based line of the last line that records it |
| GenErrorCodes.ErrorMapKeeps | tools/gen_error_codes.py:28 | entries whose code no line records are kept |
| GenErrorCodes.RewriteLine | tools/gen_error_codes.py:24-30 | one loop turn gives the rewritten line and the updated map, or raises when the function name cannot be read |
| GenErrorCodes.PreprocessFile | tools/gen_error_codes.py:20-33 | succeeds exactly when every marked line's function name can be read; then every line is rewritten and the map extended, in line order |
| GenErrorCodes.PreprocessErrors | tools/gen_error_codes.py:12-36 | walks the files in order, rewriting only `.py` files; it stops at the first module that raises, with the earlier files already written; otherwise it returns the map threaded through every module |

## Left out

- Concurrency: `asyncio.gather`, `to_thread` and background tasks are modelled as sequential steps in list order.
- `float("inf")` and floats in general: a count is a natural number or infinity.
- Redis, MinIO, the vector index, the LLM and embedding clients, and JSON encoding are parameters or opaque values. The cache clients' swallowed errors are outcome flags.
- SHA-256 is a parameter, a total function to 32 bytes. UTF-8 encoding of identifiers is not modelled, so strings stand for their encodings.
- `chunk_text`, `chunk_text_by_page`, `format_photo_data`, `photo_to_text`, `audio_to_text`, `video_to_text` and PDF rendering are uninterpreted functions.
- The `text_chunks[chunck_id-1] == None` branch in `embedding.py` (lines 68-71) is never taken, because chunks are strings. It is not modelled.
- Letter case is ASCII only: Python's full Unicode case mapping is not modelled. Whitespace (`strip`, `split()`, indentation) uses Python's full `str.isspace` set.
- Authentication, user and dependency wrappers, `main.py`, `setup_servers.py` and the route files are not part of this model.
- `bearpath.py`: the regular expressions are the `Decorator` parameter, a line-to-optional-(method, route) function. `parse_function_signature` (`ast`) is left out, so an endpoint's parameters are not modelled.
- `bearpath.py`: `update_file_endpoints`, `update_init_file`, `create_route`, the recursive walk of `aggregate_directory_endpoints` and the command line are not modelled. `UpdateInitImports` takes the directory listing as sequences.
- `gen_error_codes.py`: the directory walk is a list of (file name, lines) pairs in walk order. Writing the JSON error database is not modelled; the returned map is what would be written.
- GenErrorCodes.ErrorCode: the identifier uses the bare file name, as the source does, so equal names in different directories share codes. The model does not add a directory.
- GenErrorCodes.PreprocessErrors: which entry wins across files is stated through `ErrorMapOfFiles`, whose per-file step is `ErrorMapAfter`; the per-file lemmas give the within-file facts.
- Embedding.WritePlan: `embedding_client.get_text_embedding` and `get_image_embedding` are total functions (`TextVector`, `ImageVector`), so a run in which an embedding request raises, with no write before it, is not modelled. `croma_client.add_document` catches every exception and returns false, so it never raises; `fails` at an index-add position over-approximates it with runs the program cannot have.
- Bearpath.RouteTree.EnsureDirectoryStructure (and Bearpath.RouteDir): "." and ".." segments are treated as ordinary directory names. `pathlib` drops a "." component and the operating system resolves "..", so for paths such as "/a/./b" or "/../x" the source creates or touches other directories than the model says.
- Embedding.ProcessEmbedding: the artifacts are placed through the pool in the source; the model logs the key and content of each upload, not the server each lands on.

## Findings

| source | as written | input that shows it | evidently intended | confidence | as-written member | corrected member |
|---|---|---|---|---|---|---|
| src/services/embedding.py:27-28 | `if file_type not in FILE_TYPE_MAP` tests the category code against the table's keys, which are extensions | a `.txt` upload: validation sets `file_type = "TXT"`, and `"TXT"` is not a key, so `ValueError("Unsupported file type: TXT")` is raised and nothing is embedded; this holds for every category | the check should accept the categories the table produces (`FILE_TYPE_MAP.values()`) | not executed | Embedding.ProcessEmbeddingAsWritten, Embedding.AsWrittenNeverPrepares | Embedding.ProcessEmbedding, Embedding.GateIntended |
