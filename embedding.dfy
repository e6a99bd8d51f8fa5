/**
 * `process_embedding` of `src/services/embedding.py`: check the file's category, turn its
 * content into text (and, for PDFs and photos, images), cut the text into chunks, and issue
 * the index adds and object writes for every chunk and photo, with the manifest last.
 *
 * The AI clients, the chunkers and `format_photo_data` are the fields of `Services`;
 * an embedding vector is the symbolic value `TextVector(..)`/`ImageVector(..)` of what was
 * embedded, so the embedding requests are total here. Every index add and every upload is a
 * position at which the run may stop: `fails(p)` says whether the `p`-th of them (counted
 * from 0) raises. An upload can raise; `add_document` catches its own errors and returns
 * false, so at an index add `fails` admits runs the program cannot have.
 */
module Embedding {
  import opened Outcomes
  import opened PyStr
  import opened Models
  import S3Pool

  type Bytes = S3Pool.Bytes

  /** The page separator `process_pdf` joins with and `process_embedding` splits on. */
  const PageSeparator: string := "/d/=/-t/"
  const ManifestVersion: string := "0.1.0"
  /** The categories the dispatch chain has a branch for. */
  const DispatchCodes: set<string> := {"PDF", "TXT", "PHO", "AUD", "VID"}

  /** An embedding, identified by what was embedded. */
  datatype Vector = TextVector(text: string) | ImageVector(text: string, photo: string)

  datatype Suffix = Txt | TxtVector | Pho | PhoVector

  /** An object written under `{hash}/embedings/`. */
  datatype ObjectName = Numbered(hash: string, id: nat, suffix: Suffix) | ManifestName(hash: string)

  /** `embeding_data`, the manifest. */
  datatype Manifest = Manifest(version: string, textChunks: nat, photos: nat, embeddingId: string,
                               hash: string, relatedData: seq<string>, originalName: string, originalType: string)

  /** What an upload carries, before its JSON or UTF-8 encoding. */
  datatype Payload = ChunkText(chunk: string) | VectorJson(vector: Vector) | PhotoJson(photo: string)
                   | ManifestJson(manifest: Manifest)

  /** One external effect. */
  datatype Op =
    | IndexAdd(collection: string, uri: string, vector: Vector, hash: string)  // `croma_client.add_document`
    | Upload(name: ObjectName, payload: Payload)  // `s3_pool.upload_file`: least-loaded placement, not the parent's server

  datatype ProcessError =
    | TypeNotSet                    // no `file_type` attribute
    | UnsupportedType(fileType: string)
    | DecodeFailed                  // `file_content.decode("utf-8")` raises
    | Unbound(variable: string)     // a local read before any assignment
    | IndexError                    // `text_chunks[chunck_id-1]` out of range
    | Raised(at: nat)               // the external call at this position raises

  /** The functions `process_embedding` calls but does not define. */
  datatype Services = Services(
    pdfPages: Bytes -> (seq<string>, seq<Bytes>),  // page texts and rendered page images
    decode: Bytes -> Option<string>,               // UTF-8 decoding, `None` when it raises
    photoToText: Bytes -> string,
    audioToText: Bytes -> string,
    videoToText: Bytes -> string,
    chunkText: string -> seq<string>,
    chunkTextByPage: seq<string> -> seq<string>,
    formatPhotoData: Bytes -> string)

  /** The attributes `process_embedding` reads off its file argument. */
  datatype EmbeddingFile = EmbeddingFile(fileName: Option<string>, fileExtension: Option<string>,
                                         fileType: Option<string>, content: Bytes)

  /** Where the results go: the content hash, the job id, the parent's server and the collection. */
  datatype Target = Target(hash: string, embeddingId: string, server: string, collection: string)

  // ---------------------------------------------------------------------------
  // Object names

  function SuffixText(s: Suffix): (r: string)
    ensures |r| >= 4 && r[0] == '.'
  {
    match s
    case Txt => ".TXT"
    case TxtVector => ".TXT.ENB"
    case Pho => ".PHO"
    case PhoVector => ".PHO.ENB"
  }

  const Folder: string := "/embedings/"

  /** What follows the folder: `{i}.TXT` and so on, or `data.json`. */
  function Leaf(name: ObjectName): (r: string)
    ensures |r| > 0
  {
    match name
    case Numbered(_, id, suffix) => Decimal(id) + SuffixText(suffix)
    case ManifestName(_) => "data.json"
  }

  /** The object key: `{hash}/embedings/{i}.TXT` and so on, or `{hash}/embedings/data.json`. */
  function Render(name: ObjectName): (r: string)
    ensures |r| > |name.hash| + |Folder| && r[..|name.hash| + |Folder|] == name.hash + Folder
    ensures r[|name.hash| + |Folder|..] == Leaf(name)
  {
    name.hash + Folder + Leaf(name)
  }

  lemma SuffixTextInjective(s: Suffix, t: Suffix)
    requires SuffixText(s) == SuffixText(t)
    ensures s == t
  {
  }

  /** A shorter run of digits ends where the longer one still has a digit. */
  lemma DigitsThenDot(d: string, s: string, e: string, t: string)
    requires |d| < |e| && (forall i :: 0 <= i < |e| ==> '0' <= e[i] <= '9')
    requires |s| > 0 && s[0] == '.'
    ensures d + s != e + t
  {
    assert (d + s)[|d|] == '.';
    assert (e + t)[|d|] == e[|d|];
  }

  /** The number and the suffix can be read back from their concatenation. */
  lemma NumberedTailInjective(i: nat, s: Suffix, j: nat, t: Suffix)
    requires Decimal(i) + SuffixText(s) == Decimal(j) + SuffixText(t)
    ensures i == j && s == t
  {
    var di, dj := Decimal(i), Decimal(j);
    if |di| < |dj| {
      DigitsThenDot(di, SuffixText(s), dj, SuffixText(t));
    } else if |dj| < |di| {
      DigitsThenDot(dj, SuffixText(t), di, SuffixText(s));
    } else {
      var x := di + SuffixText(s);
      assert di == x[..|di|] == dj;
      DecimalInjective(i, j);
      assert SuffixText(s) == x[|di|..] == SuffixText(t);
      SuffixTextInjective(s, t);
    }
  }

  /** A numbered leaf starts with a digit, the manifest's with `d`. */
  lemma NumberedIsNotManifest(name: ObjectName)
    requires name.Numbered?
    ensures Leaf(name) != "data.json"
  {
    assert Leaf(name)[0] == Decimal(name.id)[0];
  }

  /** Distinct objects have distinct leaves. */
  lemma LeafInjective(a: ObjectName, b: ObjectName)
    requires a.hash == b.hash && Leaf(a) == Leaf(b)
    ensures a == b
  {
    if a.Numbered? && b.Numbered? {
      NumberedTailInjective(a.id, a.suffix, b.id, b.suffix);
    } else if a.Numbered? {
      NumberedIsNotManifest(a);
    } else if b.Numbered? {
      NumberedIsNotManifest(b);
    }
  }

  /** Distinct objects of the same content hash have distinct keys. */
  lemma RenderInjective(a: ObjectName, b: ObjectName)
    requires a.hash == b.hash && Render(a) == Render(b)
    ensures a == b
  {
    var n := |a.hash| + |Folder|;
    assert Leaf(a) == Render(a)[n..] == Render(b)[n..] == Leaf(b);
    LeafInjective(a, b);
  }

  // ---------------------------------------------------------------------------
  // The category check and the dispatch

  /** Lines 23-28 as written: the category is looked up among the table's keys. */
  function Gate(fileType: Option<string>): (r: Result<string, ProcessError>)
    ensures fileType.None? ==> r == Err(TypeNotSet)
    ensures r.Ok? ==> fileType == Some(r.value) && r.value in FileTypeMap
  {
    match fileType
    case None => Err(TypeNotSet)
    case Some(t) => if t in FileTypeMap then Ok(t) else Err(UnsupportedType(t))
  }

  /** The check as evidently intended: the category is one the table produces. */
  function GateIntended(fileType: Option<string>): (r: Result<string, ProcessError>)
    ensures fileType.None? ==> r == Err(TypeNotSet)
    ensures r.Ok? ==> fileType == Some(r.value) && r.value in FileTypeMap.Values
    ensures fileType.Some? && fileType.value !in CategoryCodes ==> r == Err(UnsupportedType(fileType.value))
  {
    TableValuesAreCategories();
    match fileType
    case None => Err(TypeNotSet)
    case Some(t) => if t in CategoryCodes then Ok(t) else Err(UnsupportedType(t))
  }

  /** What passes the check as written has no branch in the dispatch chain. */
  lemma GateAdmitsNoDispatchable(fileType: Option<string>)
    requires Gate(fileType).Ok?
    ensures Gate(fileType).value !in DispatchCodes
  {
    KeyIsExtension(Gate(fileType).value);
  }

  /** Every category the table produces passes the intended check and has a branch. */
  lemma IntendedGateAdmitsCategories(fileType: Option<string>)
    requires fileType.Some? && fileType.value in FileTypeMap.Values
    ensures GateIntended(fileType) == Ok(fileType.value)
    ensures fileType.value in DispatchCodes
  {
    TableValuesAreCategories();
  }

  /** `process_pdf` after its page loop: the stripped page texts joined with the separator. */
  function ProcessPdf(pages: (seq<string>, seq<Bytes>)): (r: (string, seq<Bytes>))
    ensures r.1 == pages.1
  {
    (Join(StripAll(pages.0), PageSeparator), pages.1)
  }

  function StripAll(pages: seq<string>): (r: seq<string>)
    ensures |r| == |pages| && forall i :: 0 <= i < |pages| ==> r[i] == Strip(pages[i])
  {
    seq(|pages|, i requires 0 <= i < |pages| => Strip(pages[i]))
  }

  /** Lines 35-47: the extracted text and the photos of each category. */
  function Dispatch(category: string, content: Bytes, services: Services): (r: Result<(string, seq<Bytes>), ProcessError>)
    ensures r.Ok? <==> category in DispatchCodes && (category == "TXT" ==> services.decode(content).Some?)
    ensures category !in DispatchCodes ==> r == Err(UnsupportedType(category))
    ensures r.Ok? && category == "PHO" ==> r.value.1 == [content]
    ensures r.Ok? && category in {"TXT", "AUD", "VID"} ==> r.value.1 == []
  {
    if category == "PDF" then Ok(ProcessPdf(services.pdfPages(content)))
    else if category == "TXT" then
      match services.decode(content)
      case None => Err(DecodeFailed)
      case Some(text) => Ok((text, []))
    else if category == "PHO" then Ok((services.photoToText(content), [content]))
    else if category == "AUD" then Ok((services.audioToText(content), []))
    else if category == "VID" then Ok((services.videoToText(content), []))
    else Err(UnsupportedType(category))
  }

  /** Lines 50-54: page-wise chunking when the separator occurs, plain chunking otherwise. */
  function Chunks(text: string, services: Services): seq<string> {
    if Contains(text, PageSeparator) then services.chunkTextByPage(Split(text, PageSeparator))
    else services.chunkText(text)
  }

  // ---------------------------------------------------------------------------
  // The page round trip

  /** A page without `/` never runs into the separator, which starts with `/`. */
  lemma NoSlashSeparatesCleanly(p: string)
    requires '/' !in p
    ensures SeparatesCleanly(p, PageSeparator)
    ensures !Contains(p, PageSeparator)
  {
    var s := p + PageSeparator;
    forall k | 0 <= k < |p|
      ensures !MatchAt(s, PageSeparator, k)
    {
      assert s[k] == p[k];
    }
    assert s[|p|..] == PageSeparator;
    FindIs(s, PageSeparator, |p|);
    forall k | 0 <= k < |p|
      ensures !MatchAt(p, PageSeparator, k)
    {
      assert p[k] != PageSeparator[0];
    }
  }

  /**
   * A multi-page PDF reaches the page chunker with exactly its stripped pages, provided
   * every page but the last separates cleanly from the separator and the last one does
   * not contain it.
   */
  lemma PagesReachChunker(pages: seq<string>, images: seq<Bytes>, services: Services)
    requires |pages| >= 2
    requires forall k :: 0 <= k < |pages| - 1 ==> SeparatesCleanly(Strip(pages[k]), PageSeparator)
    requires !Contains(Strip(pages[|pages| - 1]), PageSeparator)
    ensures Chunks(ProcessPdf((pages, images)).0, services) == services.chunkTextByPage(StripAll(pages))
  {
    var stripped := StripAll(pages);
    var text := Join(stripped, PageSeparator);
    SplitJoin(stripped, PageSeparator);
    var rest := Join(stripped[1..], PageSeparator);
    assert text == stripped[0] + PageSeparator + rest;
    FindAcrossJoin(stripped[0], PageSeparator, rest);
  }

  /** Pages with no `/` in them always come back whole. */
  lemma SlashFreePagesReachChunker(pages: seq<string>, images: seq<Bytes>, services: Services)
    requires |pages| >= 2
    requires forall k :: 0 <= k < |pages| ==> '/' !in Strip(pages[k])
    ensures Chunks(ProcessPdf((pages, images)).0, services) == services.chunkTextByPage(StripAll(pages))
  {
    forall k | 0 <= k < |pages|
      ensures SeparatesCleanly(Strip(pages[k]), PageSeparator) && !Contains(Strip(pages[k]), PageSeparator)
    {
      NoSlashSeparatesCleanly(Strip(pages[k]));
    }
    PagesReachChunker(pages, images, services);
  }

  /**
   * Not containing the separator is not enough: the separator begins with the `/` it
   * ends with, so a page ending in `/d/=/-t` merges with the joint that follows it.
   */
  lemma PageSplitAmbiguous()
    ensures var pages := ["/d/=/-t", "x"];
      && (forall k :: 0 <= k < |pages| ==> !Contains(pages[k], PageSeparator))
      && Split(Join(pages, PageSeparator), PageSeparator) != pages
  {
    var pages := ["/d/=/-t", "x"];
    var s := Join(pages, PageSeparator);
    assert s == "/d/=/-t/d/=/-t/x";
    assert MatchAt(s, PageSeparator, 0);
    FindIs(s, PageSeparator, 0);
    assert Split(s, PageSeparator)[0] == "";
    forall k | 0 <= k < |pages|
      ensures !Contains(pages[k], PageSeparator)
    {
      assert |pages[k]| < |PageSeparator|;
    }
  }

  // ---------------------------------------------------------------------------
  // The write plan

  /** One text chunk, number `id`: the index add, the chunk, its vector. */
  function ChunkOps(t: Target, id: nat, chunk: string): (r: seq<Op>)
    ensures |r| == 3
  {
    [IndexAdd(t.collection, t.server, TextVector(chunk), t.hash),
     Upload(Numbered(t.hash, id, Txt), ChunkText(chunk)),
     Upload(Numbered(t.hash, id, TxtVector), VectorJson(TextVector(chunk)))]
  }

  /** One photo, number `id`, embedded together with the text chunk of the same number. */
  function PhotoOps(t: Target, id: nat, text: string, photo: string): (r: seq<Op>)
    ensures |r| == 3
  {
    [IndexAdd(t.collection, t.server, ImageVector(text, photo), t.hash),
     Upload(Numbered(t.hash, id, Pho), PhotoJson(photo)),
     Upload(Numbered(t.hash, id, PhoVector), VectorJson(ImageVector(text, photo)))]
  }

  /** The effects of the chunk loop over `chunks`. */
  function TextPhase(t: Target, chunks: seq<string>): (r: seq<Op>)
    ensures |r| == 3 * |chunks|
  {
    if chunks == [] then []
    else TextPhase(t, chunks[..|chunks| - 1]) + ChunkOps(t, |chunks|, chunks[|chunks| - 1])
  }

  /** The effects of the photo loop over `photos`, each paired with the chunk of its number. */
  function PhotoPhase(t: Target, chunks: seq<string>, photos: seq<string>): (r: seq<Op>)
    requires |photos| <= |chunks|
    ensures |r| == 3 * |photos|
  {
    if photos == [] then []
    else PhotoPhase(t, chunks, photos[..|photos| - 1])
         + PhotoOps(t, |photos|, chunks[|photos| - 1], photos[|photos| - 1])
  }

  function Min(a: nat, b: nat): nat {
    if a <= b then a else b
  }

  /**
   * The effects when no call raises: every chunk, then the photos that have a chunk of
   * their number, then the manifest if every photo had one.
   */
  function Plan(t: Target, chunks: seq<string>, photos: seq<string>, m: Manifest): seq<Op> {
    TextPhase(t, chunks) + PhotoPhase(t, chunks, photos[..Min(|photos|, |chunks|)])
    + (if |photos| <= |chunks| then [Upload(ManifestName(t.hash), ManifestJson(m))] else [])
  }

  /** How the write phase ends when no call raises. */
  function Outcome(chunks: seq<string>, photos: seq<string>, m: Manifest): Result<Manifest, ProcessError> {
    if |photos| <= |chunks| then Ok(m) else Err(IndexError)
  }

  /**
   * `log` and `r` are what running `plan` gives when `fails` says which calls raise: the
   * plan up to and including the first call that raises, or all of it.
   */
  predicate Ran(plan: seq<Op>, outcome: Result<Manifest, ProcessError>, fails: nat -> bool,
                log: seq<Op>, r: Result<Manifest, ProcessError>)
  {
    && log <= plan
    && (forall p :: 0 <= p < |log| - 1 ==> !fails(p))
    && ((|log| > 0 && fails(|log| - 1) && r == Err(Raised(|log| - 1)))
        || (log == plan && (|log| > 0 ==> !fails(|log| - 1)) && r == outcome))
  }

  /** `Ran` leaves no choice: the calls that raise decide the log and the result. */
  lemma RanIsFunctional(plan: seq<Op>, outcome: Result<Manifest, ProcessError>, fails: nat -> bool,
                        log1: seq<Op>, r1: Result<Manifest, ProcessError>,
                        log2: seq<Op>, r2: Result<Manifest, ProcessError>)
    requires !outcome.Err? || !outcome.error.Raised?
    requires Ran(plan, outcome, fails, log1, r1) && Ran(plan, outcome, fails, log2, r2)
    ensures log1 == log2 && r1 == r2
  {
    if |log1| < |log2| {
      RanShorter(plan, outcome, fails, log1, r1, log2, r2);
    } else if |log2| < |log1| {
      RanShorter(plan, outcome, fails, log2, r2, log1, r1);
    } else {
      assert log1 == plan[..|log1|] == log2;
    }
  }

  lemma RanShorter(plan: seq<Op>, outcome: Result<Manifest, ProcessError>, fails: nat -> bool,
                   log1: seq<Op>, r1: Result<Manifest, ProcessError>,
                   log2: seq<Op>, r2: Result<Manifest, ProcessError>)
    requires Ran(plan, outcome, fails, log1, r1) && Ran(plan, outcome, fails, log2, r2)
    ensures |log1| >= |log2|
  {
  }

  /** When nothing raises, the whole plan runs and the write phase ends as planned. */
  lemma NothingRaised(plan: seq<Op>, outcome: Result<Manifest, ProcessError>, fails: nat -> bool,
                      log: seq<Op>, r: Result<Manifest, ProcessError>)
    requires forall p :: !fails(p)
    requires Ran(plan, outcome, fails, log, r)
    ensures log == plan && r == outcome
  {
  }

  /** Issue one external call: it is logged, and it raises when `fails` says so. */
  method Call(log: seq<Op>, op: Op, fails: nat -> bool) returns (log': seq<Op>, raised: bool)
    ensures log' == log + [op] && raised == fails(|log|)
  {
    log' := log + [op];
    raised := fails(|log|);
  }

  lemma TextPhaseStep(t: Target, chunks: seq<string>, i: nat)
    requires i < |chunks|
    ensures TextPhase(t, chunks[..i + 1]) == TextPhase(t, chunks[..i]) + ChunkOps(t, i + 1, chunks[i])
  {
    assert chunks[..i + 1][..i] == chunks[..i];
  }

  /** The chunk loop's effects so far are a prefix of the whole text phase. */
  lemma {:induction false} TextPhasePrefix(t: Target, chunks: seq<string>, i: nat)
    requires i <= |chunks|
    ensures TextPhase(t, chunks[..i]) <= TextPhase(t, chunks)
    decreases |chunks| - i
  {
    if i < |chunks| {
      TextPhasePrefix(t, chunks, i + 1);
      TextPhaseStep(t, chunks, i);
    } else {
      assert chunks[..i] == chunks;
    }
  }

  lemma PhotoPhaseStep(t: Target, chunks: seq<string>, photos: seq<string>, j: nat)
    requires j < |photos| && j < |chunks|
    ensures PhotoPhase(t, chunks, photos[..j + 1]) ==
      PhotoPhase(t, chunks, photos[..j]) + PhotoOps(t, j + 1, chunks[j], photos[j])
  {
    assert photos[..j + 1][..j] == photos[..j];
  }

  /** The photo loop's effects after `j` photos are a prefix of those after `k`. */
  lemma {:induction false} PhotoPhasePrefix(t: Target, chunks: seq<string>, photos: seq<string>, j: nat, k: nat)
    requires j <= k <= |photos| && k <= |chunks|
    ensures PhotoPhase(t, chunks, photos[..j]) <= PhotoPhase(t, chunks, photos[..k])
    decreases k - j
  {
    if j < k {
      PhotoPhasePrefix(t, chunks, photos, j + 1, k);
      PhotoPhaseStep(t, chunks, photos, j);
    }
  }

  /** Photo `j`'s calls come next in the plan after the effects of the photos before it. */
  lemma PhotoPlanned(plan: seq<Op>, texts: seq<Op>, t: Target, chunks: seq<string>, photos: seq<string>, j: nat, k: nat)
    requires j < k <= |photos| && k <= |chunks|
    requires texts + PhotoPhase(t, chunks, photos[..k]) <= plan
    ensures texts + PhotoPhase(t, chunks, photos[..j]) + PhotoOps(t, j + 1, chunks[j], photos[j]) <= plan
    ensures texts + PhotoPhase(t, chunks, photos[..j + 1]) == texts + PhotoPhase(t, chunks, photos[..j]) + PhotoOps(t, j + 1, chunks[j], photos[j])
  {
    PhotoPhaseStep(t, chunks, photos, j);
    PhotoPhasePrefix(t, chunks, photos, j + 1, k);
    AppendPrefix(texts, PhotoPhase(t, chunks, photos[..j + 1]), PhotoPhase(t, chunks, photos[..k]));
  }

  lemma AppendPrefix(a: seq<Op>, b: seq<Op>, c: seq<Op>)
    requires b <= c
    ensures a + b <= a + c
  {
    assert (a + c)[..|a + b|] == a + c[..|b|];
  }

  /**
   * Issue the next call of `plan` after the calls in `log`, none of which raised. When
   * it raises, the run ends there with `Raised` at its position.
   */
  method Step(ghost plan: seq<Op>, ghost outcome: Result<Manifest, ProcessError>, log: seq<Op>, op: Op,
              fails: nat -> bool)
    returns (log': seq<Op>, raised: bool)
    requires log + [op] <= plan
    requires forall p :: 0 <= p < |log| ==> !fails(p)
    ensures log' == log + [op] && raised == fails(|log|)
    ensures raised ==> Ran(plan, outcome, fails, log', Err(Raised(|log|)))
    ensures !raised ==> forall p :: 0 <= p < |log'| ==> !fails(p)
  {
    log', raised := Call(log, op, fails);
  }

  /**
   * Issue the three calls of one chunk or one photo, in order, stopping at the first that
   * raises.
   */
  method StepThree(ghost plan: seq<Op>, ghost outcome: Result<Manifest, ProcessError>, log: seq<Op>,
                   ops: seq<Op>, fails: nat -> bool)
    returns (log': seq<Op>, raised: bool)
    requires |ops| == 3 && log + ops <= plan
    requires forall p :: 0 <= p < |log| ==> !fails(p)
    ensures raised ==> |log'| > 0 && Ran(plan, outcome, fails, log', Err(Raised(|log'| - 1)))
    ensures !raised ==> log' == log + ops && forall p :: 0 <= p < |log'| ==> !fails(p)
  {
    assert log + ops[..1] <= plan;
    log', raised := Step(plan, outcome, log, ops[0], fails);
    if raised {
      return;
    }
    assert log' + [ops[1]] == (log + ops)[..|log| + 2];
    log', raised := Step(plan, outcome, log', ops[1], fails);
    if raised {
      return;
    }
    assert log' + [ops[2]] == log + ops;
    log', raised := Step(plan, outcome, log', ops[2], fails);
  }

  /** Lines 57-62: the chunk loop, stopping at the first call that raises. */
  method TextLoop(ghost plan: seq<Op>, ghost outcome: Result<Manifest, ProcessError>, t: Target,
                  chunks: seq<string>, fails: nat -> bool)
    returns (log: seq<Op>, raised: bool)
    requires TextPhase(t, chunks) <= plan
    ensures raised ==> |log| > 0 && Ran(plan, outcome, fails, log, Err(Raised(|log| - 1)))
    ensures !raised ==> log == TextPhase(t, chunks) && forall p :: 0 <= p < |log| ==> !fails(p)
  {
    log, raised := [], false;
    var id := 0;
    while id < |chunks|
      invariant id <= |chunks|
      invariant log == TextPhase(t, chunks[..id])
      invariant forall p :: 0 <= p < |log| ==> !fails(p)
    {
      var chunk := chunks[id];
      TextPhaseStep(t, chunks, id);
      id := id + 1;
      TextPhasePrefix(t, chunks, id);
      log, raised := StepThree(plan, outcome, log, ChunkOps(t, id, chunk), fails);
      if raised {
        return;
      }
    }
    assert chunks[..id] == chunks;
  }

  /**
   * Lines 66-77: the photo loop after `texts`, pairing photo `j` with chunk `j`, stopping at
   * the first call that raises or at the first photo without a chunk (`stopped`).
   */
  method PhotoLoop(ghost plan: seq<Op>, ghost outcome: Result<Manifest, ProcessError>, texts: seq<Op>,
                   t: Target, chunks: seq<string>, photos: seq<string>, fails: nat -> bool)
    returns (log: seq<Op>, raised: bool, stopped: bool)
    requires texts + PhotoPhase(t, chunks, photos[..Min(|photos|, |chunks|)]) <= plan
    requires forall p :: 0 <= p < |texts| ==> !fails(p)
    ensures raised ==> !stopped && |log| > 0 && Ran(plan, outcome, fails, log, Err(Raised(|log| - 1)))
    ensures !raised ==> (log == texts + PhotoPhase(t, chunks, photos[..Min(|photos|, |chunks|)])
      && (forall p :: 0 <= p < |log| ==> !fails(p))
      && (stopped <==> |photos| > |chunks|))
  {
    log, raised, stopped := texts, false, false;
    ghost var k := Min(|photos|, |chunks|);
    var j := 0;
    while j < |photos|
      invariant j <= k
      invariant log == texts + PhotoPhase(t, chunks, photos[..j])
      invariant forall p :: 0 <= p < |log| ==> !fails(p)
    {
      if j >= |chunks| {
        // `text_chunks[chunck_id-1]` runs past the last chunk.
        return log, false, true;
      }
      var photo := photos[j];
      var text := chunks[j];
      PhotoPlanned(plan, texts, t, chunks, photos, j, k);
      j := j + 1;
      log, raised := StepThree(plan, outcome, log, PhotoOps(t, j, text, photo), fails);
      if raised {
        return;
      }
    }
  }

  /**
   * Lines 55-80 once the text is non-empty: the chunk loop, the photo loop and the
   * manifest, each call logged in order, stopping at the first call that raises or at
   * the photo that has no chunk of its number.
   */
  method WritePlan(t: Target, chunks: seq<string>, photos: seq<string>, m: Manifest, fails: nat -> bool)
    returns (log: seq<Op>, r: Result<Manifest, ProcessError>)
    ensures Ran(Plan(t, chunks, photos, m), Outcome(chunks, photos, m), fails, log, r)
  {
    ghost var plan := Plan(t, chunks, photos, m);
    ghost var outcome := Outcome(chunks, photos, m);
    var raised, stopped;
    log, raised := TextLoop(plan, outcome, t, chunks, fails);
    if raised {
      return log, Err(Raised(|log| - 1));
    }
    log, raised, stopped := PhotoLoop(plan, outcome, log, t, chunks, photos, fails);
    if raised {
      return log, Err(Raised(|log| - 1));
    }
    if stopped {
      return log, Err(IndexError);
    }
    log, raised := Step(plan, outcome, log, Upload(ManifestName(t.hash), ManifestJson(m)), fails);
    if raised {
      return log, Err(Raised(|log| - 1));
    }
    r := Ok(m);
  }

  // ---------------------------------------------------------------------------
  // The whole job

  /** `[format_photo_data(photo) for photo in photos]` */
  function FormatAll(photos: seq<Bytes>, services: Services): (r: seq<string>)
    ensures |r| == |photos| && forall i :: 0 <= i < |photos| ==> r[i] == services.formatPhotoData(photos[i])
  {
    seq(|photos|, i requires 0 <= i < |photos| => services.formatPhotoData(photos[i]))
  }

  /** `embeding_data` for the chunks and the (unformatted) photos. */
  function ManifestOf(chunks: seq<string>, photos: seq<Bytes>, file: EmbeddingFile, t: Target): (m: Manifest)
    ensures m.textChunks == |chunks| && m.photos == |photos| && m.relatedData == []
    ensures m.embeddingId == t.embeddingId && m.hash == t.hash && m.version == ManifestVersion
    ensures m.originalName == file.fileName.GetOr("unknown")
    ensures m.originalType == file.fileExtension.GetOr("unknown")
  {
    Manifest(ManifestVersion, |chunks|, |photos|, t.embeddingId, t.hash, [],
             file.fileName.GetOr("unknown"), file.fileExtension.GetOr("unknown"))
  }

  /**
   * Everything before the first external call, given the outcome of the category check:
   * the chunks, the formatted photos and the manifest, or the error raised first. An empty
   * text leaves `text_chunks` and `embeding_data` unbound, and the next read of either raises.
   */
  function Prepare(gate: Result<string, ProcessError>, file: EmbeddingFile, t: Target, services: Services)
    : (r: Result<(seq<string>, seq<string>, Manifest), ProcessError>)
    ensures gate.Err? ==> r == Err(gate.error)
    ensures r.Ok? ==> gate.Ok? && gate.value in DispatchCodes
    ensures r.Ok? ==> var (chunks, photos, m) := r.value;
      && m.textChunks == |chunks| && m.photos == |photos| && m.relatedData == []
      && m.hash == t.hash && m.embeddingId == t.embeddingId
    ensures r.Ok? && gate.value == "PHO" ==> |r.value.1| == 1
    ensures r.Ok? && gate.value in {"TXT", "AUD", "VID"} ==> r.value.1 == []
  {
    if gate.Err? then Err(gate.error)
    else match Dispatch(gate.value, file.content, services)
      case Err(e) => Err(e)
      case Ok((text, photos)) =>
        if text == "" then Err(Unbound(if photos != [] then "text_chunks" else "embeding_data"))
        else
          var chunks := Chunks(text, services);
          Ok((chunks, FormatAll(photos, services), ManifestOf(chunks, photos, file, t)))
  }

  /** `process_embedding` after its category check: no effect before the first call, then the write plan. */
  method ProcessWith(gate: Result<string, ProcessError>, file: EmbeddingFile, t: Target, services: Services,
                     fails: nat -> bool)
    returns (log: seq<Op>, r: Result<Manifest, ProcessError>)
    ensures Prepare(gate, file, t, services).Err? ==> log == [] && r == Err(Prepare(gate, file, t, services).error)
    ensures Prepare(gate, file, t, services).Ok? ==>
      var (chunks, photos, m) := Prepare(gate, file, t, services).value;
      Ran(Plan(t, chunks, photos, m), Outcome(chunks, photos, m), fails, log, r)
  {
    var prepared := Prepare(gate, file, t, services);
    if prepared.Err? {
      return [], Err(prepared.error);
    }
    var (chunks, photos, m) := prepared.value;
    log, r := WritePlan(t, chunks, photos, m, fails);
  }

  /** `process_embedding` as written: the category is looked up among the table's extensions. */
  method ProcessEmbeddingAsWritten(file: EmbeddingFile, t: Target, services: Services, fails: nat -> bool)
    returns (log: seq<Op>, r: Result<Manifest, ProcessError>)
    ensures log == [] && r.Err?
    ensures file.fileType.None? ==> r == Err(TypeNotSet)
    ensures file.fileType.Some? ==> r == Err(UnsupportedType(file.fileType.value))
  {
    log, r := ProcessWith(Gate(file.fileType), file, t, services, fails);
    AsWrittenNeverPrepares(file, t, services);
  }

  /** `process_embedding` with the check it evidently intends: the category is one the table produces. */
  method ProcessEmbedding(file: EmbeddingFile, t: Target, services: Services, fails: nat -> bool)
    returns (log: seq<Op>, r: Result<Manifest, ProcessError>)
    ensures file.fileType.None? ==> log == [] && r == Err(TypeNotSet)
    ensures file.fileType.Some? && file.fileType.value !in CategoryCodes ==>
      log == [] && r == Err(UnsupportedType(file.fileType.value))
    ensures Prepare(GateIntended(file.fileType), file, t, services).Err? ==>
      log == [] && r == Err(Prepare(GateIntended(file.fileType), file, t, services).error)
    ensures Prepare(GateIntended(file.fileType), file, t, services).Ok? ==>
      var (chunks, photos, m) := Prepare(GateIntended(file.fileType), file, t, services).value;
      Ran(Plan(t, chunks, photos, m), Outcome(chunks, photos, m), fails, log, r)
  {
    log, r := ProcessWith(GateIntended(file.fileType), file, t, services, fails);
  }

  /** As written, whatever the file, nothing gets past the category check and dispatch. */
  lemma AsWrittenNeverPrepares(file: EmbeddingFile, t: Target, services: Services)
    ensures file.fileType.None? ==> Prepare(Gate(file.fileType), file, t, services) == Err(TypeNotSet)
    ensures file.fileType.Some? ==>
      Prepare(Gate(file.fileType), file, t, services) == Err(UnsupportedType(file.fileType.value))
  {
    if Gate(file.fileType).Ok? {
      GateAdmitsNoDispatchable(file.fileType);
    }
  }

  /** A text file whose content decodes: refused as written, processed with the intended check. */
  lemma TextFileRefusedAsWritten(file: EmbeddingFile, t: Target, services: Services)
    requires file.fileType == Some("TXT")
    requires services.decode(file.content).Some? && services.decode(file.content).value != ""
    ensures Prepare(Gate(file.fileType), file, t, services) == Err(UnsupportedType("TXT"))
    ensures Prepare(GateIntended(file.fileType), file, t, services).Ok?
  {
    CategoriesAreNotKeys();
    TableValuesAreCategories();
  }

  /** An empty text never reaches a call; with photos it is `text_chunks` that is unbound. */
  lemma EmptyTextRaises(category: string, file: EmbeddingFile, t: Target, services: Services)
    requires Dispatch(category, file.content, services).Ok?
    requires Dispatch(category, file.content, services).value.0 == ""
    ensures Prepare(Ok(category), file, t, services) ==
      Err(Unbound(if Dispatch(category, file.content, services).value.1 != [] then "text_chunks" else "embeding_data"))
  {
  }

  // ---------------------------------------------------------------------------
  // The shape of a complete plan

  lemma {:induction false} TextPhaseAt(t: Target, chunks: seq<string>, i: nat)
    requires 1 <= i <= |chunks|
    ensures TextPhase(t, chunks)[3 * i - 3..3 * i] == ChunkOps(t, i, chunks[i - 1])
  {
    if i < |chunks| {
      var init := chunks[..|chunks| - 1];
      TextPhaseAt(t, init, i);
      assert TextPhase(t, chunks)[..3 * |init|] == TextPhase(t, init);
    }
  }

  lemma {:induction false} PhotoPhaseAt(t: Target, chunks: seq<string>, photos: seq<string>, j: nat)
    requires 1 <= j <= |photos| <= |chunks|
    ensures PhotoPhase(t, chunks, photos)[3 * j - 3..3 * j] == PhotoOps(t, j, chunks[j - 1], photos[j - 1])
  {
    if j < |photos| {
      var init := photos[..|photos| - 1];
      PhotoPhaseAt(t, chunks, init, j);
      assert PhotoPhase(t, chunks, photos)[..3 * |init|] == PhotoPhase(t, chunks, init);
    }
  }

  /** A complete plan is the chunk phase, the photo phase and the manifest, in that order. */
  lemma CompletePlan(t: Target, chunks: seq<string>, photos: seq<string>, m: Manifest)
    requires |photos| <= |chunks|
    ensures Plan(t, chunks, photos, m) ==
      TextPhase(t, chunks) + PhotoPhase(t, chunks, photos) + [Upload(ManifestName(t.hash), ManifestJson(m))]
  {
    assert photos[..Min(|photos|, |chunks|)] == photos;
  }

  /**
   * Chunk `i` (from 1): its index add, then `{i}.TXT`, then `{i}.TXT.ENB`, all three
   * before the manifest, which is the last call of a complete plan.
   */
  lemma ChunkBeforeManifest(t: Target, chunks: seq<string>, photos: seq<string>, m: Manifest, i: nat)
    requires |photos| <= |chunks| && 1 <= i <= |chunks|
    ensures var plan := Plan(t, chunks, photos, m);
      && 3 * i < |plan|
      && plan[3 * i - 3..3 * i] == ChunkOps(t, i, chunks[i - 1])
      && plan[|plan| - 1] == Upload(ManifestName(t.hash), ManifestJson(m))
  {
    CompletePlan(t, chunks, photos, m);
    TextPhaseAt(t, chunks, i);
    var plan := Plan(t, chunks, photos, m);
    assert plan[..3 * |chunks|] == TextPhase(t, chunks);
  }

  /**
   * Photo `j` (from 1, after all chunks): its index add with chunk `j`, then `{j}.PHO`,
   * then `{j}.PHO.ENB`, all three before the manifest.
   */
  lemma PhotoBeforeManifest(t: Target, chunks: seq<string>, photos: seq<string>, m: Manifest, j: nat)
    requires 1 <= j <= |photos| <= |chunks|
    ensures var plan := Plan(t, chunks, photos, m);
      var base := 3 * |chunks|;
      && base + 3 * j < |plan|
      && plan[base + 3 * j - 3..base + 3 * j] == PhotoOps(t, j, chunks[j - 1], photos[j - 1])
      && plan[|plan| - 1] == Upload(ManifestName(t.hash), ManifestJson(m))
  {
    CompletePlan(t, chunks, photos, m);
    PhotoPhaseAt(t, chunks, photos, j);
    var plan := Plan(t, chunks, photos, m);
    var base := 3 * |chunks|;
    assert plan[base..base + 3 * |photos|] == PhotoPhase(t, chunks, photos);
  }

  /** The manifest is written once, last: no other call of the plan writes it. */
  lemma {:induction false} TextPhaseNoManifest(t: Target, chunks: seq<string>)
    ensures forall op :: op in TextPhase(t, chunks) ==> !(op.Upload? && op.name.ManifestName?)
  {
    if chunks != [] {
      TextPhaseNoManifest(t, chunks[..|chunks| - 1]);
    }
  }

  lemma {:induction false} PhotoPhaseNoManifest(t: Target, chunks: seq<string>, photos: seq<string>)
    requires |photos| <= |chunks|
    ensures forall op :: op in PhotoPhase(t, chunks, photos) ==> !(op.Upload? && op.name.ManifestName?)
  {
    if photos != [] {
      PhotoPhaseNoManifest(t, chunks, photos[..|photos| - 1]);
    }
  }

  lemma ManifestOnlyLast(t: Target, chunks: seq<string>, photos: seq<string>, m: Manifest)
    requires |photos| <= |chunks|
    ensures var plan := Plan(t, chunks, photos, m);
      forall p :: 0 <= p < |plan| - 1 ==> !(plan[p].Upload? && plan[p].name.ManifestName?)
  {
    CompletePlan(t, chunks, photos, m);
    TextPhaseNoManifest(t, chunks);
    PhotoPhaseNoManifest(t, chunks, photos);
    var plan := Plan(t, chunks, photos, m);
    forall p | 0 <= p < |plan| - 1 ensures !(plan[p].Upload? && plan[p].name.ManifestName?) {
      if p < 3 * |chunks| {
        assert plan[p] == TextPhase(t, chunks)[p];
      } else {
        assert plan[p] == PhotoPhase(t, chunks, photos)[p - 3 * |chunks|];
      }
    }
  }

  /** When nothing raises and every photo has a chunk, the job ends with the manifest written last. */
  lemma CompletedRun(t: Target, chunks: seq<string>, photos: seq<string>, m: Manifest, fails: nat -> bool,
                     log: seq<Op>, r: Result<Manifest, ProcessError>)
    requires |photos| <= |chunks| && forall p :: !fails(p)
    requires Ran(Plan(t, chunks, photos, m), Outcome(chunks, photos, m), fails, log, r)
    ensures r == Ok(m) && |log| == 3 * |chunks| + 3 * |photos| + 1
    ensures log[|log| - 1] == Upload(ManifestName(t.hash), ManifestJson(m))
  {
    CompletePlan(t, chunks, photos, m);
  }

  /** Keys of the same content hash are equal only for the same object: a photo key is never a chunk key. */
  lemma PhotoKeysAreNotTextKeys(hash: string, i: nat, j: nat, s: Suffix, u: Suffix)
    requires s in {Txt, TxtVector} && u in {Pho, PhoVector}
    ensures Render(Numbered(hash, i, s)) != Render(Numbered(hash, j, u))
  {
    if Render(Numbered(hash, i, s)) == Render(Numbered(hash, j, u)) {
      RenderInjective(Numbered(hash, i, s), Numbered(hash, j, u));
    }
  }

  /** Content hashes of one length (hex digests) never share a key. */
  lemma RenderInjectiveAcrossHashes(a: ObjectName, b: ObjectName)
    requires |a.hash| == |b.hash| && Render(a) == Render(b)
    ensures a == b
  {
    assert a.hash == Render(a)[..|a.hash|] == Render(b)[..|b.hash|] == b.hash;
    RenderInjective(a, b);
  }
}
