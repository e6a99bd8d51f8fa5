/** The extension table and the status record of `src/lib/models.py`. */
module Models {
  import PySort

  /**
   * `FILE_TYPE_MAP`: lower-case extension (with its dot) to category code.
   * Later keys would override earlier ones, as in a Python dict literal; there are no repeats.
   */
  const FileTypeMap: map<string, string> := map[
    // documents and programming files, treated as text
    ".doc" := "TXT", ".docx" := "TXT", ".rtf" := "TXT", ".pdf" := "TXT", ".wpd" := "TXT",
    ".txt" := "TXT", ".md" := "TXT", ".csv" := "TXT", ".bat" := "TXT", ".sh" := "TXT",
    ".html" := "TXT", ".css" := "TXT", ".htm" := "TXT", ".xhtml" := "TXT", ".c" := "TXT",
    ".h" := "TXT", ".js" := "TXT", ".py" := "TXT", ".lua" := "TXT", ".go" := "TXT",
    // images
    ".jpeg" := "PHO", ".jpg" := "PHO", ".png" := "PHO", ".gif" := "PHO", ".heif" := "PHO",
    ".bmp" := "PHO", ".tif" := "PHO", ".webp" := "PHO", ".eps" := "PHO",
    // audio
    ".mp3" := "AUD", ".wav" := "AUD", ".wma" := "AUD", ".aac" := "AUD",
    // video
    ".3gp" := "VID", ".mp4" := "VID", ".avi" := "VID", ".mpg" := "VID", ".mov" := "VID", ".wmv" := "VID"
  ]

  /** The four category codes the table can produce. */
  const CategoryCodes: set<string> := {"TXT", "PHO", "AUD", "VID"}

  const ImageExtensions: set<string> :=
    {".jpeg", ".jpg", ".png", ".gif", ".heif", ".bmp", ".tif", ".webp", ".eps"}
  const AudioExtensions: set<string> := {".mp3", ".wav", ".wma", ".aac"}
  const VideoExtensions: set<string> := {".3gp", ".mp4", ".avi", ".mpg", ".mov", ".wmv"}

  /**
   * A dot followed by at least one lower-case letter or digit: the shape that
   * `os.path.splitext` followed by `.lower()` can yield for a final suffix.
   */
  predicate IsExtensionKey(k: string) {
    |k| >= 2 && k[0] == '.' && forall i :: 1 <= i < |k| ==> ('a' <= k[i] <= 'z' || '0' <= k[i] <= '9')
  }

  /** `EmbeddingStatusResponse`: the status is any string; the four states are only a comment. */
  datatype EmbeddingStatusResponse = EmbeddingStatusResponse(embeddingId: string, status: string)

  /*
   * The lemmas below are facts about the constant table: the verifier checks each by
   * evaluating `FileTypeMap` entry by entry. They record which extensions the table
   * accepts and which codes it produces, for the validation and embedding modules to use.
   */

  /** Every key is a dot and lower-case letters or digits. */
  lemma TableKeysWellFormed()
    ensures forall k :: k in FileTypeMap ==> IsExtensionKey(k)
  {
  }

  lemma KeyIsExtension(k: string)
    requires k in FileTypeMap
    ensures IsExtensionKey(k)
  {
    TableKeysWellFormed();
  }

  /** The empty extension is not in the table. */
  lemma EmptyIsNotAKey()
    ensures "" !in FileTypeMap
  {
    TableKeysWellFormed();
  }

  /** Every value is one of the four category codes. */
  lemma TableValuesAreCategories()
    ensures forall k :: k in FileTypeMap ==> FileTypeMap[k] in CategoryCodes
    ensures FileTypeMap.Values == CategoryCodes
  {
    assert FileTypeMap[".txt"] == "TXT" && FileTypeMap[".png"] == "PHO";
    assert FileTypeMap[".mp3"] == "AUD" && FileTypeMap[".mp4"] == "VID";
  }

  /** A category code is never a key: the keys are extensions. */
  lemma CategoriesAreNotKeys()
    ensures forall c :: c in CategoryCodes ==> c !in FileTypeMap
    ensures "PDF" !in FileTypeMap
  {
    TableKeysWellFormed();
  }

  /** `.pdf` is classified as text; there is no separate PDF code in the table. */
  lemma PdfIsText()
    ensures FileTypeMap[".pdf"] == "TXT"
    ensures "PDF" !in FileTypeMap.Values
  {
    TableValuesAreCategories();
  }

  /** The image extensions give `PHO`, and no other key does. */
  lemma ImagesArePhotos()
    ensures forall k :: k in ImageExtensions ==> k in FileTypeMap && FileTypeMap[k] == "PHO"
  {
  }

  lemma PhotosAreImages()
    ensures forall k :: k in FileTypeMap && FileTypeMap[k] == "PHO" ==> k in ImageExtensions
  {
  }

  /** The audio extensions give `AUD`, and no other key does. */
  lemma AudioExtensionsAreAudio()
    ensures forall k :: k in AudioExtensions ==> k in FileTypeMap && FileTypeMap[k] == "AUD"
  {
  }

  lemma AudioIsAudioExtensions()
    ensures forall k :: k in FileTypeMap && FileTypeMap[k] == "AUD" ==> k in AudioExtensions
  {
  }

  /** The video extensions give `VID`, and no other key does. */
  lemma VideoExtensionsAreVideo()
    ensures forall k :: k in VideoExtensions ==> k in FileTypeMap && FileTypeMap[k] == "VID"
  {
  }

  lemma VideoIsVideoExtensions()
    ensures forall k :: k in FileTypeMap && FileTypeMap[k] == "VID" ==> k in VideoExtensions
  {
  }

  /** The keys of the table in Python's string order. */
  const SortedKeys: seq<string> := [
    ".3gp", ".aac", ".avi", ".bat", ".bmp", ".c", ".css", ".csv", ".doc", ".docx",
    ".eps", ".gif", ".go", ".h", ".heif", ".htm", ".html", ".jpeg", ".jpg", ".js",
    ".lua", ".md", ".mov", ".mp3", ".mp4", ".mpg", ".pdf", ".png", ".py", ".rtf",
    ".sh", ".tif", ".txt", ".wav", ".webp", ".wma", ".wmv", ".wpd", ".xhtml"
  ]

  lemma {:induction false} DistinctCardinality(s: seq<string>)
    requires forall i, j :: 0 <= i < j < |s| ==> s[i] != s[j]
    ensures |set x | x in s| == |s|
  {
    if s != [] {
      var init := s[..|s| - 1];
      DistinctCardinality(init);
      assert (set x | x in s) == (set x | x in init) + {s[|s| - 1]};
    }
  }

  lemma SortedKeysIncreaseLow()
    ensures forall i :: 0 <= i < 13 ==> PySort.Less(SortedKeys[i], SortedKeys[i + 1])
  {
  }

  lemma SortedKeysIncreaseMid()
    ensures forall i :: 13 <= i < 26 ==> PySort.Less(SortedKeys[i], SortedKeys[i + 1])
  {
  }

  lemma SortedKeysIncreaseHigh()
    ensures forall i :: 26 <= i < |SortedKeys| - 1 ==> PySort.Less(SortedKeys[i], SortedKeys[i + 1])
  {
  }

  lemma SortedKeysDistinct()
    ensures forall i, j :: 0 <= i < j < |SortedKeys| ==> SortedKeys[i] != SortedKeys[j]
  {
    SortedKeysIncreaseLow();
    SortedKeysIncreaseMid();
    SortedKeysIncreaseHigh();
    PySort.ChainIsStrict(SortedKeys);
    forall i, j | 0 <= i < j < |SortedKeys|
      ensures SortedKeys[i] != SortedKeys[j]
    {
      if SortedKeys[i] == SortedKeys[j] { PySort.LessIrreflexive(SortedKeys[i]); }
    }
  }

  /** The table has 39 distinct keys. */
  lemma TableSize()
    ensures |FileTypeMap| == 39
  {
    SortedKeysDistinct();
    DistinctCardinality(SortedKeys);
    KeysAreSorted();
    assert |FileTypeMap| == |FileTypeMap.Keys|;
  }

  lemma KeysAreSorted() ensures FileTypeMap.Keys == set x | x in SortedKeys {}

}
