/** `file_validation` of `src/services/file_validation.py`: classification by extension. */
module FileValidation {
  import opened Outcomes
  import opened PyStr
  import Models

  /** The attributes of the uploaded file object that validation reads and sets. */
  datatype FileObject = FileObject(filename: Option<string>, fileType: Option<string>)

  /** The `ValueError` raised for an extension missing from the table. */
  datatype ValidationError = UnsupportedFileType(ext: string)

  /** `str(file.filename)`: a missing filename prints as `None`. */
  function FilenameText(f: Option<string>): string {
    match f
    case Some(s) => s
    case None => "None"
  }

  /** Some character of `s` is not a dot. */
  predicate HasNonDot(s: string) {
    exists i :: 0 <= i < |s| && s[i] != '.'
  }

  /**
   * `os.path.splitext(p)` for POSIX paths: the extension starts at the last dot of the
   * last path component, unless everything before that dot in the component is dots.
   */
  function SplitExt(p: string): (r: (string, string))
    ensures r.0 + r.1 == p
    ensures r.1 != [] ==> r.1[0] == '.'
    ensures forall i :: 1 <= i < |r.1| ==> r.1[i] != '.'
    ensures forall i :: 0 <= i < |r.1| ==> r.1[i] != '/'
  {
    var sepIndex := RFind(p, '/');
    var dotIndex := RFind(p, '.');
    if dotIndex > sepIndex && HasNonDot(p[sepIndex + 1..dotIndex]) then
      SuffixShape(p, dotIndex, sepIndex);
      SplitAt(p, sepIndex, dotIndex)
    else
      SplitAt(p, sepIndex, dotIndex)
  }

  /** The split once the last separator and the last dot are known. */
  function SplitAt(p: string, sepIndex: int, dotIndex: int): (r: (string, string))
    requires -1 <= sepIndex < |p| && -1 <= dotIndex < |p|
    ensures r.0 + r.1 == p
  {
    if dotIndex > sepIndex && HasNonDot(p[sepIndex + 1..dotIndex]) then
      (p[..dotIndex], p[dotIndex..])
    else
      (p, "")
  }

  /** The suffix from the last dot onwards holds no further dot and no separator. */
  lemma SuffixShape(p: string, d: int, s: int)
    requires 0 <= d < |p| && -1 <= s < d
    requires d == RFind(p, '.') && s == RFind(p, '/')
    ensures p[d..][0] == '.'
    ensures forall i :: 1 <= i < |p[d..]| ==> p[d..][i] != '.'
    ensures forall i :: 0 <= i < |p[d..]| ==> p[d..][i] != '/'
  {
    forall i | 0 <= i < |p[d..]| ensures p[d..][i] != '/' && (i >= 1 ==> p[d..][i] != '.') {
      assert p[d..][i] == p[d + i];
    }
  }

  /** The extension as the table is searched for it: lower-cased. */
  function Extension(p: string): string {
    Lower(SplitExt(p).1)
  }

  /** The category the filename is given, or the error raised for it. */
  function Classify(name: string): (r: Result<string, ValidationError>)
    ensures r.Ok? ==> r.value in Models.CategoryCodes
  {
    Models.TableValuesAreCategories();
    var ext := Extension(name);
    if ext !in Models.FileTypeMap then Err(UnsupportedFileType(ext))
    else Ok(Models.FileTypeMap[ext])
  }

  /** `file_validation(file)`: the same file with `file_type` set, or the error. */
  function FileValidation(file: FileObject): (r: Result<FileObject, ValidationError>)
    ensures r.Ok? ==> r.value.filename == file.filename
    ensures r.Ok? ==> r.value.fileType.Some? && r.value.fileType.value in Models.CategoryCodes
  {
    match Classify(FilenameText(file.filename))
    case Ok(category) => Ok(file.(fileType := Some(category)))
    case Err(e) => Err(e)
  }

  // ---------------------------------------------------------------------------
  // Properties

  lemma LowerKeepsChar(p: string, c: char)
    requires !('a' <= c <= 'z') && !('A' <= c <= 'Z')
    ensures forall i :: 0 <= i < |p| ==> (Lower(p)[i] == c <==> p[i] == c)
  {
  }

  lemma RFindLower(p: string, c: char)
    requires !('a' <= c <= 'z') && !('A' <= c <= 'Z')
    ensures RFind(Lower(p), c) == RFind(p, c)
  {
    LowerKeepsChar(p, c);
    RFindIs(Lower(p), c, RFind(p, c));
  }

  /** Lower-casing a path lower-cases its extension and nothing more. */
  lemma SplitExtLower(p: string)
    ensures SplitExt(Lower(p)).1 == Lower(SplitExt(p).1)
  {
    RFindLower(p, '/');
    RFindLower(p, '.');
    SplitAtLower(p, RFind(p, '/'), RFind(p, '.'));
  }

  lemma SplitAtLower(p: string, s: int, d: int)
    requires -1 <= s < |p| && -1 <= d < |p|
    ensures SplitAt(Lower(p), s, d).1 == Lower(SplitAt(p, s, d).1)
  {
    if d > s {
      HasNonDotLower(p, s + 1, d);
      LowerSlice(p, d, |p|);
    }
  }

  lemma HasNonDotLower(p: string, a: nat, b: nat)
    requires a <= b <= |p|
    ensures HasNonDot(Lower(p)[a..b]) <==> HasNonDot(p[a..b])
  {
    LowerSlice(p, a, b);
    var q := p[a..b];
    if HasNonDot(q) {
      var i :| 0 <= i < |q| && q[i] != '.';
      assert Lower(q)[i] != '.';
    }
    if HasNonDot(Lower(q)) {
      var i :| 0 <= i < |q| && Lower(q)[i] != '.';
      assert q[i] != '.';
    }
  }

  /** Names that differ only in letter case classify the same: `A.TXT` like `a.txt`. */
  lemma {:induction false} ClassifyIgnoresCase(p: string, q: string)
    requires Lower(p) == Lower(q)
    ensures Classify(p) == Classify(q)
  {
    SplitExtLower(p);
    SplitExtLower(q);
  }

  /** An upper-case spelling of a table extension, such as `REPORT.PDF`, is accepted as well. */
  lemma UpperCaseSuffixAccepted(stem: string, ext: string)
    requires ext in Models.FileTypeMap
    requires HasNonDot(stem[RFind(stem, '/') + 1..])
    ensures Classify(stem + Upper(ext)) == Ok(Models.FileTypeMap[ext])
  {
    Models.KeyIsExtension(ext);
    assert Lower(Upper(ext)) == ext;
    LowerSlice(stem + Upper(ext), 0, |stem|);
    LowerSlice(stem + ext, 0, |stem|);
    LowerSlice(stem + Upper(ext), |stem|, |stem| + |ext|);
    LowerSlice(stem + ext, |stem|, |stem| + |ext|);
    assert (stem + Upper(ext))[|stem|..] == Upper(ext);
    assert (stem + ext)[|stem|..] == ext;
    assert (stem + Upper(ext))[..|stem|] == (stem + ext)[..|stem|] == stem;
    assert Lower(stem + Upper(ext)) == Lower(stem + ext);
    ClassifyIgnoresCase(stem + Upper(ext), stem + ext);
    FinalSuffixDecides(stem, ext);
  }

  /** No dot in the last path component: the extension is empty and the name is rejected. */
  lemma NoDotRejected(p: string)
    requires '.' !in p[RFind(p, '/') + 1..]
    ensures SplitExt(p).1 == ""
    ensures Classify(p) == Err(UnsupportedFileType(""))
  {
    Models.EmptyIsNotAKey();
  }

  function Dots(k: nat): (r: string)
    ensures |r| == k && forall i :: 0 <= i < k ==> r[i] == '.'
  {
    seq(k, i => '.')
  }

  /**
   * A last component made of dots and then one more suffix, such as `.txt` or `..txt`,
   * has an empty extension and is rejected.
   */
  lemma LeadingDotsRejected(dir: string, k: nat, rest: string)
    requires dir == [] || dir[|dir| - 1] == '/'
    requires '.' !in rest && '/' !in rest
    ensures SplitExt(dir + Dots(k) + "." + rest).1 == ""
    ensures Classify(dir + Dots(k) + "." + rest) == Err(UnsupportedFileType(""))
  {
    var p := dir + Dots(k) + "." + rest;
    var n := |dir|;
    LastDotAndSeparator(dir, k, rest);
    assert p[n..n + k] == Dots(k);
    assert SplitAt(p, n - 1, n + k).1 == "";
    Models.EmptyIsNotAKey();
  }

  lemma LastDotAndSeparator(dir: string, k: nat, rest: string)
    requires dir == [] || dir[|dir| - 1] == '/'
    requires '.' !in rest && '/' !in rest
    ensures RFind(dir + Dots(k) + "." + rest, '.') == |dir| + k
    ensures RFind(dir + Dots(k) + "." + rest, '/') == |dir| - 1
  {
    var p := dir + Dots(k) + "." + rest;
    var n := |dir|;
    assert p[n + k] == '.';
    forall i | n + k < i < |p| ensures p[i] != '.' && p[i] != '/' {
      assert p[i] == rest[i - n - k - 1];
    }
    forall i | n <= i < n + k ensures p[i] != '/' {
      assert p[i] == Dots(k)[i - n];
    }
    RFindIs(p, '.', n + k);
    RFindIs(p, '/', n - 1);
  }

  /**
   * Only the final suffix counts: a name whose last component has something other
   * than dots before a table extension is classified by that extension.
   */
  lemma FinalSuffixDecides(stem: string, ext: string)
    requires ext in Models.FileTypeMap
    requires HasNonDot(stem[RFind(stem, '/') + 1..])
    ensures Classify(stem + ext) == Ok(Models.FileTypeMap[ext])
  {
    Models.KeyIsExtension(ext);
    SuffixIsExtension(stem, ext);
  }

  lemma SuffixIsExtension(stem: string, ext: string)
    requires Models.IsExtensionKey(ext)
    requires HasNonDot(stem[RFind(stem, '/') + 1..])
    ensures Extension(stem + ext) == ext
  {
    var p := stem + ext;
    var n := |stem|;
    var s := RFind(stem, '/');
    SuffixSeparators(stem, ext);
    assert p[s + 1..n] == stem[s + 1..];
    assert HasNonDot(p[s + 1..n]);
    assert SplitExt(p) == SplitAt(p, s, n);
    assert SplitAt(p, s, n).1 == ext;
    LowerExtensionKey(ext);
  }

  lemma LowerExtensionKey(ext: string)
    requires Models.IsExtensionKey(ext)
    ensures Lower(ext) == ext
  {
    forall i | 0 <= i < |ext| ensures LowerChar(ext[i]) == ext[i] {
    }
  }

  /** In `stem + ext` the last dot is the one opening `ext`, and the last separator is in `stem`. */
  lemma SuffixSeparators(stem: string, ext: string)
    requires Models.IsExtensionKey(ext)
    ensures RFind(stem + ext, '.') == |stem|
    ensures RFind(stem + ext, '/') == RFind(stem, '/')
  {
    var p := stem + ext;
    var n := |stem|;
    forall i | n < i < |p| ensures p[i] != '.' && p[i] != '/' {
      ExtensionKeyChar(ext, i - n);
    }
    RFindIs(p, '.', n);
    var s := RFind(stem, '/');
    forall i | s < i < n ensures p[i] != '/' {
      assert p[i] == stem[i];
    }
    RFindIs(p, '/', s);
  }

  lemma ExtensionKeyChar(ext: string, i: int)
    requires Models.IsExtensionKey(ext) && 1 <= i < |ext|
    ensures ext[i] != '.' && ext[i] != '/'
  {
  }

  /** Validating an already validated file gives the same result again. */
  lemma ValidationIdempotent(file: FileObject)
    requires FileValidation(file).Ok?
    ensures FileValidation(FileValidation(file).value) == FileValidation(file)
  {
  }

  /** An unsupported name yields the error and no file object carrying a `file_type`. */
  lemma RejectedIffUnknown(file: FileObject)
    ensures FileValidation(file).Err? <==> Extension(FilenameText(file.filename)) !in Models.FileTypeMap
    ensures FileValidation(file).Err? ==>
      FileValidation(file).error == UnsupportedFileType(Extension(FilenameText(file.filename)))
  {
  }
}
