/**
 * The error-code tooling of `tools/gen_error_codes.py`: the code of an error site (eight
 * hex digits of a SHA-256 digest of `file:function:line`), the name of the function an
 * error line sits in, and the rewriting of marked lines with the error map it records.
 *
 * SHA-256 itself is a parameter (`Sha256`, a total function from the identifier to a
 * 32-byte digest); the directory walk is a list of `(file name, lines)` pairs.
 */
module GenErrorCodes {
  import opened Outcomes
  import opened PyStr

  newtype byte = x: int | 0 <= x < 256

  /** A SHA-256 digest: 32 bytes. */
  type Digest = d: seq<byte> | |d| == 32 witness seq(32, i => 0 as byte)

  /** `hashlib.sha256(identifier.encode()).digest()` */
  type Sha256 = string -> Digest

  // ---------------------------------------------------------------------------
  // `generate_error_code`

  predicate IsHexDigit(c: char) {
    '0' <= c <= '9' || 'a' <= c <= 'f'
  }

  function HexDigit(n: nat): (c: char)
    requires n < 16
    ensures IsHexDigit(c)
  {
    if n < 10 then ('0' as int + n) as char else ('a' as int + n - 10) as char
  }

  /** `hexdigest()`: two lower-case hex digits per byte, high nibble first. */
  function Hex(bytes: seq<byte>): (r: string)
    ensures |r| == 2 * |bytes|
    ensures forall i :: 0 <= i < |r| ==> IsHexDigit(r[i])
  {
    if bytes == [] then []
    else [HexDigit(bytes[0] as nat / 16), HexDigit(bytes[0] as nat % 16)] + Hex(bytes[1..])
  }

  /** The first `2n` hex digits spell the first `n` bytes. */
  lemma {:induction false} HexPrefix(bytes: seq<byte>, n: nat)
    requires n <= |bytes|
    ensures Hex(bytes)[..2 * n] == Hex(bytes[..n])
  {
    if n > 0 {
      HexPrefix(bytes[1..], n - 1);
      assert bytes[..n][1..] == bytes[1..][..n - 1];
    }
  }

  /** `f"{file}:{func}:{line}"` */
  function Identifier(file: string, func: string, line: nat): string {
    file + ":" + func + ":" + Decimal(line)
  }

  /** Colon-free file and function names make the identifier name a single error site. */
  lemma IdentifierInjective(file1: string, func1: string, line1: nat, file2: string, func2: string, line2: nat)
    requires ':' !in file1 && ':' !in func1 && ':' !in file2 && ':' !in func2
    requires Identifier(file1, func1, line1) == Identifier(file2, func2, line2)
    ensures file1 == file2 && func1 == func2 && line1 == line2
  {
    IdentifierParts(file1, func1, line1);
    IdentifierParts(file2, func2, line2);
    DecimalInjective(line1, line2);
  }

  lemma IdentifierParts(file: string, func: string, line: nat)
    requires ':' !in file && ':' !in func
    ensures Split(Identifier(file, func, line), ":") == [file, func, Decimal(line)]
  {
    var parts := [file, func, Decimal(line)];
    assert parts[1..] == [func, Decimal(line)];
    assert Join(parts[1..], ":") == func + ":" + Decimal(line);
    assert Join(parts, ":") == Identifier(file, func, line);
    CharSeparatesCleanly(file, ':');
    CharSeparatesCleanly(func, ':');
    assert ':' !in Decimal(line) by {
      forall i | 0 <= i < |Decimal(line)| ensures Decimal(line)[i] != ':' {
        assert '0' <= Decimal(line)[i] <= '9';
      }
    }
    CharContains(Decimal(line), ':');
    SplitJoin(parts, ":");
  }

  /**
   * `generate_error_code`: eight lower-case hex digits, which are those of the first four
   * bytes of the identifier's digest.
   */
  function ErrorCode(sha: Sha256, file: string, func: string, line: nat): (code: string)
    ensures |code| == 8 && forall i :: 0 <= i < 8 ==> IsHexDigit(code[i])
    ensures code == Hex(sha(Identifier(file, func, line))[..4])
  {
    var digest := sha(Identifier(file, func, line));
    HexPrefix(digest, 4);
    Hex(digest)[..8]
  }

  // ---------------------------------------------------------------------------
  // `get_function_name`

  /** `lines[i].split("(")[0].split()[1]` raises `IndexError` when there is no second word. */
  datatype FunctionNameError = IndexError

  /** The name a `def` line yields: the second word of the text before its first `(`. */
  function NameOf(line: string): Result<string, FunctionNameError> {
    var words := Words(Split(line, "(")[0]);
    if |words| < 2 then Err(IndexError) else Ok(words[1])
  }

  /**
   * The nearest line at or above `idx` that starts a definition, or -1 when there is none:
   * a definition line, with no definition line after it up to `idx`.
   */
  function DefAbove(lines: seq<string>, idx: nat): (d: int)
    requires idx < |lines|
    ensures -1 <= d <= idx
    ensures d >= 0 ==> IsDefLine(lines[d])
    ensures forall j :: d < j <= idx ==> !IsDefLine(lines[j])
  {
    if IsDefLine(lines[idx]) then idx
    else if idx == 0 then -1
    else DefAbove(lines, idx - 1)
  }

  /**
   * The function an error on line `idx` is attributed to: the name from the nearest line at
   * or above `idx` that starts a definition, or `"global"` when there is none.
   */
  function FunctionName(lines: seq<string>, idx: nat): Result<string, FunctionNameError>
    requires idx < |lines|
  {
    var d := DefAbove(lines, idx);
    if d < 0 then Ok("global") else NameOf(lines[d])
  }

  /** `get_function_name`: scan upwards from `idx` and stop at the first definition. */
  method GetFunctionName(lines: seq<string>, idx: nat) returns (r: Result<string, FunctionNameError>)
    requires idx < |lines|
    ensures r == FunctionName(lines, idx)
  {
    var i: nat := idx;
    while true
      invariant i <= idx
      invariant DefAbove(lines, idx) == DefAbove(lines, i)
      decreases i
    {
      if IsDefLine(lines[i]) {
        return NameOf(lines[i]);
      }
      if i == 0 {
        return Ok("global");
      }
      i := i - 1;
    }
  }

  lemma {:induction false} LStripFront(ind: string, t: string)
    requires forall i :: 0 <= i < |ind| ==> IsSpace(ind[i])
    requires t == [] || !IsSpace(t[0])
    ensures LStrip(ind + t) == t
    decreases |ind|
  {
    if ind != [] {
      assert (ind + t)[1..] == ind[1..] + t;
      LStripFront(ind[1..], t);
    } else {
      assert ind + t == t;
    }
  }

  lemma {:induction false} LeadingWordIs(w: string, rest: string)
    requires forall i :: 0 <= i < |w| ==> !IsSpace(w[i])
    requires rest == [] || IsSpace(rest[0])
    ensures LeadingWord(w + rest) == w
    decreases |w|
  {
    if w != [] {
      assert (w + rest)[1..] == w[1..] + rest;
      LeadingWordIs(w[1..], rest);
    } else {
      assert w + rest == rest;
    }
  }

  /** `Words` peels off the leading word `w` of the left-stripped text `t`. */
  lemma WordsStep(s: string, t: string, w: string, tail: string)
    requires LStrip(s) == t && t != [] && LeadingWord(t) == w && tail == t[|w|..]
    ensures Words(s) == [w] + Words(tail)
  {
  }

  /** A single word after a space is the only word. */
  lemma WordsOfWord(name: string)
    requires name != [] && forall i :: 0 <= i < |name| ==> !IsSpace(name[i])
    ensures Words(" " + name) == [name]
  {
    var rest := " " + name;
    LStripFront(" ", name);
    LeadingWordIs(name, []);
    assert name + [] == name;
    WordsStep(rest, name, name, []);
    assert Words([]) == [];
  }

  /** A word followed by a space is the leading word. */
  lemma WordBeforeSpace(w: string, name: string)
    requires forall i :: 0 <= i < |w| ==> !IsSpace(w[i])
    ensures LeadingWord(w + (" " + name)) == w
  {
    var rest := " " + name;
    assert rest[0] == ' ';
    LeadingWordIs(w, rest);
  }

  /** Two words: the leading word of the stripped text, then the one word of the rest. */
  lemma WordsPair(s: string, t: string, w: string, tail: string, name: string)
    requires LStrip(s) == t && t != [] && LeadingWord(t) == w && tail == t[|w|..]
    requires Words(tail) == [name]
    ensures Words(s) == [w] + [name]
  {
    WordsStep(s, t, w, tail);
  }

  lemma SeqPair(w: string, name: string)
    ensures [w] + [name] == [w, name]
  {
  }

  /** The words of `def name`, after any indentation. */
  lemma DefWords(ind: string, name: string)
    requires forall i :: 0 <= i < |ind| ==> IsSpace(ind[i])
    requires name != [] && forall i :: 0 <= i < |name| ==> !IsSpace(name[i])
    ensures Words(ind + "def " + name) == ["def", name]
  {
    var t := "def" + (" " + name);
    DefIsWord();
    DefRegroup(ind, name);
    assert LStrip(ind + t) == t by {
      assert t[0] == 'd';
      LStripFront(ind, t);
    }
    WordBeforeSpace("def", name);
    WordsOfWord(name);
    assert t[3..] == " " + name;
    WordsPair(ind + "def " + name, t, "def", " " + name, name);
    SeqPair("def", name);
  }

  lemma DefRegroup(ind: string, name: string)
    ensures ind + "def " + name == ind + ("def" + (" " + name))
  {
    assert "def " == "def" + " ";
  }

  lemma DefIsWord()
    ensures forall i :: 0 <= i < |"def"| ==> !IsSpace("def"[i])
  {
    assert "def"[0] == 'd' && "def"[1] == 'e' && "def"[2] == 'f';
  }

  /** A definition line starts a definition, however indented. */
  lemma DefLineIsDef(line: string, ind: string, t: string)
    requires line == ind + t
    requires forall i :: 0 <= i < |ind| ==> IsSpace(ind[i])
    requires |t| > 4 && t[..4] == "def " && !IsSpace(t[4])
    ensures IsDefLine(line)
  {
    StripLeadingSpace(ind, t);
    StripKeepsFront(t);
    assert |Strip(t)| > 4;
    assert Strip(t)[..4] == t[..4];
  }

  /** The text before the first `(` of `head + "(" + rest`, when `head` holds none. */
  lemma BeforeParen(head: string, rest: string)
    requires '(' !in head
    ensures Split(head + "(" + rest, "(")[0] == head
  {
    var line := head + "(" + rest;
    forall k | 0 <= k < |head|
      ensures !MatchAt(line, "(", k)
    {
      assert line[k..k + 1][0] == head[k];
    }
    assert line[|head|..|head| + 1] == "(";
    FindIs(line, "(", |head|);
    assert line[..|head|] == head;
  }

  /**
   * A definition line `def name(...)`, however indented, starts a definition and yields
   * `name` when the name holds no whitespace and no `(`.
   */
  lemma NameOfDef(ind: string, name: string, rest: string)
    requires forall i :: 0 <= i < |ind| ==> IsSpace(ind[i])
    requires name != [] && forall i :: 0 <= i < |name| ==> !IsSpace(name[i]) && name[i] != '('
    ensures IsDefLine(ind + "def " + name + "(" + rest)
    ensures NameOf(ind + "def " + name + "(" + rest) == Ok(name)
  {
    var head := ind + "def " + name;
    var line := ind + "def " + name + "(" + rest;
    var t := "def " + name + "(" + rest;
    DefParts(ind, name, rest);
    DefLineIsDef(line, ind, t);
    NoParenInHead(ind, name);
    BeforeParen(head, rest);
    DefWords(ind, name);
  }

  lemma DefParts(ind: string, name: string, rest: string)
    requires name != []
    ensures var t := "def " + name + "(" + rest;
      && ind + "def " + name + "(" + rest == ind + t
      && ind + "def " + name + "(" + rest == (ind + "def " + name) + "(" + rest
      && |t| > 4 && t[..4] == "def " && t[4] == name[0]
  {
  }

  lemma NoParenInHead(ind: string, name: string)
    requires forall i :: 0 <= i < |ind| ==> IsSpace(ind[i])
    requires forall i :: 0 <= i < |name| ==> name[i] != '('
    ensures '(' !in ind + "def " + name
  {
    var head := ind + "def " + name;
    forall k | 0 <= k < |head| ensures head[k] != '(' {
      if k < |ind| {
        assert head[k] == ind[k];
      } else if k < |ind| + 4 {
        assert head[k] == "def "[k - |ind|];
      } else {
        assert head[k] == name[k - |ind| - 4];
      }
    }
  }

  /** `async def` lines are not recognised as definitions. */
  lemma AsyncDefIgnored(ind: string, rest: string)
    requires forall i :: 0 <= i < |ind| ==> IsSpace(ind[i])
    ensures !IsDefLine(ind + "async def " + rest)
  {
    var t := "async def " + rest;
    assert ind + "async def " + rest == ind + t;
    StripLeadingSpace(ind, t);
    StripKeepsFront(t);
    assert Strip(t)[0] == 'a';
  }

  // ---------------------------------------------------------------------------
  // `preprocess_errors`

  /** The placeholder `line.replace` substitutes. */
  const Placeholder: string := "#{error_code}"

  /** The text `re.search(r'Error #\{error_code\}', line)` looks for. */
  const Marker: string := "Error " + Placeholder

  predicate Marked(line: string) {
    Contains(line, Marker)
  }

  /** One entry of the error map. */
  datatype ErrorEntry = ErrorEntry(file: string, func: string, line: nat)

  /** The code of line `i`, or the error that computing it raises. */
  function LineCode(sha: Sha256, file: string, lines: seq<string>, i: nat): Result<string, FunctionNameError>
    requires i < |lines|
  {
    var name := FunctionName(lines, i);
    if name.Err? then Err(name.error) else Ok(ErrorCode(sha, file, name.value, i + 1))
  }

  /** Every marked line can be attributed to a function without raising. */
  predicate Resolvable(lines: seq<string>) {
    ResolvableUpTo(lines, |lines|)
  }

  /** The first `n` lines are attributable. */
  predicate ResolvableUpTo(lines: seq<string>, n: nat)
    requires n <= |lines|
  {
    forall i :: 0 <= i < n ==> Attributable(lines, i)
  }

  /** One line that cannot be attributed makes the file unresolvable. */
  lemma Unresolvable(lines: seq<string>, i: nat)
    requires i < |lines| && !Attributable(lines, i)
    ensures !Resolvable(lines)
  {
  }

  lemma ResolvableStep(lines: seq<string>, n: nat)
    requires n < |lines| && ResolvableUpTo(lines, n) && Attributable(lines, n)
    ensures ResolvableUpTo(lines, n + 1)
  {
  }

  /** Line `i` needs no function name, or its function name is found. */
  predicate Attributable(lines: seq<string>, i: nat)
    requires i < |lines|
  {
    !Marked(lines[i]) || FunctionName(lines, i).Ok?
  }

  /** Line `i` as it is written back: marked lines get their code in place of the placeholder. */
  function Rewritten(sha: Sha256, file: string, lines: seq<string>, i: nat): string
    requires i < |lines|
  {
    var code := LineCode(sha, file, lines, i);
    if Marked(lines[i]) && code.Ok? then ReplaceAll(lines[i], Placeholder, code.value) else lines[i]
  }

  /** The first `n` lines as they are written back. */
  function RewrittenUpTo(sha: Sha256, file: string, lines: seq<string>, n: nat): (r: seq<string>)
    requires n <= |lines|
    ensures |r| == n && forall i :: 0 <= i < n ==> r[i] == Rewritten(sha, file, lines, i)
  {
    if n == 0 then [] else RewrittenUpTo(sha, file, lines, n - 1) + [Rewritten(sha, file, lines, n - 1)]
  }

  function RewrittenLines(sha: Sha256, file: string, lines: seq<string>): (r: seq<string>)
    ensures |r| == |lines| && forall i :: 0 <= i < |lines| ==> r[i] == Rewritten(sha, file, lines, i)
  {
    RewrittenUpTo(sha, file, lines, |lines|)
  }

  /** Line `i` of `lines` is marked and records `code`. */
  predicate RecordsCode(sha: Sha256, file: string, lines: seq<string>, i: int, code: string) {
    0 <= i < |lines| && Marked(lines[i]) && LineCode(sha, file, lines, i) == Ok(code)
  }

  /** Line `i` records a code that no later line before line `n` records again. */
  predicate LastToRecord(sha: Sha256, file: string, lines: seq<string>, i: int, n: int) {
    && 0 <= i < |lines| && Marked(lines[i]) && LineCode(sha, file, lines, i).Ok?
    && forall j :: i < j < n ==> !RecordsCode(sha, file, lines, j, LineCode(sha, file, lines, i).value)
  }

  /** A marked line carries the placeholder six characters into the marker. */
  lemma MarkedHasPlaceholder(line: string)
    requires Marked(line)
    ensures Contains(line, Placeholder)
  {
    ContainsIff(line, Marker);
    var k :| MatchAt(line, Marker, k);
    assert line[k + 6..k + 6 + |Placeholder|] == Marker[6..];
    assert MatchAt(line, Placeholder, k + 6);
    ContainsIff(line, Placeholder);
  }

  /** Exactly the marked lines change, each by becoming shorter; the line count is kept. */
  lemma RewriteChangesMarked(sha: Sha256, file: string, lines: seq<string>, i: nat)
    requires i < |lines| && Attributable(lines, i)
    ensures |RewrittenLines(sha, file, lines)| == |lines|
    ensures Rewritten(sha, file, lines, i) != lines[i] <==> Marked(lines[i])
    ensures Marked(lines[i]) ==> |Rewritten(sha, file, lines, i)| < |lines[i]|
  {
    if Marked(lines[i]) {
      MarkedHasPlaceholder(lines[i]);
      ReplaceShorter(lines[i], Placeholder, LineCode(sha, file, lines, i).value);
    }
  }

  /**
   * The error map after the first `n` lines of a file: each marked line whose function is
   * found sets the entry `(file, function, 1-based line)` under its code.
   */
  function ErrorMapAfter(sha: Sha256, file: string, lines: seq<string>, m: map<string, ErrorEntry>, n: nat)
    : map<string, ErrorEntry>
    requires n <= |lines|
  {
    if n == 0 then m else Record(sha, file, lines, ErrorMapAfter(sha, file, lines, m, n - 1), n - 1)
  }

  /** The map after line `i` is seen. */
  function Record(sha: Sha256, file: string, lines: seq<string>, m: map<string, ErrorEntry>, i: nat): map<string, ErrorEntry>
    requires i < |lines|
  {
    var name := FunctionName(lines, i);
    if Marked(lines[i]) && name.Ok? then m[ErrorCode(sha, file, name.value, i + 1) := ErrorEntry(file, name.value, i + 1)]
    else m
  }

  /** Line `i` adds its own code, if it records one, and no other. */
  lemma RecordKeys(sha: Sha256, file: string, lines: seq<string>, m: map<string, ErrorEntry>, i: nat)
    requires i < |lines|
    ensures forall code :: code in Record(sha, file, lines, m, i) <==> code in m || RecordsCode(sha, file, lines, i, code)
  {
  }

  /** Some line before line `n` records `code`. */
  predicate RecordedBefore(sha: Sha256, file: string, lines: seq<string>, n: nat, code: string) {
    exists i :: 0 <= i < n && RecordsCode(sha, file, lines, i, code)
  }

  lemma RecordedStep(sha: Sha256, file: string, lines: seq<string>, n: nat, code: string)
    requires 0 < n
    ensures RecordedBefore(sha, file, lines, n, code) <==>
      RecordedBefore(sha, file, lines, n - 1, code) || RecordsCode(sha, file, lines, n - 1, code)
  {
    if RecordedBefore(sha, file, lines, n, code) && !RecordsCode(sha, file, lines, n - 1, code) {
      var i :| 0 <= i < n && RecordsCode(sha, file, lines, i, code);
      assert i < n - 1;
    }
  }

  /** The codes in the map are the earlier ones and those of the marked lines. */
  lemma {:induction false} ErrorMapKeys(sha: Sha256, file: string, lines: seq<string>, m: map<string, ErrorEntry>, n: nat)
    requires n <= |lines|
    ensures forall code :: code in ErrorMapAfter(sha, file, lines, m, n) <==>
      code in m || RecordedBefore(sha, file, lines, n, code)
  {
    if n > 0 {
      ErrorMapKeys(sha, file, lines, m, n - 1);
      AfterKeys(sha, file, lines, m, n);
      KeysStep(sha, file, lines, m, n, ErrorMapAfter(sha, file, lines, m, n - 1), ErrorMapAfter(sha, file, lines, m, n));
    }
  }

  /** Line `n - 1` adds its own code, if it records one, to the map after the lines before it. */
  lemma AfterKeys(sha: Sha256, file: string, lines: seq<string>, m: map<string, ErrorEntry>, n: nat)
    requires 0 < n <= |lines|
    ensures forall code :: code in ErrorMapAfter(sha, file, lines, m, n) <==>
      code in ErrorMapAfter(sha, file, lines, m, n - 1) || RecordsCode(sha, file, lines, n - 1, code)
  {
    RecordKeys(sha, file, lines, ErrorMapAfter(sha, file, lines, m, n - 1), n - 1);
  }

  lemma KeysStep(sha: Sha256, file: string, lines: seq<string>, m: map<string, ErrorEntry>, n: nat,
                 before: map<string, ErrorEntry>, after: map<string, ErrorEntry>)
    requires 0 < n
    requires forall code :: code in before <==> code in m || RecordedBefore(sha, file, lines, n - 1, code)
    requires forall code :: code in after <==> code in before || RecordsCode(sha, file, lines, n - 1, code)
    ensures forall code :: code in after <==> code in m || RecordedBefore(sha, file, lines, n, code)
  {
    forall code
      ensures RecordedBefore(sha, file, lines, n, code) <==>
        RecordedBefore(sha, file, lines, n - 1, code) || RecordsCode(sha, file, lines, n - 1, code)
    {
      RecordedStep(sha, file, lines, n, code);
    }
  }

  /** A code's entry comes from the last line that records it. */
  lemma {:induction false} ErrorMapLastWins(sha: Sha256, file: string, lines: seq<string>, m: map<string, ErrorEntry>, n: nat, i: nat)
    requires i < n <= |lines| && LastToRecord(sha, file, lines, i, n)
    ensures var code := LineCode(sha, file, lines, i).value;
      && code in ErrorMapAfter(sha, file, lines, m, n)
      && ErrorMapAfter(sha, file, lines, m, n)[code] == ErrorEntry(file, FunctionName(lines, i).value, i + 1)
  {
    var code := LineCode(sha, file, lines, i).value;
    if i < n - 1 {
      LastStaysLast(sha, file, lines, i, n);
      ErrorMapLastWins(sha, file, lines, m, n - 1, i);
      AfterKeeps(sha, file, lines, m, n, code);
    } else {
      AfterSets(sha, file, lines, m, n);
    }
  }

  /** The last line before `n` to record its code is also the last before `n - 1`, and line `n - 1` does not record it. */
  lemma LastStaysLast(sha: Sha256, file: string, lines: seq<string>, i: nat, n: nat)
    requires i < n - 1 && n <= |lines| && LastToRecord(sha, file, lines, i, n)
    ensures LastToRecord(sha, file, lines, i, n - 1)
    ensures !RecordsCode(sha, file, lines, n - 1, LineCode(sha, file, lines, i).value)
  {
  }

  /** A code line `n - 1` does not record keeps its entry. */
  lemma AfterKeeps(sha: Sha256, file: string, lines: seq<string>, m: map<string, ErrorEntry>, n: nat, code: string)
    requires 0 < n <= |lines| && code in ErrorMapAfter(sha, file, lines, m, n - 1)
    requires !RecordsCode(sha, file, lines, n - 1, code)
    ensures code in ErrorMapAfter(sha, file, lines, m, n)
    ensures ErrorMapAfter(sha, file, lines, m, n)[code] == ErrorMapAfter(sha, file, lines, m, n - 1)[code]
  {
  }

  /** A marked line `n - 1` whose function is found sets its own entry. */
  lemma AfterSets(sha: Sha256, file: string, lines: seq<string>, m: map<string, ErrorEntry>, n: nat)
    requires 0 < n <= |lines| && Marked(lines[n - 1]) && LineCode(sha, file, lines, n - 1).Ok?
    ensures var code := LineCode(sha, file, lines, n - 1).value;
      && code in ErrorMapAfter(sha, file, lines, m, n)
      && ErrorMapAfter(sha, file, lines, m, n)[code] == ErrorEntry(file, FunctionName(lines, n - 1).value, n)
  {
  }

  /** Entries whose code no line records are kept as they were. */
  lemma {:induction false} ErrorMapKeeps(sha: Sha256, file: string, lines: seq<string>, m: map<string, ErrorEntry>, n: nat, code: string)
    requires n <= |lines| && code in m
    requires forall i :: 0 <= i < n ==> !RecordsCode(sha, file, lines, i, code)
    ensures code in ErrorMapAfter(sha, file, lines, m, n) && ErrorMapAfter(sha, file, lines, m, n)[code] == m[code]
  {
    if n > 0 {
      ErrorMapKeeps(sha, file, lines, m, n - 1, code);
      assert !RecordsCode(sha, file, lines, n - 1, code);
    }
  }

  /**
   * One turn of the per-file loop: a marked line gets its code and records its entry, an
   * unmarked one passes through; finding the function name may raise.
   */
  method RewriteLine(sha: Sha256, file: string, lines: seq<string>, idx: nat, m: map<string, ErrorEntry>)
    returns (r: Result<(string, map<string, ErrorEntry>), FunctionNameError>)
    requires idx < |lines|
    ensures r.Ok? <==> Attributable(lines, idx)
    ensures r.Ok? ==> r.value.0 == Rewritten(sha, file, lines, idx) && r.value.1 == Record(sha, file, lines, m, idx)
  {
    var line := lines[idx];
    if !Marked(line) {
      return Ok((line, m));
    }
    var name := GetFunctionName(lines, idx);
    if name.Err? {
      return Err(name.error);
    }
    var code := ErrorCode(sha, file, name.value, idx + 1);
    return Ok((ReplaceAll(line, Placeholder, code), m[code := ErrorEntry(file, name.value, idx + 1)]));
  }

  /** One more line rewritten and recorded. */
  lemma TurnStep(sha: Sha256, file: string, lines: seq<string>, m: map<string, ErrorEntry>, n: nat)
    requires n < |lines|
    ensures RewrittenUpTo(sha, file, lines, n + 1) == RewrittenUpTo(sha, file, lines, n) + [Rewritten(sha, file, lines, n)]
    ensures ErrorMapAfter(sha, file, lines, m, n + 1) == Record(sha, file, lines, ErrorMapAfter(sha, file, lines, m, n), n)
  {
  }

  /** A file after rewriting, with the error map extended by its marked lines. */
  datatype Rewrite = Rewrite(lines: seq<string>, errorMap: map<string, ErrorEntry>)

  /**
   * The body of the per-file loop of `preprocess_errors`: each marked line gets its code
   * and an entry in the error map; the first marked line whose function name cannot be
   * found raises, and then nothing of the file is written.
   */
  method PreprocessFile(sha: Sha256, file: string, lines: seq<string>, errorMap: map<string, ErrorEntry>)
    returns (r: Result<Rewrite, FunctionNameError>)
    ensures r.Ok? <==> Resolvable(lines)
    ensures r.Ok? ==> r.value == Rewrite(RewrittenLines(sha, file, lines), ErrorMapAfter(sha, file, lines, errorMap, |lines|))
  {
    var newLines := [];
    var newMap := errorMap;
    var idx := 0;
    while idx < |lines|
      invariant idx <= |lines|
      invariant ResolvableUpTo(lines, idx)
      invariant newLines == RewrittenUpTo(sha, file, lines, idx)
      invariant newMap == ErrorMapAfter(sha, file, lines, errorMap, idx)
    {
      var step := RewriteLine(sha, file, lines, idx, newMap);
      if step.Err? {
        Unresolvable(lines, idx);
        return Err(step.error);
      }
      ResolvableStep(lines, idx);
      TurnStep(sha, file, lines, errorMap, idx);
      newLines := newLines + [step.value.0];
      newMap := step.value.1;
      idx := idx + 1;
    }
    return Ok(Rewrite(newLines, newMap));
  }

  /** `file.endswith(".py")` */
  predicate IsPy(name: string) {
    EndsWith(name, ".py")
  }

  /** What a file holds after the walk: rewritten when it is a module, untouched otherwise. */
  function Processed(sha: Sha256, file: (string, seq<string>)): seq<string> {
    if IsPy(file.0) then RewrittenLines(sha, file.0, file.1) else file.1
  }

  /** Every module among the first `n` files is resolvable. */
  predicate ModulesResolvable(files: seq<(string, seq<string>)>, n: nat)
    requires n <= |files|
  {
    forall f :: 0 <= f < n && IsPy(files[f].0) ==> Resolvable(files[f].1)
  }

  lemma ModulesResolvableStep(files: seq<(string, seq<string>)>, n: nat)
    requires n < |files| && ModulesResolvable(files, n)
    requires IsPy(files[n].0) ==> Resolvable(files[n].1)
    ensures ModulesResolvable(files, n + 1)
  {
  }

  /** The error map after the first `n` files. */
  function ErrorMapOfFiles(sha: Sha256, files: seq<(string, seq<string>)>, n: nat): map<string, ErrorEntry>
    requires n <= |files|
  {
    if n == 0 then map[]
    else
      var prev := ErrorMapOfFiles(sha, files, n - 1);
      var file := files[n - 1];
      if IsPy(file.0) then ErrorMapAfter(sha, file.0, file.1, prev, |file.1|) else prev
  }

  lemma FileStep(sha: Sha256, files: seq<(string, seq<string>)>, n: nat)
    requires n < |files|
    ensures ErrorMapOfFiles(sha, files, n + 1) ==
      if IsPy(files[n].0) then ErrorMapAfter(sha, files[n].0, files[n].1, ErrorMapOfFiles(sha, files, n), |files[n].1|)
      else ErrorMapOfFiles(sha, files, n)
  {
  }

  /**
   * `preprocess_errors` over the walked files, in walk order: each module is rewritten in
   * turn and the error map threads through them. When a module raises, the walk stops:
   * the files before it stay rewritten, the map is not written, and `written` holds the
   * contents of those earlier files.
   */
  method PreprocessErrors(sha: Sha256, files: seq<(string, seq<string>)>)
    returns (written: seq<seq<string>>, r: Result<map<string, ErrorEntry>, FunctionNameError>)
    ensures |written| <= |files|
    ensures forall f :: 0 <= f < |written| ==> written[f] == Processed(sha, files[f])
    ensures forall f :: 0 <= f < |written| && IsPy(files[f].0) ==> Resolvable(files[f].1)
    ensures r.Ok? <==> |written| == |files|
    ensures r.Err? ==> IsPy(files[|written|].0) && !Resolvable(files[|written|].1)
    ensures r.Ok? ==> r.value == ErrorMapOfFiles(sha, files, |files|)
  {
    written := [];
    var errorMap := map[];
    var f := 0;
    while f < |files|
      invariant f <= |files| && |written| == f
      invariant forall g :: 0 <= g < f ==> written[g] == Processed(sha, files[g])
      invariant ModulesResolvable(files, f)
      invariant errorMap == ErrorMapOfFiles(sha, files, f)
    {
      var (name, lines) := files[f];
      if IsPy(name) {
        var result := PreprocessFile(sha, name, lines, errorMap);
        if result.Err? {
          return written, Err(result.error);
        }
        errorMap := result.value.errorMap;
        written := written + [result.value.lines];
      } else {
        written := written + [lines];
      }
      ModulesResolvableStep(files, f);
      FileStep(sha, files, f);
      f := f + 1;
    }
    r := Ok(errorMap);
  }
}
