/**
 * The Python `str` operations the modelled code relies on, written as total
 * functions over `seq<char>`, with the facts about them that the other modules use.
 */
module PyStr {

  // ---------------------------------------------------------------------------
  // Case mapping (ASCII letters; see README for the non-ASCII case)

  function LowerChar(c: char): char {
    if 'A' <= c <= 'Z' then (c as int + 32) as char else c
  }

  function UpperChar(c: char): char {
    if 'a' <= c <= 'z' then (c as int - 32) as char else c
  }

  /** `s.lower()` */
  function Lower(s: string): (r: string)
    ensures |r| == |s|
    ensures forall i :: 0 <= i < |s| ==> r[i] == LowerChar(s[i])
  {
    seq(|s|, i requires 0 <= i < |s| => LowerChar(s[i]))
  }

  /** `s.upper()` */
  function Upper(s: string): (r: string)
    ensures |r| == |s|
    ensures forall i :: 0 <= i < |s| ==> r[i] == UpperChar(s[i])
  {
    seq(|s|, i requires 0 <= i < |s| => UpperChar(s[i]))
  }

  lemma LowerIdempotent(s: string)
    ensures Lower(Lower(s)) == Lower(s)
  {
  }

  lemma LowerSlice(s: string, a: nat, b: nat)
    requires a <= b <= |s|
    ensures Lower(s)[a..b] == Lower(s[a..b])
  {
  }

  // ---------------------------------------------------------------------------
  // Whitespace, as `str.isspace` defines it

  predicate IsSpace(c: char) {
    var n := c as int;
    (0x09 <= n <= 0x0d) || (0x1c <= n <= 0x20) || n == 0x85 || n == 0xa0 || n == 0x1680
    || (0x2000 <= n <= 0x200a) || n == 0x2028 || n == 0x2029 || n == 0x202f || n == 0x205f
    || n == 0x3000
  }

  /** `s.lstrip()` */
  function LStrip(s: string): (r: string)
    ensures |r| <= |s| && r == s[|s| - |r|..]
    ensures r == [] || !IsSpace(r[0])
    ensures forall i :: 0 <= i < |s| - |r| ==> IsSpace(s[i])
  {
    if s != [] && IsSpace(s[0]) then LStrip(s[1..]) else s
  }

  /** `s.strip()`: leading and trailing whitespace removed */
  function Strip(s: string): (r: string)
    ensures |r| <= |s|
    ensures r == [] || (!IsSpace(r[0]) && !IsSpace(r[|r| - 1]))
    decreases |s|
  {
    if s != [] && IsSpace(s[0]) then Strip(s[1..])
    else if s != [] && IsSpace(s[|s| - 1]) then Strip(s[..|s| - 1])
    else s
  }

  /** Whitespace in front of a line does not change its stripped text. */
  lemma {:induction false} StripLeadingSpace(ind: string, t: string)
    requires forall i :: 0 <= i < |ind| ==> IsSpace(ind[i])
    ensures Strip(ind + t) == Strip(t)
    decreases |ind|
  {
    if ind != [] {
      assert (ind + t)[1..] == ind[1..] + t;
      StripLeadingSpace(ind[1..], t);
    } else {
      assert ind + t == t;
    }
  }

  /** Stripping text that starts with a non-space keeps a prefix, and only spaces follow it. */
  lemma {:induction false} StripKeepsFront(s: string)
    requires s != [] && !IsSpace(s[0])
    ensures 1 <= |Strip(s)| && Strip(s) == s[..|Strip(s)|]
    ensures forall k :: |Strip(s)| <= k < |s| ==> IsSpace(s[k])
    decreases |s|
  {
    if IsSpace(s[|s| - 1]) {
      StripKeepsFront(s[..|s| - 1]);
    }
  }

  /** `line.strip().startswith("def ")`: the line starts a function definition. */
  predicate IsDefLine(line: string) {
    StartsWith(Strip(line), "def ")
  }

  /** `len(line) - len(line.lstrip())`: the width of the leading whitespace. */
  function Indent(line: string): nat {
    |line| - |LStrip(line)|
  }

  /** `s.strip(c)` for a single character `c` */
  function StripChar(s: string, c: char): (r: string)
    decreases |s|
  {
    if s != [] && s[0] == c then StripChar(s[1..], c)
    else if s != [] && s[|s| - 1] == c then StripChar(s[..|s| - 1], c)
    else s
  }

  lemma StripCharNoop(s: string, c: char)
    requires s == [] || (s[0] != c && s[|s| - 1] != c)
    ensures StripChar(s, c) == s
  {
  }

  // ---------------------------------------------------------------------------
  // Prefixes, suffixes and substring search

  predicate StartsWith(s: string, p: string) {
    |p| <= |s| && s[..|p|] == p
  }

  predicate EndsWith(s: string, p: string) {
    |p| <= |s| && s[|s| - |p|..] == p
  }

  /** `pat` occurs in `s` starting at index `k` */
  predicate MatchAt(s: string, pat: string, k: int) {
    0 <= k && k + |pat| <= |s| && s[k..k + |pat|] == pat
  }

  /** `s.find(pat, i)`: the first occurrence at or after `i`, or -1 */
  function FindFrom(s: string, pat: string, i: nat): (r: int)
    requires i <= |s|
    ensures r == -1 || (i <= r && MatchAt(s, pat, r))
    ensures r == -1 ==> forall k :: i <= k ==> !MatchAt(s, pat, k)
    ensures r != -1 ==> forall k :: i <= k < r ==> !MatchAt(s, pat, k)
    decreases |s| - i
  {
    if i + |pat| > |s| then -1
    else if s[i..i + |pat|] == pat then i
    else FindFrom(s, pat, i + 1)
  }

  /** `s.find(pat)` */
  function Find(s: string, pat: string): int {
    FindFrom(s, pat, 0)
  }

  /** `pat in s` */
  predicate Contains(s: string, pat: string) {
    Find(s, pat) >= 0
  }

  /** The first occurrence is determined by "a match, and none earlier". */
  lemma FindIs(s: string, pat: string, r: nat)
    requires MatchAt(s, pat, r)
    requires forall k :: 0 <= k < r ==> !MatchAt(s, pat, k)
    ensures Find(s, pat) == r
  {
  }

  lemma ContainsIff(s: string, pat: string)
    ensures Contains(s, pat) <==> exists k :: MatchAt(s, pat, k)
  {
    if exists k :: MatchAt(s, pat, k) {
      var k :| MatchAt(s, pat, k);
      assert 0 <= k;
    }
  }

  lemma CharContains(s: string, c: char)
    ensures Contains(s, [c]) <==> c in s
  {
    ContainsIff(s, [c]);
    if c in s {
      var k :| 0 <= k < |s| && s[k] == c;
      assert MatchAt(s, [c], k);
    }
    if Contains(s, [c]) {
      var k :| MatchAt(s, [c], k);
      assert s[k..k + 1][0] == s[k];
    }
  }

  // ---------------------------------------------------------------------------
  // `sep.join(parts)` and `s.split(sep)` for a non-empty separator

  function Join(parts: seq<string>, sep: string): string {
    if |parts| == 0 then ""
    else if |parts| == 1 then parts[0]
    else parts[0] + sep + Join(parts[1..], sep)
  }

  function Split(s: string, sep: string): (r: seq<string>)
    requires |sep| > 0
    ensures |r| >= 1
    decreases |s|
  {
    var i := Find(s, sep);
    if i < 0 then [s] else [s[..i]] + Split(s[i + |sep|..], sep)
  }

  /** After `p`, the separator is first found exactly where `p` ends. */
  predicate SeparatesCleanly(p: string, sep: string) {
    Find(p + sep, sep) == |p|
  }

  lemma FindAcrossJoin(p: string, sep: string, rest: string)
    requires |sep| > 0 && SeparatesCleanly(p, sep)
    ensures Find(p + sep + rest, sep) == |p|
  {
    var s := p + sep + rest;
    assert s[..|p| + |sep|] == p + sep;
    assert MatchAt(p + sep, sep, |p|);
    forall k | 0 <= k < |p|
      ensures !MatchAt(s, sep, k)
    {
      assert !MatchAt(p + sep, sep, k);
      assert s[k..k + |sep|] == (p + sep)[k..k + |sep|];
    }
    FindIs(s, sep, |p|);
  }

  /** Splitting a joined list peels off its first part when that part separates cleanly. */
  lemma SplitJoinStep(parts: seq<string>, sep: string)
    requires |sep| > 0 && |parts| > 1 && SeparatesCleanly(parts[0], sep)
    ensures Split(Join(parts, sep), sep) == [parts[0]] + Split(Join(parts[1..], sep), sep)
  {
    var rest := Join(parts[1..], sep);
    var s := parts[0] + sep + rest;
    FindAcrossJoin(parts[0], sep, rest);
    assert s[..|parts[0]|] == parts[0];
    assert s[|parts[0]| + |sep|..] == rest;
  }

  /**
   * Splitting a joined list gives the list back, provided the separator is found
   * nowhere but at the joints.
   */
  lemma {:induction false} SplitJoin(parts: seq<string>, sep: string)
    requires |sep| > 0 && |parts| >= 1
    requires forall k :: 0 <= k < |parts| - 1 ==> SeparatesCleanly(parts[k], sep)
    requires !Contains(parts[|parts| - 1], sep)
    ensures Split(Join(parts, sep), sep) == parts
  {
    if |parts| == 1 {
      SplitWhole(parts[0], sep);
    } else {
      var tail := parts[1..];
      assert forall k :: 0 <= k < |tail| - 1 ==> SeparatesCleanly(tail[k], sep) by {
        forall k | 0 <= k < |tail| - 1 ensures SeparatesCleanly(tail[k], sep) {
          assert tail[k] == parts[k + 1];
        }
      }
      assert !Contains(tail[|tail| - 1], sep) by {
        assert tail[|tail| - 1] == parts[|parts| - 1];
      }
      SplitJoin(tail, sep);
      SplitJoinStep(parts, sep);
      assert parts == [parts[0]] + tail;
    }
  }

  /** A string without the separator splits into itself. */
  lemma SplitWhole(s: string, sep: string)
    requires |sep| > 0 && !Contains(s, sep)
    ensures Split(s, sep) == [s]
  {
  }

  /** For a one-character separator, "cleanly" just means "not inside". */
  lemma CharSeparatesCleanly(p: string, c: char)
    requires c !in p
    ensures SeparatesCleanly(p, [c])
  {
    forall k | 0 <= k < |p|
      ensures !MatchAt(p + [c], [c], k)
    {
      assert (p + [c])[k] == p[k];
    }
    assert MatchAt(p + [c], [c], |p|);
    FindIs(p + [c], [c], |p|);
  }

  /** No piece produced by splitting on a character contains that character. */
  lemma {:induction false} SplitCharPieces(s: string, c: char)
    ensures forall p :: p in Split(s, [c]) ==> c !in p
    decreases |s|
  {
    var i := Find(s, [c]);
    if i < 0 {
      CharContains(s, [c][0]);
    } else {
      forall k | 0 <= k < i
        ensures s[..i][k] != c
      {
        assert !MatchAt(s, [c], k);
      }
      SplitCharPieces(s[i + 1..], c);
    }
  }

  // ---------------------------------------------------------------------------
  // `s.split()` with no argument: runs of whitespace separate words

  function LeadingWord(t: string): (w: string)
    ensures |w| <= |t| && w == t[..|w|]
    ensures forall i :: 0 <= i < |w| ==> !IsSpace(w[i])
    ensures t != [] && !IsSpace(t[0]) ==> |w| >= 1
  {
    if t == [] || IsSpace(t[0]) then [] else [t[0]] + LeadingWord(t[1..])
  }

  function Words(s: string): (r: seq<string>)
    ensures forall w :: w in r ==> w != []
    decreases |s|
  {
    var t := LStrip(s);
    if t == [] then []
    else
      var w := LeadingWord(t);
      [w] + Words(t[|w|..])
  }

  // ---------------------------------------------------------------------------
  // `s.replace(pat, rep)`: every non-overlapping occurrence, left to right

  function ReplaceAll(s: string, pat: string, rep: string): string
    requires |pat| > 0
    decreases |s|
  {
    var i := Find(s, pat);
    if i < 0 then s else s[..i] + rep + ReplaceAll(s[i + |pat|..], pat, rep)
  }

  /** A shorter replacement never lengthens the text, and shortens it when the pattern occurs. */
  lemma {:induction false} ReplaceShorter(s: string, pat: string, rep: string)
    requires |rep| < |pat|
    ensures |ReplaceAll(s, pat, rep)| <= |s|
    ensures Contains(s, pat) ==> |ReplaceAll(s, pat, rep)| < |s|
    decreases |s|
  {
    var i := Find(s, pat);
    if i >= 0 {
      ReplaceShorter(s[i + |pat|..], pat, rep);
    }
  }

  // ---------------------------------------------------------------------------
  // `str(n)` for a natural number

  function DigitChar(d: nat): (c: char)
    requires d < 10
    ensures '0' <= c <= '9'
  {
    ('0' as int + d) as char
  }

  function Decimal(n: nat): (r: string)
    ensures |r| >= 1
    ensures forall i :: 0 <= i < |r| ==> '0' <= r[i] <= '9'
  {
    if n < 10 then [DigitChar(n)] else Decimal(n / 10) + [DigitChar(n % 10)]
  }

  /** Distinct numbers print differently. */
  lemma {:induction false} DecimalInjective(a: nat, b: nat)
    requires Decimal(a) == Decimal(b)
    ensures a == b
  {
    var da, db := Decimal(a), Decimal(b);
    if a < 10 && b < 10 {
      assert DigitChar(a) == da[0] == DigitChar(b);
    } else if a >= 10 && b >= 10 {
      assert DigitChar(a % 10) == da[|da| - 1] == db[|db| - 1] == DigitChar(b % 10);
      assert Decimal(a / 10) == da[..|da| - 1] == db[..|db| - 1] == Decimal(b / 10);
      DecimalInjective(a / 10, b / 10);
    }
  }

  // ---------------------------------------------------------------------------
  // Last occurrence of a character

  /** `s.rfind(c)` */
  function RFind(s: string, c: char): (r: int)
    ensures -1 <= r < |s|
    ensures r >= 0 ==> s[r] == c
    ensures forall k :: r < k < |s| ==> s[k] != c
  {
    if |s| == 0 then -1
    else if s[|s| - 1] == c then |s| - 1
    else RFind(s[..|s| - 1], c)
  }

  lemma RFindIs(s: string, c: char, r: int)
    requires -1 <= r < |s|
    requires r >= 0 ==> s[r] == c
    requires forall k :: r < k < |s| ==> s[k] != c
    ensures RFind(s, c) == r
  {
  }

  // ---------------------------------------------------------------------------
  // List slices

  /** `a[s:i + 1]` is `a[s:i]` followed by `a[i]`. */
  lemma SliceExtend<T>(a: seq<T>, s: int, i: int)
    requires 0 <= s <= i < |a|
    ensures a[s..i + 1] == a[s..i] + [a[i]]
  {
  }

  /** `a[:i + 1]` is `a[:i]` followed by `a[i]`. */
  lemma PrefixExtend<T>(a: seq<T>, i: int)
    requires 0 <= i < |a|
    ensures a[..i + 1] == a[..i] + [a[i]]
  {
  }

  /** `a[:len(a)]` is `a`. */
  lemma SliceWhole<T>(a: seq<T>, i: int)
    requires i == |a|
    ensures a[..i] == a
  {
  }
}
