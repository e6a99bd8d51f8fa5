/**
 * Python's ordering of `str` values (code point by code point, a proper prefix first)
 * and `sorted()` over a list of names.
 */
module PySort {

  /** `a < b` on Python strings */
  predicate Less(a: string, b: string) {
    if |b| == 0 then false
    else if |a| == 0 then true
    else if a[0] != b[0] then a[0] < b[0]
    else Less(a[1..], b[1..])
  }

  predicate LessEq(a: string, b: string) {
    a == b || Less(a, b)
  }

  lemma {:induction false} LessIrreflexive(a: string)
    ensures !Less(a, a)
  {
    if |a| > 0 {
      LessIrreflexive(a[1..]);
    }
  }

  lemma {:induction false} LessTransitive(a: string, b: string, c: string)
    requires Less(a, b) && Less(b, c)
    ensures Less(a, c)
  {
    if |a| > 0 && a[0] == b[0] && b[0] == c[0] {
      LessTransitive(a[1..], b[1..], c[1..]);
    }
  }

  lemma {:induction false} LessTotal(a: string, b: string)
    requires a != b
    ensures Less(a, b) || Less(b, a)
  {
    if |a| > 0 && |b| > 0 && a[0] == b[0] {
      assert a == [a[0]] + a[1..] && b == [b[0]] + b[1..];
      LessTotal(a[1..], b[1..]);
    }
  }

  lemma LessAsymmetric(a: string, b: string)
    requires Less(a, b)
    ensures !Less(b, a)
  {
    if Less(b, a) {
      LessTransitive(a, b, a);
      LessIrreflexive(a);
    }
  }

  predicate Sorted(s: seq<string>) {
    forall i, j :: 0 <= i < j < |s| ==> LessEq(s[i], s[j])
  }

  /** Every element of `s` is at least `lo`. */
  predicate AllAtLeast(lo: string, s: seq<string>) {
    forall j :: 0 <= j < |s| ==> LessEq(lo, s[j])
  }

  lemma AtLeastHead(x: string, s: seq<string>)
    requires Sorted(s) && (s != [] ==> LessEq(x, s[0]))
    ensures AllAtLeast(x, s)
  {
    forall j | 0 <= j < |s| ensures LessEq(x, s[j]) {
      if x != s[0] && s[0] != s[j] { LessTransitive(x, s[0], s[j]); }
    }
  }

  lemma AtLeastMultiset(lo: string, s: seq<string>, t: seq<string>)
    requires AllAtLeast(lo, s) && multiset(t) <= multiset(s)
    ensures AllAtLeast(lo, t)
  {
    forall j | 0 <= j < |t| ensures LessEq(lo, t[j]) {
      assert t[j] in multiset(s);
    }
  }

  function Insert(x: string, s: seq<string>): (r: seq<string>)
    requires Sorted(s)
    ensures Sorted(r)
    ensures multiset(r) == multiset(s) + multiset{x}
  {
    if s == [] || LessEq(x, s[0]) then
      AtLeastHead(x, s);
      [x] + s
    else
      var t := Insert(x, s[1..]);
      assert s == [s[0]] + s[1..];
      LessTotal(x, s[0]);
      InsertBelowHead(x, s, t);
      [s[0]] + t
  }

  lemma InsertBelowHead(x: string, s: seq<string>, t: seq<string>)
    requires Sorted(s) && s != [] && Less(s[0], x)
    requires Sorted(t) && multiset(t) == multiset(s[1..]) + multiset{x}
    ensures Sorted([s[0]] + t)
  {
    var rest := s[1..];
    AtLeastHead(s[0], rest);
    assert AllAtLeast(s[0], rest + [x]);
    assert multiset(rest + [x]) == multiset(t);
    AtLeastMultiset(s[0], rest + [x], t);
  }

  /** `sorted(s)` */
  function Sort(s: seq<string>): (r: seq<string>)
    ensures Sorted(r)
    ensures multiset(r) == multiset(s)
  {
    if s == [] then []
    else
      assert s == [s[0]] + s[1..];
      Insert(s[0], Sort(s[1..]))
  }

  /** Two sorted arrangements of the same names start with the same name. */
  lemma SameHead(a: seq<string>, b: seq<string>)
    requires Sorted(a) && Sorted(b) && multiset(a) == multiset(b) && a != []
    ensures b != [] && a[0] == b[0]
  {
    assert a[0] in multiset(b);
    var i :| 0 <= i < |b| && b[i] == a[0];
    assert b[0] in multiset(a);
    var j :| 0 <= j < |a| && a[j] == b[0];
    assert LessEq(b[0], b[i]) && LessEq(a[0], a[j]);
    if a[0] != b[0] {
      LessAsymmetric(a[0], b[0]);
    }
  }

  lemma DropHead(a: seq<string>)
    requires a != []
    ensures multiset(a[1..]) == multiset(a) - multiset{a[0]}
    ensures a == [a[0]] + a[1..]
  {
    assert a == [a[0]] + a[1..];
  }

  /** A sorted arrangement of a collection of names is unique. */
  lemma {:induction false} SortedUnique(a: seq<string>, b: seq<string>)
    requires Sorted(a) && Sorted(b) && multiset(a) == multiset(b)
    ensures a == b
  {
    if a != [] {
      SameHead(a, b);
      DropHead(a);
      DropHead(b);
      SortedUnique(a[1..], b[1..]);
    } else {
      assert |b| == |multiset(b)| == 0;
    }
  }

  /** `sorted()` depends only on which names are listed, not on the listing order. */
  lemma SortIgnoresOrder(a: seq<string>, b: seq<string>)
    requires multiset(a) == multiset(b)
    ensures Sort(a) == Sort(b)
  {
    SortedUnique(Sort(a), Sort(b));
  }

  /** Strictly increasing neighbours make a strictly increasing sequence. */
  lemma {:induction false} ChainIsStrict(s: seq<string>)
    requires forall i :: 0 <= i < |s| - 1 ==> Less(s[i], s[i + 1])
    ensures forall i, j :: 0 <= i < j < |s| ==> Less(s[i], s[j])
  {
    if |s| > 1 {
      ChainIsStrict(s[1..]);
      forall i, j | 0 <= i < j < |s|
        ensures Less(s[i], s[j])
      {
        if i == 0 && j > 1 {
          assert Less(s[1..][0], s[1..][j - 1]);
          LessTransitive(s[0], s[1], s[j]);
        } else if i > 0 {
          assert Less(s[1..][i - 1], s[1..][j - 1]);
        }
      }
    }
  }
}
