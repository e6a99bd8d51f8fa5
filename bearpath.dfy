/**
 * The route tooling of `tools/bearpath.py`: turning a route path into directories with
 * their default modules, cutting one decorated function out of a module's lines, the
 * endpoint map of a module, the keys of the aggregated endpoint map, and the text of a
 * generated package `__init__.py`.
 *
 * The file system is a `RouteTree` of directories and files; the regular expressions are
 * parameters (`Decorator` for the one matched against a stripped line, the list of
 * `finditer` matches for the one searched through a whole module).
 */
module Bearpath {
  import opened Outcomes
  import opened PyStr
  import PySort

  // ---------------------------------------------------------------------------
  // Route segmentation: `[seg for seg in path.strip("/").split("/") if seg]`

  /** The non-empty strings of `parts`, in order. */
  function NonEmpty(parts: seq<string>): (r: seq<string>)
    ensures forall s :: s in r ==> s != "" && s in parts
  {
    if parts == [] then []
    else (if parts[0] == "" then [] else [parts[0]]) + NonEmpty(parts[1..])
  }

  lemma {:induction false} NonEmptyKeepsAll(parts: seq<string>)
    requires forall i :: 0 <= i < |parts| ==> parts[i] != ""
    ensures NonEmpty(parts) == parts
  {
    if parts != [] {
      NonEmptyKeepsAll(parts[1..]);
      assert parts == [parts[0]] + parts[1..];
    }
  }

  /** The segments of a route path: no segment is empty and none holds a `/`. */
  function Segments(path: string): (r: seq<string>)
    ensures forall s :: s in r ==> s != "" && '/' !in s
  {
    var pieces := Split(StripChar(path, '/'), "/");
    SplitCharPieces(StripChar(path, '/'), '/');
    NonEmpty(pieces)
  }

  /** A joined list starts with the first part's first character and ends with the last part's last. */
  lemma {:induction false} JoinEnds(parts: seq<string>, sep: string)
    requires |parts| >= 1 && forall i :: 0 <= i < |parts| ==> parts[i] != ""
    ensures var j := Join(parts, sep);
      |j| > 0 && j[0] == parts[0][0] && j[|j| - 1] == parts[|parts| - 1][|parts[|parts| - 1]| - 1]
  {
    if |parts| > 1 {
      var tail := parts[1..];
      assert forall i :: 0 <= i < |tail| ==> tail[i] == parts[i + 1];
      JoinEnds(tail, sep);
      var j, rest := Join(parts, sep), Join(tail, sep);
      assert j == parts[0] + sep + rest;
      assert j[|j| - 1] == rest[|rest| - 1];
      assert tail[|tail| - 1] == parts[|parts| - 1];
    }
  }

  lemma StripSlashes(x: string)
    requires x != "" && x[0] != '/' && x[|x| - 1] != '/'
    ensures StripChar("/" + x + "/", '/') == x
    ensures StripChar(x, '/') == x
  {
    var s := "/" + x + "/";
    assert s[1..] == x + "/";
    assert (x + "/")[..|x|] == x;
    StripCharNoop(x, '/');
  }

  /**
   * Segmentation undoes joining: the segments of `/a/b/c/`, or of `a/b/c`, are `a`, `b`, `c`,
   * for segments that are non-empty and free of `/`.
   */
  lemma SegmentsOfJoin(segs: seq<string>)
    requires segs != [] && forall s :: s in segs ==> s != "" && '/' !in s
    ensures Segments("/" + Join(segs, "/") + "/") == segs
    ensures Segments(Join(segs, "/")) == segs
  {
    var x := Join(segs, "/");
    forall i | 0 <= i < |segs| ensures segs[i] != "" {
      assert segs[i] in segs;
    }
    JoinEnds(segs, "/");
    assert segs[0] in segs && segs[|segs| - 1] in segs;
    StripSlashes(x);
    forall k | 0 <= k < |segs| - 1
      ensures SeparatesCleanly(segs[k], "/")
    {
      assert segs[k] in segs;
      CharSeparatesCleanly(segs[k], '/');
    }
    CharContains(segs[|segs| - 1], '/');
    SplitJoin(segs, "/");
    NonEmptyKeepsAll(segs);
  }

  lemma {:induction false} StripAllSlashes(path: string)
    requires forall i :: 0 <= i < |path| ==> path[i] == '/'
    ensures StripChar(path, '/') == ""
    decreases |path|
  {
    if path != [] {
      StripAllSlashes(path[1..]);
    }
  }

  /** A path of slashes only, the empty path included, has no segments. */
  lemma SlashesOnly(path: string)
    requires forall i :: 0 <= i < |path| ==> path[i] == '/'
    ensures Segments(path) == []
  {
    StripAllSlashes(path);
    assert Split("", "/") == [""];
  }

  // ---------------------------------------------------------------------------
  // `ensure_directory_structure`: a directory, `base.py` and `__init__.py` for every prefix

  /** A path of the file system, as its components. */
  type Path = seq<string>

  const RoutesBase: Path := ["src", "routes"]

  const BaseModuleTemplate: string :=
    "from fastapi import APIRouter\nfrom typing import Dict, Any\nrouter = APIRouter()\n\n"
    + "@router.get(\"/\")\nasync def default_response() -> Dict[str, str]:\n"
    + "    return {\"message\": \"Default response for this route.\"}\n\n"
    + "__endpoints__: Dict[str, Any] = {}\n\n"

  const InitModuleTemplate: string :=
    "# This file is auto-generated by bearpath.py. Do not edit directly.\nfrom fastapi import APIRouter\n"
    + "from .base import router as base_router\nfrom typing import Dict, Any\n\n"
    + "router = APIRouter()\nrouter.include_router(base_router)\n\n__endpoints__: Dict[str, Any] = {}\n"

  /**
   * The directory of the first `k` segments. Every segment is one path component here,
   * "." and ".." included; `pathlib` and the file system would collapse those.
   */
  function RouteDir(segs: seq<string>, k: nat): (r: Path)
    requires k <= |segs|
    ensures |r| == |RoutesBase| + k && r <= RoutesBase + segs
  {
    RoutesBase + segs[..k]
  }

  /** The non-empty prefixes of a path: what `mkdir(parents=True)` makes sure of. */
  function Ancestry(p: Path): (r: set<Path>)
    ensures p != [] ==> p in r
    ensures forall d :: d in r ==> d != [] && d <= p
  {
    assert p != [] ==> p == p[..|p|];
    set k | 1 <= k <= |p| :: p[..k]
  }

  /** The prefixes of a longer path include those of a shorter one. */
  lemma AncestryOfPrefix(p: Path, q: Path)
    requires p <= q
    ensures Ancestry(p) <= Ancestry(q)
  {
    forall d | d in Ancestry(p)
      ensures d in Ancestry(q)
    {
      var k :| 1 <= k <= |p| && d == p[..k];
      assert d == q[..k];
    }
  }

  /** `d` is a directory holding a `base.py` and an `__init__.py` (each a file or a directory). */
  predicate Ready(dirs: set<Path>, files: map<Path, string>, d: Path) {
    && d in dirs
    && (d + ["base.py"] in dirs || d + ["base.py"] in files)
    && (d + ["__init__.py"] in dirs || d + ["__init__.py"] in files)
  }

  lemma ReadyGrows(dirs: set<Path>, files: map<Path, string>, dirs': set<Path>, files': map<Path, string>, d: Path)
    requires dirs <= dirs' && files.Keys <= files'.Keys && Ready(dirs, files, d)
    ensures Ready(dirs', files', d)
  {
  }

  /** `p` is the default module `base.py` or `__init__.py` of directory `d`, with its template. */
  predicate DefaultModule(d: Path, p: Path, content: string) {
    || (p == d + ["base.py"] && content == BaseModuleTemplate)
    || (p == d + ["__init__.py"] && content == InitModuleTemplate)
  }

  /** A file `EnsureDirectoryStructure` may create: a default module of one of the route's directories. */
  predicate Created(segs: seq<string>, p: Path, content: string) {
    exists k :: 1 <= k <= |segs| && DefaultModule(RouteDir(segs, k), p, content)
  }

  lemma RouteDirStep(segs: seq<string>, i: nat)
    requires i < |segs|
    ensures RouteDir(segs, i + 1) == RouteDir(segs, i) + [segs[i]]
  {
    assert segs[..i + 1] == segs[..i] + [segs[i]];
  }

  lemma CreatedAt(segs: seq<string>, k: nat, p: Path, content: string)
    requires 1 <= k <= |segs| && DefaultModule(RouteDir(segs, k), p, content)
    ensures Created(segs, p, content)
  {
  }

  /** The directories and files under the working directory. */
  class RouteTree {
    var dirs: set<Path>
    var files: map<Path, string>

    constructor(dirs: set<Path>, files: map<Path, string>)
      ensures this.dirs == dirs && this.files == files
    {
      this.dirs := dirs;
      this.files := files;
    }

    /** `Path.exists()` */
    predicate Exists(p: Path)
      reads this
    {
      p in dirs || p in files
    }

    /**
     * One step of `ensure_directory_structure`: create directory `d` with its parents
     * when it is missing, then its missing `base.py` and `__init__.py`. `ok` is false,
     * with nothing changed, when `d` or one of its parents is a regular file, where
     * `mkdir` or the first `write_text` raises.
     */
    method EnsureDirectory(d: Path) returns (ok: bool)
      requires d != []
      modifies this
      ensures ok ==> Ready(dirs, files, d)
      ensures !ok ==> dirs == old(dirs) && files == old(files) && exists a :: a in Ancestry(d) && a in files
      ensures old(dirs) <= dirs && dirs - old(dirs) <= Ancestry(d)
      ensures forall p :: p in old(files) ==> p in files && files[p] == old(files)[p]
      ensures forall p :: p in files && p !in old(files) ==> DefaultModule(d, p, files[p])
    {
      if !Exists(d) {
        if exists a :: a in Ancestry(d) && a in files {
          return false;
        }
        dirs := dirs + Ancestry(d);
      } else if d !in dirs {
        return false;
      }
      var baseFile := d + ["base.py"];
      if !Exists(baseFile) {
        files := files[baseFile := BaseModuleTemplate];
      }
      var initFile := d + ["__init__.py"];
      if !Exists(initFile) {
        files := files[initFile := InitModuleTemplate];
      }
      ok := true;
    }

    /**
     * `ensure_directory_structure(path)`: walk the route's directories from the top,
     * creating each one that is missing and each missing `base.py` and `__init__.py` in it;
     * nothing that exists is overwritten. `ok` is false when the walk stops at a route
     * directory that is, or lies under, a regular file.
     */
    method EnsureDirectoryStructure(path: string) returns (ok: bool)
      modifies this
      ensures var segs := Segments(path);
        ok ==> forall k :: 1 <= k <= |segs| ==> Ready(dirs, files, RouteDir(segs, k))
      ensures !ok ==> exists a :: a in Ancestry(RoutesBase + Segments(path)) && a in files
      ensures old(dirs) <= dirs && dirs - old(dirs) <= Ancestry(RoutesBase + Segments(path))
      ensures forall p :: p in old(files) ==> p in files && files[p] == old(files)[p]
      ensures forall p :: p in files && p !in old(files) ==> Created(Segments(path), p, files[p])
    {
      var segs := Segments(path);
      var current := RoutesBase;
      var i := 0;
      while i < |segs|
        invariant i <= |segs| && current == RouteDir(segs, i)
        invariant forall k :: 1 <= k <= i ==> Ready(dirs, files, RouteDir(segs, k))
        invariant old(dirs) <= dirs && dirs - old(dirs) <= Ancestry(RoutesBase + segs)
        invariant forall p :: p in old(files) ==> p in files && files[p] == old(files)[p]
        invariant forall p :: p in files && p !in old(files) ==> Created(segs, p, files[p])
      {
        RouteDirStep(segs, i);
        current := current + [segs[i]];
        i := i + 1;
        ghost var dirs0, files0 := dirs, files;
        AncestryOfPrefix(current, RoutesBase + segs);
        ok := EnsureDirectory(current);
        if !ok {
          return;
        }
        forall k | 1 <= k < i
          ensures Ready(dirs, files, RouteDir(segs, k))
        {
          ReadyGrows(dirs0, files0, dirs, files, RouteDir(segs, k));
        }
        forall p | p in files && p !in old(files)
          ensures Created(segs, p, files[p])
        {
          if p !in files0 {
            CreatedAt(segs, i, p, files[p]);
          }
        }
      }
      ok := true;
    }
  }

  // ---------------------------------------------------------------------------
  // `extract_full_function`

  /**
   * `DECORATOR_REGEX.match` on a stripped line: the HTTP method and the route of an
   * `@router.<method>("<route>")` decorator at the start of the line, or nothing.
   */
  type Decorator = string -> Option<(string, string)>

  /** The line decorates the wanted endpoint: the method in any letter case, the route exactly. */
  predicate IsTarget(decorator: Decorator, line: string, verb: string, endpoint: string) {
    var m := decorator(Strip(line));
    m.Some? && Lower(m.value.0) == Lower(verb) && m.value.1 == endpoint
  }

  /** The first line at or after `i` that decorates the wanted endpoint, or -1. */
  function FirstTargetFrom(decorator: Decorator, lines: seq<string>, verb: string, endpoint: string, i: nat): (r: int)
    requires i <= |lines|
    ensures r == -1 || (i <= r < |lines| && IsTarget(decorator, lines[r], verb, endpoint))
    ensures forall j :: i <= j < |lines| && (r < 0 || j < r) ==> !IsTarget(decorator, lines[j], verb, endpoint)
    decreases |lines| - i
  {
    if i == |lines| then -1
    else if IsTarget(decorator, lines[i], verb, endpoint) then i
    else FirstTargetFrom(decorator, lines, verb, endpoint, i + 1)
  }

  /** The first line that decorates the wanted endpoint, or -1. */
  function FirstTarget(decorator: Decorator, lines: seq<string>, verb: string, endpoint: string): int {
    FirstTargetFrom(decorator, lines, verb, endpoint, 0)
  }

  /** The first target is determined by "a target, and none earlier". */
  lemma FirstTargetIs(decorator: Decorator, lines: seq<string>, verb: string, endpoint: string, s: nat)
    requires s < |lines| && IsTarget(decorator, lines[s], verb, endpoint)
    requires forall j :: 0 <= j < s ==> !IsTarget(decorator, lines[j], verb, endpoint)
    ensures FirstTarget(decorator, lines, verb, endpoint) == s
  {
    FirstTargetFromIs(decorator, lines, verb, endpoint, 0, s);
  }

  lemma {:induction false} FirstTargetFromIs(decorator: Decorator, lines: seq<string>, verb: string, endpoint: string, i: nat, s: nat)
    requires i <= s < |lines| && IsTarget(decorator, lines[s], verb, endpoint)
    requires forall j :: i <= j < s ==> !IsTarget(decorator, lines[j], verb, endpoint)
    ensures FirstTargetFrom(decorator, lines, verb, endpoint, i) == s
    decreases s - i
  {
    if i < s {
      assert !IsTarget(decorator, lines[i], verb, endpoint);
      FirstTargetFromIs(decorator, lines, verb, endpoint, i + 1, s);
    }
  }

  /** The last `def` line strictly between `s` and `k`, or -1. */
  function LastDef(lines: seq<string>, s: int, k: int): (d: int)
    requires -1 <= s && k <= |lines|
    ensures d == -1 || (s < d < k && IsDefLine(lines[d]))
    ensures forall i :: s < i < k && d < i ==> !IsDefLine(lines[i])
    decreases k
  {
    if k <= s + 1 then -1
    else if IsDefLine(lines[k - 1]) then k - 1
    else LastDef(lines, s, k - 1)
  }

  /**
   * Line `k` ends the function that starts at `s`: it is a router decorator, or it is not
   * a `def` line and, after a `def` line has been seen, it is indented less than that
   * line or starts with `@router`.
   */
  predicate Stops(decorator: Decorator, lines: seq<string>, s: int, k: int)
    requires -1 <= s < k < |lines|
  {
    var d := LastDef(lines, s, k);
    decorator(Strip(lines[k])).Some?
    || (!IsDefLine(lines[k]) && d >= 0
        && (Indent(lines[k]) < Indent(lines[d]) || StartsWith(Strip(lines[k]), "@router")))
  }

  /** `lines[s..e]` is the function that starts at `s`: nothing inside stops it, and `e` does or is the end. */
  predicate IsBlock(decorator: Decorator, lines: seq<string>, s: int, e: int) {
    && 0 <= s < e <= |lines|
    && (forall k :: s < k < e ==> !Stops(decorator, lines, s, k))
    && (e < |lines| ==> Stops(decorator, lines, s, e))
  }

  /** The block that starts at a line is unique. */
  lemma BlockEndUnique(decorator: Decorator, lines: seq<string>, s: int, e1: int, e2: int)
    requires IsBlock(decorator, lines, s, e1) && IsBlock(decorator, lines, s, e2)
    ensures e1 == e2
  {
  }

  /** The indentation of the last `def` line strictly between `s` and `k`, if there is one. */
  function DefIndent(lines: seq<string>, s: int, k: int): Option<nat>
    requires -1 <= s && k <= |lines|
  {
    var d := LastDef(lines, s, k);
    if d < 0 then None else Some(Indent(lines[d]))
  }

  /** Nothing strictly between `s` and `i` stops the function that starts at `s`. */
  predicate RunsTo(decorator: Decorator, lines: seq<string>, s: int, i: int)
    requires 0 <= s < i <= |lines|
  {
    forall k :: s < k < i ==> !Stops(decorator, lines, s, k)
  }

  lemma RunsToStep(decorator: Decorator, lines: seq<string>, s: int, i: int)
    requires 0 <= s < i < |lines| && RunsTo(decorator, lines, s, i) && !Stops(decorator, lines, s, i)
    ensures RunsTo(decorator, lines, s, i + 1)
  {
  }


  /** No line before `i` decorates the wanted endpoint. */
  predicate NoTargetBefore(decorator: Decorator, lines: seq<string>, verb: string, endpoint: string, i: int)
    requires 0 <= i <= |lines|
  {
    forall j :: 0 <= j < i ==> !IsTarget(decorator, lines[j], verb, endpoint)
  }

  /**
   * One line after the start of the function: whether it stops the function and, when it
   * does not, the indentation of the last `def` line up to and including it.
   */
  method FollowLine(decorator: Decorator, lines: seq<string>, ghost s: int, i: int, indent: Option<nat>)
    returns (stop: bool, indent': Option<nat>)
    requires 0 <= s < i < |lines| && indent == DefIndent(lines, s, i)
    ensures stop == Stops(decorator, lines, s, i)
    ensures !stop ==> indent' == DefIndent(lines, s, i + 1)
  {
    var line := lines[i];
    var stripped := Strip(line);
    if decorator(stripped).Some? {
      return true, indent;
    }
    if StartsWith(stripped, "def ") {
      return false, Some(Indent(line));
    }
    if indent.Some? && (Indent(line) < indent.value || StartsWith(stripped, "@router")) {
      return true, indent;
    }
    return false, indent;
  }

  /**
   * `extract_full_function`: the lines from the first decorator of the wanted endpoint up
   * to where the function stops, and their `"\n"` join (`""` when there are none).
   */
  method ExtractFullFunction(decorator: Decorator, lines: seq<string>, verb: string, endpoint: string)
    returns (extracted: seq<string>, text: string)
    ensures text == if extracted == [] then "" else Join(extracted, "\n")
    ensures FirstTarget(decorator, lines, verb, endpoint) < 0 ==> extracted == [] && text == ""
    ensures var s := FirstTarget(decorator, lines, verb, endpoint);
      s >= 0 ==> exists e :: IsBlock(decorator, lines, s, e) && extracted == lines[s..e]
  {
    var found := false;
    var indent: Option<nat> := None;
    extracted := [];
    ghost var start := -1;
    var i := 0;
    while i < |lines|
      invariant 0 <= i <= |lines|
      invariant !found ==> extracted == [] && NoTargetBefore(decorator, lines, verb, endpoint, i)
      invariant found ==> start == FirstTarget(decorator, lines, verb, endpoint) && 0 <= start < i
      invariant found ==> extracted == lines[start..i] && RunsTo(decorator, lines, start, i)
      invariant found ==> indent == DefIndent(lines, start, i)
    {
      var line := lines[i];
      if !found {
        var m := decorator(Strip(line));
        if m.Some? && Lower(m.value.0) == Lower(verb) && m.value.1 == endpoint {
          FirstTargetIs(decorator, lines, verb, endpoint, i);
          found := true;
          start := i;
          extracted := [line];
          indent := None;
          assert LastDef(lines, i, i + 1) == -1;
        }
        i := i + 1;
        continue;
      }
      var stop;
      stop, indent := FollowLine(decorator, lines, start, i, indent);
      if stop {
        break;
      }
      RunsToStep(decorator, lines, start, i);
      SliceExtend(lines, start, i);
      extracted := extracted + [line];
      i := i + 1;
    }
    if found {
      assert IsBlock(decorator, lines, start, i);
    }
    text := if extracted == [] then "" else Join(extracted, "\n");
  }

  // ---------------------------------------------------------------------------
  // `extract_endpoints_from_file`

  /** One endpoint's entry; its parameters come from parsing the function and are not modelled. */
  datatype Endpoint = Endpoint(verb: string, description: string, response: string)

  /** No later match has the same route. */
  predicate LastForRoute(matches: seq<(string, string)>, i: int) {
    0 <= i < |matches| && forall j :: i < j < |matches| ==> matches[j].1 != matches[i].1
  }

  /**
   * `extract_endpoints_from_file`: for each `(method, route)` match, in order, the route's
   * entry is set with the upper-cased method, so a later match of a route wins. `None`
   * stands for a file that cannot be read, which yields no endpoints.
   */
  method ExtractEndpoints(found: Option<seq<(string, string)>>) returns (endpoints: map<string, Endpoint>)
    ensures found.None? ==> endpoints == map[]
    ensures found.Some? ==> forall route :: route in endpoints <==> exists i :: 0 <= i < |found.value| && found.value[i].1 == route
    ensures found.Some? ==> forall i :: LastForRoute(found.value, i) ==>
      endpoints[found.value[i].1] == Endpoint(Upper(found.value[i].0), "None", "None")
  {
    endpoints := map[];
    if found.None? {
      return;
    }
    var matches := found.value;
    var n := 0;
    while n < |matches|
      invariant n <= |matches|
      invariant forall route :: route in endpoints <==> exists i :: 0 <= i < n && matches[i].1 == route
      invariant forall i :: 0 <= i < n && (forall j :: i < j < n ==> matches[j].1 != matches[i].1) ==>
        endpoints[matches[i].1] == Endpoint(Upper(matches[i].0), "None", "None")
    {
      var (verb, route) := matches[n];
      endpoints := endpoints[route := Endpoint(Upper(verb), "None", "None")];
      n := n + 1;
    }
  }

  // ---------------------------------------------------------------------------
  // Key naming in `aggregate_directory_endpoints`

  /** `Path(name).stem`: the name without its last suffix, a suffix being a dot not first and not last. */
  function Stem(name: string): (r: string)
    ensures |r| <= |name| && r == name[..|r|]
  {
    var i := RFind(name, '.');
    if 0 < i < |name| - 1 then name[..i] else name
  }

  lemma StemOfModule(x: string)
    requires x != ""
    ensures Stem(x + ".py") == x
  {
    var name := x + ".py";
    RFindIs(name, '.', |x|);
    assert name[..|x|] == x;
  }

  /** The key a module file gets in its directory's aggregate: none for `__init__.py`. */
  function AggregateKey(name: string): (r: Option<string>)
    ensures r.None? <==> name == "__init__.py"
    ensures r.Some? ==> |r.value| >= 1 && r.value[0] == '/'
  {
    if name == "__init__.py" then None
    else if Stem(name) == "base" then Some("/")
    else Some("/" + Stem(name))
  }

  /** Among module files, only `base.py` maps to `/`; every other `x.py` maps to `/x`. */
  lemma AggregateKeyOfModule(x: string)
    requires x != "" && x + ".py" != "__init__.py"
    ensures AggregateKey(x + ".py") == Some("/") <==> x == "base"
    ensures x != "base" ==> AggregateKey(x + ".py") == Some("/" + x)
  {
    StemOfModule(x);
  }

  /** Two different module files never share a key. */
  lemma AggregateKeyInjective(x: string, y: string)
    requires x != "" && y != "" && x != y
    requires x + ".py" != "__init__.py" && y + ".py" != "__init__.py"
    ensures AggregateKey(x + ".py") != AggregateKey(y + ".py")
  {
    AggregateKeyOfModule(x);
    AggregateKeyOfModule(y);
    if x != "base" && y != "base" {
      assert ("/" + x)[1..] == x && ("/" + y)[1..] == y;
    }
  }

  // ---------------------------------------------------------------------------
  // `update_init_imports`

  const GeneratedHeader: seq<string> :=
    ["# This file is auto-generated by bearpath.py. Do not edit directly.", "",
     "from fastapi import APIRouter", "from typing import Dict, Any"]
  const BaseImport: string := "from .base import router as base_router"
  const RouterLine: string := "router = APIRouter()"
  /** The call every include line of the generated `__init__.py` starts with. */
  const IncludeCall: string := "router.include_router("
  const BaseInclude: string := IncludeCall + "base_router, prefix='')"

  function ImportLine(name: string): string {
    "from ." + name + " import router as " + name + "_router"
  }

  function IncludeLine(name: string): string {
    IncludeCall + name + "_router, prefix='/" + name + "')"
  }

  /** The files a package's routers never import: itself and its base module. */
  predicate IsSpecial(name: string) {
    name == "__init__.py" || name == "base.py"
  }

  /** The stems of the module files other than `__init__.py` and `base.py`, in the given order. */
  function Modules(files: seq<string>): (r: seq<string>)
    ensures |r| <= |files|
  {
    if files == [] then []
    else
      var name := files[|files| - 1];
      Modules(files[..|files| - 1]) + (if IsSpecial(name) then [] else [Stem(name)])
  }

  lemma ModulesStep(files: seq<string>, i: nat)
    requires i < |files|
    ensures Modules(files[..i + 1]) == Modules(files[..i]) + (if IsSpecial(files[i]) then [] else [Stem(files[i])])
  {
    assert files[..i + 1][..i] == files[..i];
  }

  function ImportLines(names: seq<string>): (r: seq<string>)
    ensures |r| == |names| && forall i :: 0 <= i < |names| ==> r[i] == ImportLine(names[i])
  {
    seq(|names|, i requires 0 <= i < |names| => ImportLine(names[i]))
  }

  function IncludeLines(names: seq<string>): (r: seq<string>)
    ensures |r| == |names| && forall i :: 0 <= i < |names| ==> r[i] == IncludeLine(names[i])
  {
    seq(|names|, i requires 0 <= i < |names| => IncludeLine(names[i]))
  }

  lemma LinesAppend(a: seq<string>, b: seq<string>)
    ensures ImportLines(a + b) == ImportLines(a) + ImportLines(b)
    ensures IncludeLines(a + b) == IncludeLines(a) + IncludeLines(b)
  {
    assert forall i :: 0 <= i < |b| ==> (a + b)[|a| + i] == b[i];
  }

  /** The routers a package includes besides its base: its modules, then its sub-packages, each sorted. */
  function Routed(files: seq<string>, packages: seq<string>): seq<string> {
    Modules(PySort.Sort(files)) + PySort.Sort(packages)
  }

  /** `[line]` when the package has a base module, else nothing. */
  function IfBase(hasBase: bool, line: string): seq<string> {
    if hasBase then [line] else []
  }

  /**
   * The lines of a generated `__init__.py`, with or without a base module, for the routers
   * `modules` then `subpackages`: the header, the imports, the router, the includes, and a
   * final empty line.
   */
  function InitText(hasBase: bool, modules: seq<string>, subpackages: seq<string>): seq<string> {
    GeneratedHeader + IfBase(hasBase, BaseImport) + ImportLines(modules) + ImportLines(subpackages)
    + ["", RouterLine] + IfBase(hasBase, BaseInclude) + IncludeLines(modules) + IncludeLines(subpackages) + [""]
  }

  /**
   * The lines of a generated `__init__.py` for a directory whose `*.py` files are `files`
   * and whose sub-directories holding an `__init__.py` are `packages`.
   */
  function InitLines(files: seq<string>, packages: seq<string>): seq<string> {
    InitText("base.py" in files, Modules(PySort.Sort(files)), PySort.Sort(packages))
  }

  /** The import lines, or the include lines, of `names`. */
  function RouterLines(imports: bool, names: seq<string>): seq<string> {
    if imports then ImportLines(names) else IncludeLines(names)
  }

  function RouterLineFor(imports: bool, name: string): string {
    if imports then ImportLine(name) else IncludeLine(name)
  }

  lemma RouterLinesStep(imports: bool, names: seq<string>, i: nat)
    requires i < |names|
    ensures RouterLines(imports, names[..i + 1]) == RouterLines(imports, names[..i]) + [RouterLineFor(imports, names[i])]
  {
    assert names[..i + 1] == names[..i] + [names[i]];
    LinesAppend(names[..i], [names[i]]);
  }

  lemma ModuleLinesStep(lines: seq<string>, imports: bool, files: seq<string>, i: nat)
    requires i < |files|
    ensures lines + RouterLines(imports, Modules(files[..i + 1])) == lines + RouterLines(imports, Modules(files[..i]))
      + (if IsSpecial(files[i]) then [] else [RouterLineFor(imports, Stem(files[i]))])
  {
    ModulesStep(files, i);
    LinesAppend(Modules(files[..i]), if IsSpecial(files[i]) then [] else [Stem(files[i])]);
  }

  /** Appends the import (or the include) of one module file, unless it is special. */
  method AppendModuleLine(out: seq<string>, name: string, imports: bool) returns (out': seq<string>)
    ensures out' == out + (if IsSpecial(name) then [] else [RouterLineFor(imports, Stem(name))])
  {
    out' := out;
    if !IsSpecial(name) {
      out' := out + [RouterLineFor(imports, Stem(name))];
    }
  }


  /** Appends an import (or an include) for each name `Modules` keeps. */
  method AppendModuleLines(lines: seq<string>, sortedFiles: seq<string>, imports: bool) returns (out: seq<string>)
    ensures out == lines + RouterLines(imports, Modules(sortedFiles))
  {
    out := lines;
    var i := 0;
    while i < |sortedFiles|
      invariant i <= |sortedFiles|
      invariant out == lines + RouterLines(imports, Modules(sortedFiles[..i]))
    {
      ModuleLinesStep(lines, imports, sortedFiles, i);
      out := AppendModuleLine(out, sortedFiles[i], imports);
      i := i + 1;
    }
    SliceWhole(sortedFiles, i);
  }

  /** Appends an import (or an include) for each package. */
  method AppendPackageLines(lines: seq<string>, sortedPackages: seq<string>, imports: bool) returns (out: seq<string>)
    ensures out == lines + RouterLines(imports, sortedPackages)
  {
    out := lines;
    var i := 0;
    while i < |sortedPackages|
      invariant i <= |sortedPackages|
      invariant out == lines + RouterLines(imports, sortedPackages[..i])
    {
      RouterLinesStep(imports, sortedPackages, i);
      out := out + [RouterLineFor(imports, sortedPackages[i])];
      i := i + 1;
    }
    SliceWhole(sortedPackages, i);
  }

  /**
   * `update_init_imports`: the lines, built in order, and their `"\n"` join. `files` and
   * `packages` may come in any order; they are sorted first.
   */
  method UpdateInitImports(files: seq<string>, packages: seq<string>) returns (lines: seq<string>, text: string)
    ensures lines == InitLines(files, packages)
    ensures text == Join(lines, "\n")
  {
    var hasBase := "base.py" in files;
    var sortedFiles := PySort.Sort(files);
    var sortedPackages := PySort.Sort(packages);
    lines := GeneratedHeader + IfBase(hasBase, BaseImport);
    lines := AppendModuleLines(lines, sortedFiles, true);
    lines := AppendPackageLines(lines, sortedPackages, true);
    lines := lines + ["", RouterLine] + IfBase(hasBase, BaseInclude);
    lines := AppendModuleLines(lines, sortedFiles, false);
    lines := AppendPackageLines(lines, sortedPackages, false);
    lines := lines + [""];
    text := Join(lines, "\n");
  }

  /** Where `router = APIRouter()` stands: after the header, the base import, the imports and an empty line. */
  function RouterAt(hasBase: bool, routed: seq<string>): nat {
    |GeneratedHeader| + (if hasBase then 1 else 0) + |routed| + 1
  }

  lemma Regroup<T>(a: seq<T>, b: seq<T>, c: seq<T>, d: seq<T>, e: seq<T>, f: seq<T>, g: seq<T>, h: seq<T>, z: seq<T>)
    ensures a + b + c + d + e + f + g + h + z == (a + b + (c + d)) + e + (f + (g + h)) + z
  {
  }

  /** Positions in lines laid out as header, base import, imports, router, base include, includes. */
  lemma Layout(lines: seq<string>, header: seq<string>, baseImport: seq<string>, imports: seq<string>,
               baseInclude: seq<string>, includes: seq<string>)
    requires lines == (header + baseImport + imports) + ["", RouterLine] + (baseInclude + includes) + [""]
    ensures var k := |header| + |baseImport| + |imports| + 1;
      && |lines| == k + |baseInclude| + |includes| + 2
      && (forall i :: 0 <= i < |header| ==> lines[i] == header[i])
      && (forall i :: 0 <= i < |baseImport| ==> lines[|header| + i] == baseImport[i])
      && (forall j :: 0 <= j < |imports| ==> lines[|header| + |baseImport| + j] == imports[j])
      && lines[k - 1] == "" && lines[k] == RouterLine
      && (forall i :: 0 <= i < |baseInclude| ==> lines[k + 1 + i] == baseInclude[i])
      && (forall j :: 0 <= j < |includes| ==> lines[k + 1 + |baseInclude| + j] == includes[j])
      && lines[|lines| - 1] == ""
  {
  }

  /**
   * Lines laid out as a generated `__init__.py`, position by position: the header, the base
   * import, one import per router, an empty line, the router, the base include, one include
   * per router, and a final empty line.
   */
  predicate LaidOut(lines: seq<string>, hasBase: bool, routed: seq<string>) {
    var b := if hasBase then 1 else 0;
    var k := RouterAt(hasBase, routed);
    && |lines| == k + b + |routed| + 2
    && (forall i :: 0 <= i < |GeneratedHeader| ==> lines[i] == GeneratedHeader[i])
    && (hasBase ==> lines[|GeneratedHeader|] == BaseImport && lines[k + 1] == BaseInclude)
    && (forall j :: 0 <= j < |routed| ==> lines[|GeneratedHeader| + b + j] == ImportLine(routed[j]))
    && lines[k - 1] == "" && lines[k] == RouterLine
    && (forall j :: 0 <= j < |routed| ==> lines[k + 1 + b + j] == IncludeLine(routed[j]))
    && lines[|lines| - 1] == ""
  }

  /** The generated lines, position by position. */
  lemma InitTextParts(hasBase: bool, modules: seq<string>, subpackages: seq<string>)
    ensures LaidOut(InitText(hasBase, modules, subpackages), hasBase, modules + subpackages)
  {
    var routed := modules + subpackages;
    LinesAppend(modules, subpackages);
    Regroup(GeneratedHeader, IfBase(hasBase, BaseImport), ImportLines(modules), ImportLines(subpackages),
      ["", RouterLine], IfBase(hasBase, BaseInclude), IncludeLines(modules), IncludeLines(subpackages), [""]);
    LayoutLaidOut(InitText(hasBase, modules, subpackages), hasBase, routed);
  }

  lemma LayoutLaidOut(lines: seq<string>, hasBase: bool, routed: seq<string>)
    requires lines == (GeneratedHeader + IfBase(hasBase, BaseImport) + ImportLines(routed)) + ["", RouterLine]
      + (IfBase(hasBase, BaseInclude) + IncludeLines(routed)) + [""]
    ensures LaidOut(lines, hasBase, routed)
  {
    Layout(lines, GeneratedHeader, IfBase(hasBase, BaseImport), ImportLines(routed),
      IfBase(hasBase, BaseInclude), IncludeLines(routed));
  }

  lemma ImportLineIsImport(name: string)
    ensures StartsWith(ImportLine(name), "from ")
  {
  }

  lemma IncludeLineIsNotImport(name: string)
    ensures !StartsWith(IncludeLine(name), "from ") && IncludeLine(name) != RouterLine
  {
    assert IncludeLine(name)[0] == 'r';
    assert IncludeLine(name)[..5] != "from ";
    assert |IncludeLine(name)| > |RouterLine|;
  }

  lemma IncludeLineIsNotBase(name: string)
    ensures IncludeLine(name) != BaseInclude
  {
    assert |IncludeLine(name)| == 2 * |name| + 42;
    assert |BaseInclude| == 45;
  }

  /** In laid-out lines, no line after the router is an import or a second router. */
  lemma AfterRouterIn(lines: seq<string>, hasBase: bool, routed: seq<string>, i: nat)
    requires LaidOut(lines, hasBase, routed) && RouterAt(hasBase, routed) < i < |lines|
    ensures !StartsWith(lines[i], "from ") && lines[i] != RouterLine
  {
    var b := if hasBase then 1 else 0;
    var j := i - RouterAt(hasBase, routed) - 1;
    if hasBase && j == 0 {
      assert lines[i] == BaseInclude;
      assert BaseInclude[..5][0] == 'r' && |BaseInclude| != |RouterLine|;
    } else if j - b < |routed| {
      assert lines[i] == IncludeLine(routed[j - b]);
      IncludeLineIsNotImport(routed[j - b]);
    } else {
      assert lines[i] == "";
    }
  }

  /** No line after the router is an import or a second router. */
  lemma AfterRouter(hasBase: bool, modules: seq<string>, subpackages: seq<string>, i: nat)
    requires RouterAt(hasBase, modules + subpackages) < i < |InitText(hasBase, modules, subpackages)|
    ensures var line := InitText(hasBase, modules, subpackages)[i];
      !StartsWith(line, "from ") && line != RouterLine
  {
    InitTextParts(hasBase, modules, subpackages);
    AfterRouterIn(InitText(hasBase, modules, subpackages), hasBase, modules + subpackages, i);
  }

  /** In laid-out lines, no line before the router is the router. */
  lemma BeforeRouterIn(lines: seq<string>, hasBase: bool, routed: seq<string>, i: nat)
    requires LaidOut(lines, hasBase, routed) && i < RouterAt(hasBase, routed)
    ensures lines[i] != RouterLine
  {
    var b := if hasBase then 1 else 0;
    if i < |GeneratedHeader| {
      assert lines[i] == GeneratedHeader[i];
    } else if i < |GeneratedHeader| + b {
      assert lines[i] == BaseImport;
    } else if i < RouterAt(hasBase, routed) - 1 {
      var name := routed[i - |GeneratedHeader| - b];
      assert lines[i] == ImportLine(name) && ImportLine(name)[0] == 'f';
    } else {
      assert lines[i] == "";
    }
  }

  /** No line before the router is the router. */
  lemma BeforeRouter(hasBase: bool, modules: seq<string>, subpackages: seq<string>, i: nat)
    requires i < RouterAt(hasBase, modules + subpackages)
    ensures InitText(hasBase, modules, subpackages)[i] != RouterLine
  {
    InitTextParts(hasBase, modules, subpackages);
    BeforeRouterIn(InitText(hasBase, modules, subpackages), hasBase, modules + subpackages, i);
  }

  /**
   * Every import comes before `router = APIRouter()`, which appears exactly once; every
   * line after it is an include or empty, never an import.
   */
  lemma ImportsBeforeRouter(hasBase: bool, modules: seq<string>, subpackages: seq<string>)
    ensures var lines := InitText(hasBase, modules, subpackages);
      var k := RouterAt(hasBase, modules + subpackages);
      && k < |lines| && lines[k] == RouterLine
      && (forall i :: 0 <= i < |lines| && (StartsWith(lines[i], "from ") || lines[i] == RouterLine) ==> i <= k)
      && (forall i :: 0 <= i < k ==> lines[i] != RouterLine)
  {
    InitTextParts(hasBase, modules, subpackages);
    var lines := InitText(hasBase, modules, subpackages);
    var k := RouterAt(hasBase, modules + subpackages);
    forall i | k < i < |lines|
      ensures !StartsWith(lines[i], "from ") && lines[i] != RouterLine
    {
      AfterRouter(hasBase, modules, subpackages, i);
    }
    forall i | 0 <= i < k
      ensures lines[i] != RouterLine
    {
      BeforeRouter(hasBase, modules, subpackages, i);
    }
  }

  /** Without a base module, no laid-out line is the base include. */
  lemma NoBaseIncludeIn(lines: seq<string>, routed: seq<string>, i: nat)
    requires LaidOut(lines, false, routed) && i < |lines|
    ensures lines[i] != BaseInclude
  {
    var k := RouterAt(false, routed);
    if i < |GeneratedHeader| {
      assert lines[i] == GeneratedHeader[i];
      assert |GeneratedHeader[i]| != |BaseInclude| by {
        assert i == 0 || i == 1 || i == 2 || i == 3;
      }
    } else if i < k - 1 {
      var name := routed[i - |GeneratedHeader|];
      assert lines[i] == ImportLine(name) && ImportLine(name)[0] == 'f';
    } else if i == k - 1 || i == |lines| - 1 {
      assert lines[i] == "";
    } else if i == k {
      assert lines[i] == RouterLine && |RouterLine| != |BaseInclude|;
    } else {
      assert lines[i] == IncludeLine(routed[i - k - 1]);
      IncludeLineIsNotBase(routed[i - k - 1]);
    }
  }

  /** The base router is included, with prefix `''`, exactly when there is a base module. */
  lemma BaseIncludedIff(hasBase: bool, modules: seq<string>, subpackages: seq<string>)
    ensures BaseInclude in InitText(hasBase, modules, subpackages) <==> hasBase
  {
    InitTextParts(hasBase, modules, subpackages);
    var lines := InitText(hasBase, modules, subpackages);
    if !hasBase {
      forall i | 0 <= i < |lines|
        ensures lines[i] != BaseInclude
      {
        NoBaseIncludeIn(lines, modules + subpackages, i);
      }
    } else {
      assert lines[RouterAt(hasBase, modules + subpackages) + 1] == BaseInclude;
    }
  }

  /** `Modules` keeps exactly the stems of the files other than `__init__.py` and `base.py`. */
  lemma {:induction false} ModulesHas(files: seq<string>, name: string)
    requires name in files && !IsSpecial(name)
    ensures Stem(name) in Modules(files)
  {
    var last := files[|files| - 1];
    if last != name {
      assert name in files[..|files| - 1] by {
        var i :| 0 <= i < |files| && files[i] == name;
        assert files[..|files| - 1][i] == name;
      }
      ModulesHas(files[..|files| - 1], name);
    }
  }

  /** Every router is imported and included. */
  lemma RouterIsIncluded(hasBase: bool, modules: seq<string>, subpackages: seq<string>, name: string)
    requires name in modules + subpackages
    ensures ImportLine(name) in InitText(hasBase, modules, subpackages)
    ensures IncludeLine(name) in InitText(hasBase, modules, subpackages)
  {
    InitTextParts(hasBase, modules, subpackages);
    RouterLinesIn(InitText(hasBase, modules, subpackages), hasBase, modules + subpackages, name);
  }

  /** In laid-out lines, every router is imported and included. */
  lemma RouterLinesIn(lines: seq<string>, hasBase: bool, routed: seq<string>, name: string)
    requires LaidOut(lines, hasBase, routed) && name in routed
    ensures ImportLine(name) in lines && IncludeLine(name) in lines
  {
    var j :| 0 <= j < |routed| && routed[j] == name;
    var b := if hasBase then 1 else 0;
    assert lines[|GeneratedHeader| + b + j] == ImportLine(name);
    assert lines[RouterAt(hasBase, routed) + 1 + b + j] == IncludeLine(name);
  }

  /** Each module other than `__init__.py` and `base.py` is imported and included with prefix `/{stem}`. */
  lemma ModuleIsRouted(files: seq<string>, packages: seq<string>, name: string)
    requires name in files && !IsSpecial(name)
    ensures ImportLine(Stem(name)) in InitLines(files, packages)
    ensures IncludeLine(Stem(name)) in InitLines(files, packages)
  {
    var sorted := PySort.Sort(files);
    assert name in multiset(files);
    assert name in sorted;
    ModulesHas(sorted, name);
    RouterIsIncluded("base.py" in files, Modules(sorted), PySort.Sort(packages), Stem(name));
  }

  /** Each sub-package is imported and included with prefix `/{name}`. */
  lemma PackageIsRouted(files: seq<string>, packages: seq<string>, name: string)
    requires name in packages
    ensures ImportLine(name) in InitLines(files, packages)
    ensures IncludeLine(name) in InitLines(files, packages)
  {
    var sorted := PySort.Sort(packages);
    assert name in multiset(packages);
    assert name in sorted;
    RouterIsIncluded("base.py" in files, Modules(PySort.Sort(files)), sorted, name);
  }

  /** The generated text depends only on which files and packages exist, not on the listing order. */
  lemma InitIgnoresOrder(files1: seq<string>, packages1: seq<string>, files2: seq<string>, packages2: seq<string>)
    requires multiset(files1) == multiset(files2) && multiset(packages1) == multiset(packages2)
    ensures InitLines(files1, packages1) == InitLines(files2, packages2)
  {
    PySort.SortIgnoresOrder(files1, files2);
    PySort.SortIgnoresOrder(packages1, packages2);
    assert ("base.py" in files1) == ("base.py" in multiset(files1)) == ("base.py" in files2);
  }
}
