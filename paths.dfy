/** The few path operations the download pipeline needs, on '/'-separated
    path strings: the final component, its stem and suffix, and joining. */
module Paths {
  import opened Wrappers

  /** The position of the last `c` in `s`. */
  function LastIndexOf(s: string, c: char): (r: Option<nat>)
    ensures r.Some? ==> r.value < |s| && s[r.value] == c && c !in s[r.value + 1..]
    ensures r.None? ==> c !in s
  {
    if s == [] then None
    else if s[|s| - 1] == c then Some(|s| - 1)
    else
      var r := LastIndexOf(s[..|s| - 1], c);
      assert s == s[..|s| - 1] + [s[|s| - 1]];
      r
  }

  /** `Path(p).name`: what follows the last '/'. */
  function Name(path: string): (r: string)
    ensures '/' !in r
    ensures |r| <= |path| && path[|path| - |r|..] == r
  {
    match LastIndexOf(path, '/')
    case None => path
    case Some(k) => path[k + 1..]
  }

  /** Where `PurePath.suffix` begins: the last '.', unless it is the first
      character or the last one. */
  function SuffixStart(name: string): (r: Option<nat>)
    ensures r.Some? ==> 0 < r.value < |name| - 1 && name[r.value] == '.'
  {
    match LastIndexOf(name, '.')
    case None => None
    case Some(k) => if 0 < k < |name| - 1 then Some(k) else None
  }

  /** `PurePath.suffix`: the final extension with its dot, or empty. */
  function Suffix(name: string): (r: string)
    ensures r == [] || (r[0] == '.' && |r| >= 2)
  {
    match SuffixStart(name)
    case None => []
    case Some(k) => name[k..]
  }

  /** `PurePath.stem`: the name without its suffix. */
  function Stem(name: string): (r: string)
    ensures r <= name
  {
    match SuffixStart(name)
    case None => name
    case Some(k) => name[..k]
  }

  /** The stem and the suffix together give back the name, and the stem is never
      emptied by removing a suffix. */
  lemma StemSuffixSplit(name: string)
    ensures Stem(name) + Suffix(name) == name
    ensures name != [] ==> Stem(name) != []
  {
    match SuffixStart(name)
    case None =>
    case Some(k) =>
      assert name == name[..k] + name[k..];
  }

  // ---------- PurePosixPath: parsing, printing, joining ----------

  /** A component as pathlib keeps it: not empty, not ".", no '/'. */
  predicate IsPart(s: string) {
    s != [] && s != "." && '/' !in s
  }

  /** A parsed `PurePosixPath`: whether it starts at the root, and its components. */
  datatype PurePath = PurePath(rooted: bool, parts: seq<string>)

  predicate Normal(p: PurePath) {
    forall k :: 0 <= k < |p.parts| ==> IsPart(p.parts[k])
  }

  /** The components one '/'-free segment contributes: none for "" and ".". */
  function Segment(s: string): (r: seq<string>)
    requires '/' !in s
    ensures r == [] || (r == [s] && IsPart(s))
    ensures IsPart(s) ==> r == [s]
  {
    if s == [] || s == "." then [] else [s]
  }

  /** The components of a path string, left to right; empty and "." segments
      (from repeated, leading or trailing slashes and "./") vanish. */
  function Parts(path: string): (r: seq<string>)
    ensures forall k :: 0 <= k < |r| ==> IsPart(r[k])
    decreases |path|
  {
    match LastIndexOf(path, '/')
    case None => Segment(path)
    case Some(k) => Parts(path[..k]) + Segment(path[k + 1..])
  }

  /** `PurePosixPath(path)`. */
  function Parse(path: string): (p: PurePath)
    ensures Normal(p)
    ensures p.rooted <==> path != [] && path[0] == '/'
  {
    PurePath(path != [] && path[0] == '/', Parts(path))
  }

  /** Components with a '/' between each two. */
  function Slashed(parts: seq<string>): string
    decreases |parts|
  {
    if parts == [] then ""
    else if |parts| == 1 then parts[0]
    else Slashed(parts[..|parts| - 1]) + "/" + parts[|parts| - 1]
  }

  /** `str(p)`: the root, then the components with '/' between them; "." for
      the empty relative path. */
  function Str(p: PurePath): string {
    if p.rooted then "/" + Slashed(p.parts)
    else if p.parts == [] then "."
    else Slashed(p.parts)
  }

  /** `p / name`: a rooted name replaces the path; any other name's components
      are appended. */
  function Child(p: PurePath, name: string): (r: PurePath)
    ensures Normal(p) ==> Normal(r)
    ensures IsPart(name) ==> r == PurePath(p.rooted, p.parts + [name])
  {
    var q := Parse(name);
    PartsOfPart(name);
    if q.rooted then q else PurePath(p.rooted, p.parts + q.parts)
  }

  /** `str(dir / name)` for a folder `dir` printed in normal form, as the
      download's destination is: the name alone under the current directory,
      otherwise after a '/' (the root already ends in one). */
  function Join(dir: string, name: string): (r: string)
    ensures r == name || (|r| > |name| && r[|r| - |name| - 1..] == "/" + name)
    ensures dir == "." ==> r == name
  {
    if dir == [] || dir == "." then name
    else if dir[|dir| - 1] == '/' then dir + name
    else dir + "/" + name
  }

  /** `Path.expanduser()` with the home directory given: a leading "~"
      component is replaced by the home directory's components. */
  function ExpandUser(p: PurePath, home: string): (r: PurePath)
    requires Normal(p)
    ensures Normal(r)
    ensures p.rooted || p.parts == [] || p.parts[0] != "~" ==> r == p
    ensures !p.rooted && p.parts != [] && p.parts[0] == "~" ==> r == Child(Parse(home), Slashed(p.parts[1..]))
  {
    if !p.rooted && p.parts != [] && p.parts[0] == "~" then
      var h := Parse(home);
      var rest := p.parts[1..];
      assert Normal(PurePath(false, rest));
      ParseStr(PurePath(false, rest));
      if rest == [] then
        assert Child(h, Slashed(rest)) == PurePath(h.rooted, h.parts + rest);
        PurePath(h.rooted, h.parts + rest)
      else
        assert Parse(Slashed(rest)) == PurePath(false, rest);
        PurePath(h.rooted, h.parts + rest)
    else p
  }

  /** The folder a download goes to, as shown: `str(Path(folder).expanduser())`. */
  function DestFolder(folder: string, home: string): (r: string)
    ensures folder == "~" ==> r == Str(Parse(home))
  {
    var p := Parse(folder);
    if folder == "~" then
      PartsOfPart("~");
      PartsOfPart("");
      assert p == PurePath(false, ["~"]);
      var h := Parse(home);
      assert ExpandUser(p, home) == h by {
        assert Slashed(p.parts[1..]) == "";
        assert Parse("") == PurePath(false, []);
        assert h.parts + [] == h.parts;
      }
      Str(ExpandUser(p, home))
    else Str(ExpandUser(p, home))
  }

  // ---------- Their properties ----------

  /** A single component parses to itself. */
  lemma PartsOfPart(s: string)
    ensures IsPart(s) ==> Parts(s) == [s]
    ensures '/' !in s ==> Parts(s) == Segment(s)
  {
    if '/' !in s {
      assert LastIndexOf(s, '/') == None;
    }
  }

  /** Appending a component appends it after a '/', or alone when there was none. */
  lemma SlashedSnoc(parts: seq<string>, name: string)
    ensures Slashed(parts + [name]) == if parts == [] then name else Slashed(parts) + "/" + name
  {
    var ps := parts + [name];
    if parts != [] {
      assert ps[..|ps| - 1] == parts;
    }
  }

  /** Parsing splits at every '/': the parts of `a + "/" + b` are those of `a`
      followed by those of `b`. */
  lemma {:induction false} PartsSplit(a: string, b: string)
    ensures Parts(a + "/" + b) == Parts(a) + Parts(b)
    decreases |b|, 1
  {
    match LastIndexOf(b, '/')
    case None => PartsSplitLastSegment(a, b);
    case Some(k) => PartsSplitInner(a, b, k);
  }

  lemma PartsSplitLastSegment(a: string, b: string)
    requires '/' !in b
    ensures Parts(a + "/" + b) == Parts(a) + Parts(b)
  {
    var s := a + "/" + b;
    SlashSlices(a, b, |b|);
    LastIndexOfIsLast(s, '/', |a|);
    PartsOfPart(b);
  }

  lemma {:induction false} PartsSplitInner(a: string, b: string, k: nat)
    requires LastIndexOf(b, '/') == Some(k)
    ensures Parts(a + "/" + b) == Parts(a) + Parts(b)
    decreases |b|, 0
  {
    var s := a + "/" + b;
    var j := |a| + 1 + k;
    SlashSlices(a, b, k);
    LastIndexOfIsLast(s, '/', j);
    PartsAtLast(s, j);
    var pre, post := s[..j], s[j + 1..];
    assert pre == a + "/" + b[..k] && post == b[k + 1..];
    PartsSplit(a, b[..k]);
    PartsAtLast(b, k);
    SeqAssoc(Parts(a), Parts(b[..k]), Segment(post));
  }

  /** One step of `Parts`: the components before the last '/', then the segment after it. */
  lemma PartsAtLast(s: string, k: nat)
    requires LastIndexOf(s, '/') == Some(k)
    ensures Parts(s) == Parts(s[..k]) + Segment(s[k + 1..])
  {
  }

  /** Where the pieces of `a + "/" + b` lie, cut again after position `k` of `b`. */
  lemma SlashSlices(a: string, b: string, k: nat)
    requires k <= |b|
    ensures (a + "/" + b)[..|a|] == a && (a + "/" + b)[|a|] == '/'
    ensures (a + "/" + b)[|a| + 1..] == b
    ensures k < |b| ==> (a + "/" + b)[..|a| + 1 + k] == a + "/" + b[..k]
    ensures k < |b| ==> (a + "/" + b)[|a| + 1 + k + 1..] == b[k + 1..]
  {
  }

  // A sequence identity stated on its own so that the proofs using it stay small.
  lemma SeqAssoc(x: seq<string>, y: seq<string>, z: seq<string>)
    ensures (x + y) + z == x + (y + z)
  {
  }

  /** Printing and parsing again gives the path back. */
  lemma {:induction false} PartsOfSlashed(parts: seq<string>)
    requires forall k :: 0 <= k < |parts| ==> IsPart(parts[k])
    ensures Parts(Slashed(parts)) == parts
    decreases |parts|
  {
    if parts == [] {
      assert LastIndexOf("", '/') == None;
    } else if |parts| == 1 {
      PartsOfPart(parts[0]);
    } else {
      var init, last := parts[..|parts| - 1], parts[|parts| - 1];
      assert Slashed(parts) == Slashed(init) + "/" + last;
      assert Parts(Slashed(parts)) == Parts(Slashed(init)) + Parts(last) by {
        PartsSplit(Slashed(init), last);
      }
      assert Parts(Slashed(init)) == init by {
        PartsOfSlashed(init);
      }
      assert Parts(last) == [last] by {
        PartsOfPart(last);
      }
      InitLast(parts);
    }
  }

  // A sequence identity stated on its own so that the proofs using it stay small.
  lemma InitLast(ps: seq<string>)
    requires ps != []
    ensures ps == ps[..|ps| - 1] + [ps[|ps| - 1]]
  {
  }

  /** `PurePosixPath(str(p)) == p` for every parsed path. */
  lemma ParseStr(p: PurePath)
    requires Normal(p)
    ensures Parse(Str(p)) == p
  {
    if p.rooted {
      PartsOfRooted(p.parts);
    } else if p.parts == [] {
      PartsOfPart(".");
    } else {
      PartsOfSlashed(p.parts);
      SlashedStart(p.parts);
    }
  }

  lemma PartsOfRooted(parts: seq<string>)
    requires forall k :: 0 <= k < |parts| ==> IsPart(parts[k])
    ensures Parts("/" + Slashed(parts)) == parts
  {
    PartsAfterRoot(Slashed(parts));
    PartsOfSlashed(parts);
  }

  /** The root adds no component. */
  lemma PartsAfterRoot(t: string)
    ensures Parts("/" + t) == Parts(t)
  {
    PartsSplit("", t);
    assert "" + "/" + t == "/" + t;
    PartsOfPart("");
  }

  /** A relative path's text starts with its first component. */
  lemma {:induction false} SlashedStart(parts: seq<string>)
    requires parts != [] && parts[0] != []
    ensures Slashed(parts) != [] && Slashed(parts)[0] == parts[0][0]
    decreases |parts|
  {
    if |parts| > 1 {
      SlashedStart(parts[..|parts| - 1]);
    }
  }

  /** Normalising is idempotent: the printed form of a parsed path parses to
      the same path and prints the same. */
  lemma NormalizeIdempotent(path: string)
    ensures Str(Parse(Str(Parse(path)))) == Str(Parse(path))
  {
    ParseStr(Parse(path));
  }

  /** `Join` is pathlib's `/` on every path in normal form. */
  lemma JoinOfNormal(p: PurePath, name: string)
    requires Normal(p) && IsPart(name)
    ensures Join(Str(p), name) == Str(Child(p, name))
  {
    var t := Slashed(p.parts);
    SlashedSnoc(p.parts, name);
    if p.parts == [] {
      assert p.parts + [name] == [name];
      if p.rooted {
        assert Str(p) == "/" && Str(Child(p, name)) == "/" + name;
      } else {
        assert Str(p) == "." && Str(Child(p, name)) == name;
      }
    } else {
      SlashedEnd(p.parts);
      if p.rooted {
        assert Str(p) == "/" + t && Str(p)[|Str(p)| - 1] == t[|t| - 1];
        assert Str(Child(p, name)) == "/" + (t + "/" + name);
      } else {
        assert Str(p) == t;
      }
    }
  }

  /** A non-empty list of components prints as neither "" nor ".", and ends
      with the last component. */
  lemma {:induction false} SlashedEnd(parts: seq<string>)
    requires parts != [] && forall k :: 0 <= k < |parts| ==> IsPart(parts[k])
    ensures Slashed(parts) != [] && Slashed(parts) != "."
    ensures Slashed(parts)[|Slashed(parts)| - 1] != '/'
    decreases |parts|
  {
    var last := parts[|parts| - 1];
    assert last[|last| - 1] in last;
    if |parts| > 1 {
      SlashedEnd(parts[..|parts| - 1]);
    }
  }

  /** Under the current directory the joined path is the name itself. */
  lemma JoinOntoCurrent(name: string)
    requires IsPart(name)
    ensures Str(Child(Parse("."), name)) == name && Str(Child(Parse(""), name)) == name
    ensures Str(Child(Parse("./"), name)) == name
  {
    var here := PurePath(false, []);
    assert Parse(".") == here by {
      PartsOfPart(".");
    }
    assert Parse("") == here by {
      assert LastIndexOf("", '/') == None;
    }
    assert Parse("./") == here by {
      PartsSplit(".", "");
      PartsOfPart(".");
      PartsOfPart("");
      assert "." + "/" + "" == "./";
    }
    assert Str(Child(here, name)) == name by {
      assert here.parts + [name] == [name];
    }
  }

  /** A joined path's final component is the name joined on. */
  lemma NameOfJoin(dir: string, name: string)
    requires name != [] && '/' !in name
    ensures Name(Join(dir, name)) == name
  {
    var r := Join(dir, name);
    if r == name {
      assert LastIndexOf(r, '/') == None;
    } else {
      var k := |r| - |name| - 1;
      assert r[k] == '/' && r[k + 1..] == name;
      LastIndexOfIsLast(r, '/', k);
    }
  }

  /** `Path(p).name` is the last component for the normalised paths. */
  lemma NameOfStr(p: PurePath)
    requires Normal(p) && p.parts != []
    ensures Name(Str(p)) == p.parts[|p.parts| - 1]
  {
    var init, last := p.parts[..|p.parts| - 1], p.parts[|p.parts| - 1];
    assert p.parts == init + [last];
    SlashedSnoc(init, last);
    var r := Str(p);
    if r != last {
      var k := |r| - |last| - 1;
      assert r[k] == '/' && r[k + 1..] == last;
      LastIndexOfIsLast(r, '/', k);
    } else {
      assert LastIndexOf(r, '/') == None;
    }
  }

  lemma LastIndexOfIsLast(s: string, c: char, k: nat)
    requires k < |s| && s[k] == c && c !in s[k + 1..]
    ensures LastIndexOf(s, c) == Some(k)
  {
  }
}
