/** The string helpers of the player: whitespace stripping, file-name sanitising,
    search normalisation, label titles, zero-padded numbers and the mm:ss clock. */
module Text {
  import opened Wrappers

  // ---------- Character classes ----------

  /** Whitespace as Python's `str.isspace` and the regex class `\s` see it: the
      29 characters Unicode gives the White_Space property or the bidirectional
      classes B, S and WS. */
  predicate IsSpace(c: char) {
    c == ' ' || c == '\t' || c == '\n' || c == '\r' || c == '\U{B}' || c == '\U{C}'
    || ('\U{1C}' <= c <= '\U{1F}') || c == '\U{85}' || c == '\U{A0}' || c == '\U{1680}'
    || ('\U{2000}' <= c <= '\U{200A}') || c == '\U{2028}' || c == '\U{2029}'
    || c == '\U{202F}' || c == '\U{205F}' || c == '\U{3000}'
  }

  /** The characters `safe_filename` replaces: backslash, slash, colon, star,
      question mark, double quote, angle brackets and the vertical bar. */
  predicate IsUnsafe(c: char) {
    c == '\\' || c == '/' || c == ':' || c == '*' || c == '?' || c == '"'
    || c == '<' || c == '>' || c == '|'
  }

  /** The characters the search key keeps: `[a-z0-9]`. */
  predicate IsKey(c: char) {
    ('a' <= c <= 'z') || ('0' <= c <= '9')
  }

  predicate IsDigit(c: char) {
    '0' <= c <= '9'
  }

  /** The horizontal ellipsis `safe_filename` appends when it truncates. */
  const Ellipsis: char := '\U{2026}'

  /** No two whitespace characters stand next to each other. */
  predicate NoDoubleSpace(s: string) {
    forall k :: 0 <= k < |s| - 1 ==> !DoubleAt(s, k)
  }

  /** Positions `k` and `k + 1` of `s` are both whitespace. */
  predicate DoubleAt(s: string, k: nat)
    requires k + 1 < |s|
  {
    IsSpace(s[k]) && IsSpace(s[k + 1])
  }

  /** Every whitespace character is a plain blank. */
  predicate OnlyBlanks(s: string) {
    forall k :: 0 <= k < |s| ==> IsSpace(s[k]) ==> s[k] == ' '
  }

  /** Neither end of `s` is whitespace. */
  predicate Trimmed(s: string) {
    s != [] ==> !IsSpace(s[0]) && !IsSpace(s[|s| - 1])
  }

  // ---------- str.strip() ----------

  function StripLeft(s: string): (r: string)
    ensures |r| <= |s| && r == s[|s| - |r|..]
    ensures r != [] ==> !IsSpace(r[0])
    ensures forall k :: 0 <= k < |s| - |r| ==> IsSpace(s[k])
  {
    if s != [] && IsSpace(s[0]) then StripLeft(s[1..]) else s
  }

  function StripRight(s: string): (r: string)
    ensures |r| <= |s| && r == s[..|r|]
    ensures r != [] ==> !IsSpace(r[|r| - 1])
    ensures forall k :: |r| <= k < |s| ==> IsSpace(s[k])
  {
    if s != [] && IsSpace(s[|s| - 1]) then StripRight(s[..|s| - 1]) else s
  }

  /** Where `Strip` cuts its argument: the number of leading whitespace characters. */
  function StripOffset(s: string): (i: nat)
    ensures i <= |s|
  {
    |s| - |StripLeft(s)|
  }

  /** `s.strip()`: drops leading and trailing whitespace and nothing else. */
  function Strip(s: string): (r: string)
    ensures Trimmed(r)
    ensures StripOffset(s) + |r| <= |s| && r == s[StripOffset(s)..StripOffset(s) + |r|]
    ensures forall k :: 0 <= k < StripOffset(s) ==> IsSpace(s[k])
    ensures forall k :: StripOffset(s) + |r| <= k < |s| ==> IsSpace(s[k])
  {
    StripRight(StripLeft(s))
  }

  /** `Strip` keeps only characters of its argument. */
  lemma StripChars(s: string)
    ensures forall c :: c in Strip(s) ==> c in s
  {
    var i := StripOffset(s);
    SliceChars(s, i, i + |Strip(s)|);
  }

  lemma SliceChars(s: string, i: nat, j: nat)
    requires i <= j <= |s|
    ensures forall c :: c in s[i..j] ==> c in s
  {
    forall c | c in s[i..j] ensures c in s {
      var k :| 0 <= k < j - i && s[i..j][k] == c;
      assert s[i + k] == c;
    }
  }

  /** `Strip` keeps a contiguous block, so single-blank spacing survives it. */
  lemma StripKeepsSpacing(s: string)
    ensures NoDoubleSpace(s) ==> NoDoubleSpace(Strip(s))
    ensures OnlyBlanks(s) ==> OnlyBlanks(Strip(s))
  {
    var r, i := Strip(s), StripOffset(s);
    SliceKeepsSpacing(s, i, i + |r|);
  }

  /** A block cut out of a string keeps its single-blank spacing. */
  lemma SliceKeepsSpacing(s: string, i: nat, j: nat)
    requires i <= j <= |s|
    ensures NoDoubleSpace(s) ==> NoDoubleSpace(s[i..j])
    ensures OnlyBlanks(s) ==> OnlyBlanks(s[i..j])
  {
    var r := s[i..j];
    if NoDoubleSpace(s) {
      forall k | 0 <= k < |r| - 1 ensures !DoubleAt(r, k) {
        assert r[k] == s[i + k] && r[k + 1] == s[i + k + 1];
        assert !DoubleAt(s, i + k);
      }
    }
    if OnlyBlanks(s) {
      forall k | 0 <= k < |r| ensures IsSpace(r[k]) ==> r[k] == ' ' {
        assert r[k] == s[i + k];
      }
    }
  }

  /** `Strip` leaves a trimmed string alone and empties an all-whitespace one. */
  lemma StripTrimmed(s: string)
    ensures Trimmed(s) ==> Strip(s) == s
    ensures Strip(s) == [] <==> forall c :: c in s ==> IsSpace(c)
  {
    var r, i := Strip(s), StripOffset(s);
    if r == [] {
      forall c | c in s ensures IsSpace(c) {
        var k :| 0 <= k < |s| && s[k] == c;
      }
    } else {
      assert r[0] in s;
    }
    if Trimmed(s) && s != [] {
      assert !IsSpace(s[0]) && !IsSpace(s[|s| - 1]);
      assert i == 0;
    }
  }

  // ---------- re.sub(r"[\\/:*?\"<>|]+", "_", s) ----------

  function DropUnsafe(s: string): (r: string)
    ensures |r| <= |s| && r == s[|s| - |r|..]
    ensures r != [] ==> !IsUnsafe(r[0])
  {
    if s != [] && IsUnsafe(s[0]) then DropUnsafe(s[1..]) else s
  }

  /** Replaces every maximal run of unsafe characters by one underscore. */
  function ReplaceUnsafe(s: string): (r: string)
    ensures forall c :: c in r ==> !IsUnsafe(c)
    ensures forall c :: c in r ==> c in s || c == '_'
    decreases |s|
  {
    if s == [] then []
    else if IsUnsafe(s[0]) then "_" + ReplaceUnsafe(DropUnsafe(s[1..]))
    else [s[0]] + ReplaceUnsafe(s[1..])
  }

  lemma {:induction false} ReplaceUnsafeKeepsSafe(s: string)
    requires forall c :: c in s ==> !IsUnsafe(c)
    ensures ReplaceUnsafe(s) == s
  {
    if s != [] {
      assert s[0] in s;
      ReplaceUnsafeKeepsSafe(s[1..]);
    }
  }

  /** A run of unsafe characters is dropped whole; what follows it is kept. */
  lemma {:induction false} DropUnsafeAppend(x: string, y: string)
    requires y != [] && !IsUnsafe(y[0])
    ensures DropUnsafe(x + y) == DropUnsafe(x) + y
    decreases |x|
  {
    if x == [] {
      assert x + y == y;
    } else {
      assert (x + y)[0] == x[0] && (x + y)[1..] == x[1..] + y;
      DropUnsafeAppend(x[1..], y);
    }
  }

  /** A string made only of unsafe characters is dropped completely. */
  lemma {:induction false} DropUnsafeAll(x: string)
    requires forall k :: 0 <= k < |x| ==> IsUnsafe(x[k])
    ensures DropUnsafe(x) == []
    decreases |x|
  {
    if x != [] {
      assert IsUnsafe(x[0]);
      forall k | 0 <= k < |x[1..]| ensures IsUnsafe(x[1..][k]) { assert x[1..][k] == x[k + 1]; }
      DropUnsafeAll(x[1..]);
    }
  }

  /** A safe character splits the replacement: each side is replaced on its own
      and the character itself stays in place. */
  lemma {:induction false} ReplaceUnsafeSplit(a: string, c: char, b: string)
    requires !IsUnsafe(c)
    ensures ReplaceUnsafe(a + [c] + b) == ReplaceUnsafe(a) + [c] + ReplaceUnsafe(b)
    decreases |a|, 1
  {
    if a == [] {
      assert a + [c] + b == [c] + b;
    } else if !IsUnsafe(a[0]) {
      ReplaceUnsafeSplitKeptHead(a, c, b);
    } else {
      ReplaceUnsafeSplitDroppedHead(a, c, b);
    }
  }

  lemma {:induction false} ReplaceUnsafeSplitKeptHead(a: string, c: char, b: string)
    requires !IsUnsafe(c) && a != [] && !IsUnsafe(a[0])
    ensures ReplaceUnsafe(a + [c] + b) == ReplaceUnsafe(a) + [c] + ReplaceUnsafe(b)
    decreases |a|, 0
  {
    var t := a[1..];
    SplitTail(a, c, b);
    AppendCons(t, c, b);
    assert ReplaceUnsafe(a + [c] + b) == [a[0]] + ReplaceUnsafe(t + [c] + b);
    ReplaceUnsafeSplit(t, c, b);
    CharAssoc([a[0]], ReplaceUnsafe(t), c, ReplaceUnsafe(b));
  }

  lemma {:induction false} ReplaceUnsafeSplitDroppedHead(a: string, c: char, b: string)
    requires !IsUnsafe(c) && a != [] && IsUnsafe(a[0])
    ensures ReplaceUnsafe(a + [c] + b) == ReplaceUnsafe(a) + [c] + ReplaceUnsafe(b)
    decreases |a|, 0
  {
    var t := a[1..];
    var d := DropUnsafe(t);
    SplitTail(a, c, b);
    DropUnsafeAppend(t, [c] + b);
    AppendCons(d, c, b);
    assert ReplaceUnsafe(a + [c] + b) == "_" + ReplaceUnsafe(d + [c] + b);
    ReplaceUnsafeSplit(d, c, b);
    CharAssoc("_", ReplaceUnsafe(d), c, ReplaceUnsafe(b));
  }

  // A sequence identity stated on its own so that the proofs using it stay small.
  lemma SplitTail(a: string, c: char, b: string)
    requires a != []
    ensures (a + [c] + b)[0] == a[0] && (a + [c] + b)[1..] == a[1..] + ([c] + b)
  {
  }

  // A sequence identity stated on its own so that the proofs using it stay small.
  lemma AppendCons(d: string, c: char, b: string)
    ensures d + ([c] + b) == d + [c] + b
  {
  }

  // A sequence identity stated on its own so that the proofs using it stay small.
  lemma CharAssoc(x: string, z: string, c: char, y: string)
    ensures x + (z + [c] + y) == (x + z) + [c] + y
  {
  }

  /** A non-empty run made only of unsafe characters becomes one underscore. */
  lemma ReplaceUnsafeRun(u: string)
    requires u != [] && forall k :: 0 <= k < |u| ==> IsUnsafe(u[k])
    ensures ReplaceUnsafe(u) == "_"
  {
    assert IsUnsafe(u[0]);
    forall k | 0 <= k < |u[1..]| ensures IsUnsafe(u[1..][k]) { assert u[1..][k] == u[k + 1]; }
    DropUnsafeAll(u[1..]);
  }

  // ---------- re.sub(r"\s+", " ", s) ----------

  function DropSpace(s: string): (r: string)
    ensures |r| <= |s| && r == s[|s| - |r|..]
    ensures r != [] ==> !IsSpace(r[0])
  {
    if s != [] && IsSpace(s[0]) then DropSpace(s[1..]) else s
  }

  /** Replaces every maximal run of whitespace by one blank. */
  function CollapseSpace(s: string): (r: string)
    ensures (r == []) == (s == [])
    ensures r != [] ==> (IsSpace(r[0]) <==> IsSpace(s[0]))
    ensures OnlyBlanks(r) && NoDoubleSpace(r)
    decreases |s|
  {
    if s == [] then []
    else if IsSpace(s[0]) then
      var t := CollapseSpace(DropSpace(s[1..]));
      ConsNoDouble(' ', t);
      " " + t
    else
      var t := CollapseSpace(s[1..]);
      ConsNoDouble(s[0], t);
      [s[0]] + t
  }

  lemma ConsNoDouble(c: char, t: string)
    requires NoDoubleSpace(t) && (t != [] && IsSpace(c) ==> !IsSpace(t[0]))
    ensures NoDoubleSpace([c] + t)
  {
    var r := [c] + t;
    forall k | 0 <= k < |r| - 1 ensures !DoubleAt(r, k) {
      if k > 0 { assert r[k] == t[k - 1] && r[k + 1] == t[k]; assert !DoubleAt(t, k - 1); }
    }
  }

  /** `CollapseSpace` introduces no character but the blank. */
  lemma {:induction false} CollapseSpaceChars(s: string)
    ensures forall c :: c in CollapseSpace(s) ==> c in s || c == ' '
    decreases |s|
  {
    if s != [] {
      if IsSpace(s[0]) {
        var rest := DropSpace(s[1..]);
        CollapseSpaceChars(rest);
        forall c | c in rest ensures c in s {
          var k :| 0 <= k < |rest| && rest[k] == c;
          assert s[|s| - |rest| + k] == c;
        }
      } else {
        CollapseSpaceChars(s[1..]);
      }
    }
  }

  lemma {:induction false} DropSpaceDropsOnlySpace(s: string, k: nat)
    requires k < |s| - |DropSpace(s)|
    ensures IsSpace(s[k])
  {
    if k > 0 { DropSpaceDropsOnlySpace(s[1..], k - 1); }
  }

  lemma {:induction false} CollapseSpaceKeepsTidy(s: string)
    requires OnlyBlanks(s) && NoDoubleSpace(s)
    ensures CollapseSpace(s) == s
  {
    if s != [] {
      if IsSpace(s[0]) {
        assert |s| > 1 ==> !DoubleAt(s, 0);
        assert DropSpace(s[1..]) == s[1..];
      }
      TidyTail(s);
      CollapseSpaceKeepsTidy(s[1..]);
    }
  }

  /** A whitespace run is dropped whole; what follows it is kept. */
  lemma {:induction false} DropSpaceAppend(x: string, y: string)
    requires y != [] && !IsSpace(y[0])
    ensures DropSpace(x + y) == DropSpace(x) + y
    decreases |x|
  {
    if x == [] {
      assert x + y == y;
    } else {
      assert (x + y)[0] == x[0] && (x + y)[1..] == x[1..] + y;
      DropSpaceAppend(x[1..], y);
    }
  }

  /** A string made only of whitespace is dropped completely. */
  lemma {:induction false} DropSpaceAll(x: string)
    requires forall k :: 0 <= k < |x| ==> IsSpace(x[k])
    ensures DropSpace(x) == []
    decreases |x|
  {
    if x != [] {
      assert IsSpace(x[0]);
      forall k | 0 <= k < |x[1..]| ensures IsSpace(x[1..][k]) { assert x[1..][k] == x[k + 1]; }
      DropSpaceAll(x[1..]);
    }
  }

  /** A character that is not whitespace splits the collapse: each side is
      collapsed on its own and the character itself stays in place. */
  lemma {:induction false} CollapseSpaceSplit(a: string, c: char, b: string)
    requires !IsSpace(c)
    ensures CollapseSpace(a + [c] + b) == CollapseSpace(a) + [c] + CollapseSpace(b)
    decreases |a|, 1
  {
    if a == [] {
      assert a + [c] + b == [c] + b;
    } else if !IsSpace(a[0]) {
      CollapseSpaceSplitKeptHead(a, c, b);
    } else {
      CollapseSpaceSplitDroppedHead(a, c, b);
    }
  }

  lemma {:induction false} CollapseSpaceSplitKeptHead(a: string, c: char, b: string)
    requires !IsSpace(c) && a != [] && !IsSpace(a[0])
    ensures CollapseSpace(a + [c] + b) == CollapseSpace(a) + [c] + CollapseSpace(b)
    decreases |a|, 0
  {
    var t := a[1..];
    SplitTail(a, c, b);
    AppendCons(t, c, b);
    assert CollapseSpace(a + [c] + b) == [a[0]] + CollapseSpace(t + [c] + b);
    CollapseSpaceSplit(t, c, b);
    CharAssoc([a[0]], CollapseSpace(t), c, CollapseSpace(b));
  }

  lemma {:induction false} CollapseSpaceSplitDroppedHead(a: string, c: char, b: string)
    requires !IsSpace(c) && a != [] && IsSpace(a[0])
    ensures CollapseSpace(a + [c] + b) == CollapseSpace(a) + [c] + CollapseSpace(b)
    decreases |a|, 0
  {
    var t := a[1..];
    var d := DropSpace(t);
    SplitTail(a, c, b);
    DropSpaceAppend(t, [c] + b);
    AppendCons(d, c, b);
    assert CollapseSpace(a + [c] + b) == " " + CollapseSpace(d + [c] + b);
    CollapseSpaceSplit(d, c, b);
    CharAssoc(" ", CollapseSpace(d), c, CollapseSpace(b));
  }

  /** A non-empty run made only of whitespace becomes one blank. */
  lemma CollapseSpaceRun(u: string)
    requires u != [] && forall k :: 0 <= k < |u| ==> IsSpace(u[k])
    ensures CollapseSpace(u) == " "
  {
    assert IsSpace(u[0]);
    forall k | 0 <= k < |u[1..]| ensures IsSpace(u[1..][k]) { assert u[1..][k] == u[k + 1]; }
    DropSpaceAll(u[1..]);
  }

  /** A tidy string stays tidy without its first character. */
  lemma TidyTail(s: string)
    requires s != [] && OnlyBlanks(s) && NoDoubleSpace(s)
    ensures OnlyBlanks(s[1..]) && NoDoubleSpace(s[1..])
  {
    var t := s[1..];
    forall k | 0 <= k < |t| ensures IsSpace(t[k]) ==> t[k] == ' ' {
      assert t[k] == s[k + 1];
    }
    forall k | 0 <= k < |t| - 1 ensures !DoubleAt(t, k) {
      assert t[k] == s[k + 1] && t[k + 1] == s[k + 2];
      assert !DoubleAt(s, k + 1);
    }
  }

  // ---------- safe_filename ----------

  /** Python's `s[:k]`, for any integer k (a negative k counts from the end). */
  function PyPrefix(s: string, k: int): (r: string)
    ensures 0 <= k ==> r == s[..if k < |s| then k else |s|]
    ensures k < 0 ==> r == s[..if |s| + k > 0 then |s| + k else 0]
  {
    if k >= 0 then s[..if k < |s| then k else |s|]
    else s[..if |s| + k > 0 then |s| + k else 0]
  }

  /** The placeholder "track" is a tidy name. */
  lemma PlaceholderTidy()
    ensures TidyName("track")
  {
    var t := "track";
    assert forall k :: 0 <= k < |t| ==> !IsSpace(t[k]) && !IsUnsafe(t[k]);
    assert forall c :: c in t ==> !IsUnsafe(c) by {
      forall c | c in t ensures !IsUnsafe(c) { var k :| 0 <= k < |t| && t[k] == c; }
    }
    forall k | 0 <= k < |t| - 1 ensures !DoubleAt(t, k) { }
  }

  /** The name after unsafe-character replacement, stripping, whitespace collapsing
      and the second strip, with the "track" placeholder for a name left empty. */
  function CleanName(name: string): (c: string)
    ensures TidyName(c)
  {
    var n := Strip(CollapseSpace(Strip(ReplaceUnsafe(name))));
    CleanStepsTidy(name);
    PlaceholderTidy();
    if n == [] then "track" else n
  }

  /** The cleaning steps of `safe_filename` leave no unsafe character and only
      single blanks, with none at either end. */
  lemma CleanStepsTidy(name: string)
    ensures var n := Strip(CollapseSpace(Strip(ReplaceUnsafe(name))));
      && (forall ch :: ch in n ==> !IsUnsafe(ch))
      && Trimmed(n) && OnlyBlanks(n) && NoDoubleSpace(n)
  {
    var u := ReplaceUnsafe(name);
    var a := Strip(u);
    var b := CollapseSpace(a);
    StripKeepsSafe(u);
    CollapseSpaceKeepsSafe(a);
    StripKeepsSafe(b);
    StripKeepsSpacing(b);
  }

  lemma StripKeepsSafe(s: string)
    requires forall ch :: ch in s ==> !IsUnsafe(ch)
    ensures forall ch :: ch in Strip(s) ==> !IsUnsafe(ch)
  {
    StripChars(s);
  }

  lemma CollapseSpaceKeepsSafe(s: string)
    requires forall ch :: ch in s ==> !IsUnsafe(ch)
    ensures forall ch :: ch in CollapseSpace(s) ==> !IsUnsafe(ch)
  {
    CollapseSpaceChars(s);
  }

  /** A tidy name is its own cleaned name. */
  lemma CleanNameKeepsTidy(name: string)
    requires TidyName(name)
    ensures CleanName(name) == name
  {
    ReplaceUnsafeKeepsSafe(name);
    StripTrimmed(name);
    CollapseSpaceKeepsTidy(name);
  }

  /** The characters of `s` that sanitising leaves alone, in order: all but
      whitespace, the unsafe characters and the underscore put in their place. */
  function Solid(s: string): string {
    if s == [] then []
    else (if IsSpace(s[0]) || IsUnsafe(s[0]) || s[0] == '_' then [] else [s[0]]) + Solid(s[1..])
  }

  lemma {:induction false} SolidAppend(a: string, b: string)
    ensures Solid(a + b) == Solid(a) + Solid(b)
    decreases |a|
  {
    if a == [] {
      assert a + b == b;
    } else {
      assert (a + b)[0] == a[0] && (a + b)[1..] == a[1..] + b;
      SolidAppend(a[1..], b);
    }
  }

  lemma {:induction false} SolidOfBlank(s: string)
    requires forall k :: 0 <= k < |s| ==> IsSpace(s[k])
    ensures Solid(s) == []
    decreases |s|
  {
    if s != [] {
      assert IsSpace(s[0]);
      forall k | 0 <= k < |s[1..]| ensures IsSpace(s[1..][k]) { assert s[1..][k] == s[k + 1]; }
      SolidOfBlank(s[1..]);
    }
  }

  lemma {:induction false} SolidDropSpace(x: string)
    ensures Solid(DropSpace(x)) == Solid(x)
    decreases |x|
  {
    if x != [] && IsSpace(x[0]) { SolidDropSpace(x[1..]); }
  }

  lemma {:induction false} SolidDropUnsafe(x: string)
    ensures Solid(DropUnsafe(x)) == Solid(x)
    decreases |x|
  {
    if x != [] && IsUnsafe(x[0]) { SolidDropUnsafe(x[1..]); }
  }

  /** Replacing unsafe runs by underscores keeps every other character in order. */
  lemma {:induction false} SolidReplaceUnsafe(s: string)
    ensures Solid(ReplaceUnsafe(s)) == Solid(s)
    decreases |s|
  {
    if s != [] {
      if IsUnsafe(s[0]) {
        var d := DropUnsafe(s[1..]);
        SolidReplaceUnsafe(d);
        SolidDropUnsafe(s[1..]);
        SolidAppend("_", ReplaceUnsafe(d));
      } else {
        SolidReplaceUnsafe(s[1..]);
        SolidAppend([s[0]], ReplaceUnsafe(s[1..]));
      }
    }
  }

  /** Collapsing whitespace keeps every other character in order. */
  lemma {:induction false} SolidCollapseSpace(s: string)
    ensures Solid(CollapseSpace(s)) == Solid(s)
    decreases |s|
  {
    if s != [] {
      if IsSpace(s[0]) {
        var d := DropSpace(s[1..]);
        SolidCollapseSpace(d);
        SolidDropSpace(s[1..]);
        SolidAppend(" ", CollapseSpace(d));
      } else {
        SolidCollapseSpace(s[1..]);
        SolidAppend([s[0]], CollapseSpace(s[1..]));
      }
    }
  }

  lemma {:induction false} SolidStripLeft(s: string)
    ensures Solid(StripLeft(s)) == Solid(s)
    decreases |s|
  {
    if s != [] && IsSpace(s[0]) {
      SolidStripLeft(s[1..]);
    }
  }

  lemma {:induction false} SolidStripRight(s: string)
    ensures Solid(StripRight(s)) == Solid(s)
    decreases |s|
  {
    if s != [] && IsSpace(s[|s| - 1]) {
      var init, last := s[..|s| - 1], s[|s| - 1];
      SolidStripRight(init);
      assert s == init + [last];
      SolidAppend(init, [last]);
    }
  }

  /** Stripping cuts whitespace only, so it keeps every other character. */
  lemma SolidStrip(s: string)
    ensures Solid(Strip(s)) == Solid(s)
  {
    SolidStripLeft(s);
    SolidStripRight(StripLeft(s));
  }

  /** Cleaning loses no character of the name other than whitespace, unsafe
      characters and underscores, and keeps the order of the rest. */
  lemma CleanNameKeepsText(name: string)
    ensures Solid(name) != [] ==> Solid(CleanName(name)) == Solid(name)
  {
    var u := ReplaceUnsafe(name);
    var a := Strip(u);
    var b := CollapseSpace(a);
    var n := Strip(b);
    SolidReplaceUnsafe(name);
    SolidStrip(u);
    SolidCollapseSpace(a);
    SolidStrip(b);
    assert Solid(n) == Solid(name);
  }

  /** A string that `safe_filename` may return: non-empty, no unsafe character,
      no whitespace at either end, only single blanks inside. */
  predicate TidyName(r: string) {
    && r != []
    && (forall c :: c in r ==> !IsUnsafe(c))
    && Trimmed(r) && OnlyBlanks(r) && NoDoubleSpace(r)
  }

  /** Cutting a tidy name to `k` characters and appending the ellipsis keeps it tidy. */
  lemma TruncateKeepsTidy(c: string, k: nat)
    requires TidyName(c) && k < |c|
    ensures TidyName(c[..k] + [Ellipsis])
  {
    var r := c[..k] + [Ellipsis];
    forall ch | ch in r ensures !IsUnsafe(ch) {
      var i :| 0 <= i < |r| && r[i] == ch;
      if i < k { assert c[i] in c; }
    }
    forall i | 0 <= i < |r| - 1 ensures !DoubleAt(r, i) {
      if i + 1 < k { assert r[i] == c[i] && r[i + 1] == c[i + 1]; assert !DoubleAt(c, i); }
    }
    forall i | 0 <= i < |r| ensures IsSpace(r[i]) ==> r[i] == ' ' {
      if i < k { assert r[i] == c[i]; }
    }
  }

  /** `safe_filename(name, max_len)`. */
  function SafeFilename(name: string, maxLen: int): (r: string)
    ensures TidyName(r)
    ensures 1 <= maxLen ==> |r| <= maxLen
    ensures |CleanName(name)| <= maxLen ==> r == CleanName(name)
    ensures 1 <= maxLen < |CleanName(name)| ==>
      |r| == maxLen && r[..maxLen - 1] == CleanName(name)[..maxLen - 1] && r[maxLen - 1] == Ellipsis
  {
    var c := CleanName(name);
    if |c| > maxLen then
      var p := PyPrefix(c, maxLen - 1);
      TruncateKeepsTidy(c, |p|);
      p + [Ellipsis]
    else c
  }

  /** A name that fits keeps all of its text other than whitespace, unsafe
      characters and underscores, in order. */
  lemma SafeFilenameKeepsText(name: string, maxLen: int)
    requires Solid(name) != [] && |CleanName(name)| <= maxLen
    ensures Solid(SafeFilename(name, maxLen)) == Solid(name)
  {
    CleanNameKeepsText(name);
  }

  /** Sanitising is idempotent: a sanitised name passes through unchanged. */
  lemma SafeFilenameIdempotent(name: string, maxLen: int)
    requires 1 <= maxLen
    ensures SafeFilename(SafeFilename(name, maxLen), maxLen) == SafeFilename(name, maxLen)
  {
    var r := SafeFilename(name, maxLen);
    ReplaceUnsafeKeepsSafe(r);
    StripTrimmed(r);
    CollapseSpaceKeepsTidy(r);
    assert CleanName(r) == r;
  }

  /** A name of whitespace only, the empty name included, becomes the placeholder "track". */
  lemma BlankNameBecomesTrack(name: string, maxLen: int)
    requires 5 <= maxLen && forall c :: c in name ==> IsSpace(c)
    ensures SafeFilename(name, maxLen) == "track"
  {
    assert forall c :: c in name ==> !IsUnsafe(c);
    ReplaceUnsafeKeepsSafe(name);
    StripTrimmed(name);
    assert CleanName(name) == "track";
  }

  /** The ellipsis at the end does not show that truncation happened: a short
      name that already ends in one is returned as it is. */
  lemma EllipsisWithoutTruncation()
    ensures SafeFilename(['a', Ellipsis], 140) == ['a', Ellipsis]
  {
    var s := ['a', Ellipsis];
    assert TidyName(s);
    ReplaceUnsafeKeepsSafe(s);
    StripTrimmed(s);
    CollapseSpaceKeepsTidy(s);
    assert CleanName(s) == s;
  }

  // ---------- normalize_for_search / squash_spaces ----------

  /** `str.lower` of one character. A–Z become a–z; the dotted capital I
      (U+0130) becomes "i" and a combining dot, and the Kelvin sign (U+212A)
      becomes "k". These are the only characters whose lower case holds a
      character of `[a-z0-9]`. Every other character stands for itself: its
      lower case, if different, holds no such character and no whitespace. */
  function LowerChar(c: char): (d: string)
    ensures d != []
    ensures IsKey(c) || IsSpace(c) ==> d == [c]
    ensures 'A' <= c <= 'Z' ==> d == [(c as int + 32) as char] && IsKey(d[0])
    ensures c == '\U{130}' ==> d == ['i', '\U{307}']
    ensures c == '\U{212A}' ==> d == ['k']
    ensures !('A' <= c <= 'Z') && c != '\U{130}' && c != '\U{212A}' ==> d == [c]
    ensures (exists k :: 0 <= k < |d| && IsKey(d[k])) <==>
      IsKey(c) || ('A' <= c <= 'Z') || c == '\U{130}' || c == '\U{212A}'
  {
    if 'A' <= c <= 'Z' then [(c as int + 32) as char]
    else if c == '\U{130}' then var d := ['i', '\U{307}']; assert IsKey(d[0]); d
    else if c == '\U{212A}' then var d := ['k']; assert IsKey(d[0]); d
    else [c]
  }

  /** `str.lower()`: the lower case of each character, in order. */
  function Lower(s: string): (r: string)
    ensures |r| >= |s|
    ensures s == [] ==> r == []
  {
    if s == [] then [] else LowerChar(s[0]) + Lower(s[1..])
  }

  /** Lower-casing works character by character, so it distributes over concatenation. */
  lemma {:induction false} LowerAppend(a: string, b: string)
    ensures Lower(a + b) == Lower(a) + Lower(b)
    decreases |a|
  {
    if a == [] {
      assert a + b == b;
    } else {
      assert (a + b)[0] == a[0] && (a + b)[1..] == a[1..] + b;
      LowerAppend(a[1..], b);
    }
  }

  /** A string of `[a-z0-9]` and whitespace is already lower case. */
  lemma {:induction false} LowerKeepsLowerCase(s: string)
    requires forall k :: 0 <= k < |s| ==> IsKey(s[k]) || IsSpace(s[k])
    ensures Lower(s) == s
    decreases |s|
  {
    if s != [] {
      assert IsKey(s[0]) || IsSpace(s[0]);
      forall k | 0 <= k < |s[1..]| ensures IsKey(s[1..][k]) || IsSpace(s[1..][k]) { assert s[1..][k] == s[k + 1]; }
      LowerKeepsLowerCase(s[1..]);
    }
  }

  predicate AllKey(w: string) {
    forall k :: 0 <= k < |w| ==> IsKey(w[k])
  }

  /** One search token: a non-empty run of `[a-z0-9]`. */
  predicate IsWord(w: string) {
    w != [] && AllKey(w)
  }

  function DropNonKey(s: string): (r: string)
    ensures |r| <= |s| && r == s[|s| - |r|..]
    ensures r != [] ==> IsKey(r[0])
  {
    if s != [] && !IsKey(s[0]) then
      var r := DropNonKey(s[1..]);
      assert s[1..][|s| - 1 - |r|..] == s[|s| - |r|..];
      r
    else s
  }

  lemma {:induction false} DropNonKeyDropsNonKeys(s: string)
    ensures forall k :: 0 <= k < |s| - |DropNonKey(s)| ==> !IsKey(s[k])
    decreases |s|
  {
    if s != [] && !IsKey(s[0]) {
      var t := s[1..];
      DropNonKeyDropsNonKeys(t);
      assert DropNonKey(s) == DropNonKey(t);
      forall k | 0 <= k < |s| - |DropNonKey(s)| ensures !IsKey(s[k]) {
        if k > 0 { assert s[k] == t[k - 1]; }
      }
    }
  }

  function TakeKey(s: string): (r: string)
    ensures |r| <= |s| && r == s[..|r|]
    ensures s != [] && IsKey(s[0]) ==> r != []
  {
    if s != [] && IsKey(s[0]) then [s[0]] + TakeKey(s[1..]) else []
  }

  lemma {:induction false} TakeKeyTakesKeys(s: string)
    ensures AllKey(TakeKey(s))
    decreases |s|
  {
    if s != [] && IsKey(s[0]) {
      TakeKeyTakesKeys(s[1..]);
      var r := TakeKey(s);
      forall k | 0 <= k < |r| ensures IsKey(r[k]) {
        if k > 0 { assert r[k] == TakeKey(s[1..])[k - 1]; }
      }
    }
  }

  /** The maximal runs of `[a-z0-9]` in `s`, left to right: what `split()` yields
      once every other run of characters has become one blank. */
  function Words(s: string): (ws: seq<string>)
    decreases |s|
  {
    var t := DropNonKey(s);
    if t == [] then []
    else
      var w := TakeKey(t);
      [w] + Words(t[|w|..])
  }

  /** Every entry of `Words(s)` is a search token. */
  lemma {:induction false} WordsAreWords(s: string)
    ensures forall k :: 0 <= k < |Words(s)| ==> IsWord(Words(s)[k])
    decreases |s|
  {
    var t := DropNonKey(s);
    if t != [] {
      var w := TakeKey(t);
      TakeKeyTakesKeys(t);
      WordsAreWords(t[|w|..]);
      var ws := Words(s);
      assert ws == [w] + Words(t[|w|..]);
      forall k | 0 <= k < |ws| ensures IsWord(ws[k]) {
        if k > 0 { assert ws[k] == Words(t[|w|..])[k - 1]; }
      }
    }
  }

  /** `" ".join(ws)`. */
  function JoinBlank(ws: seq<string>): string {
    if ws == [] then "" else if |ws| == 1 then ws[0] else ws[0] + " " + JoinBlank(ws[1..])
  }

  /** A normalised search key: runs of `[a-z0-9]` separated by single blanks. */
  predicate SearchKey(r: string) {
    (forall k :: 0 <= k < |r| ==> IsKey(r[k]) || r[k] == ' ') && Trimmed(r) && NoDoubleSpace(r)
  }

  lemma ConcatNoDouble(a: string, b: string)
    requires NoDoubleSpace(a) && NoDoubleSpace(b)
    requires a != [] && b != [] ==> !(IsSpace(a[|a| - 1]) && IsSpace(b[0]))
    ensures NoDoubleSpace(a + b)
  {
    var r := a + b;
    forall k | 0 <= k < |r| - 1 ensures !DoubleAt(r, k) {
      if k + 1 < |a| {
        assert r[k] == a[k] && r[k + 1] == a[k + 1] && !DoubleAt(a, k);
      } else if k >= |a| {
        assert r[k] == b[k - |a|] && r[k + 1] == b[k + 1 - |a|] && !DoubleAt(b, k - |a|);
      }
    }
  }

  lemma {:induction false} JoinIsSearchKey(ws: seq<string>)
    requires forall k :: 0 <= k < |ws| ==> IsWord(ws[k])
    ensures SearchKey(JoinBlank(ws))
    ensures ws != [] ==> JoinBlank(ws) != []
  {
    if |ws| == 1 {
      var w := ws[0];
      forall k | 0 <= k < |w| - 1 ensures !DoubleAt(w, k) { assert IsKey(w[k]); }
    } else if |ws| > 1 {
      var w, j := ws[0], JoinBlank(ws[1..]);
      JoinIsSearchKey(ws[1..]);
      forall k | 0 <= k < |w| - 1 ensures !DoubleAt(w, k) { assert IsKey(w[k]); }
      ConcatNoDouble(w, " ");
      ConcatNoDouble(w + " ", j);
      var r := w + " " + j;
      forall k | 0 <= k < |r| ensures IsKey(r[k]) || r[k] == ' ' {
        if k < |w| { assert r[k] == w[k]; } else if k > |w| { assert r[k] == j[k - |w| - 1]; }
      }
    }
  }

  /** `normalize_for_search`: lower-case, then keep the `[a-z0-9]` runs joined by single blanks. */
  function NormalizeForSearch(s: string): (r: string)
    ensures SearchKey(r)
  {
    var ws := Words(Lower(s));
    WordsAreWords(Lower(s));
    JoinIsSearchKey(ws);
    JoinBlank(ws)
  }

  /** `squash_spaces`: `s.replace(" ", "")`. */
  function SquashSpaces(s: string): (r: string)
    ensures forall c :: c in r <==> c in s && c != ' '
  {
    if s == [] then []
    else if s[0] == ' ' then SquashSpaces(s[1..])
    else [s[0]] + SquashSpaces(s[1..])
  }

  lemma {:induction false} SquashAppend(a: string, b: string)
    ensures SquashSpaces(a + b) == SquashSpaces(a) + SquashSpaces(b)
  {
    assert [] + b == b;
    if a != [] {
      assert (a + b)[0] == a[0] && (a + b)[1..] == a[1..] + b;
      SquashAppend(a[1..], b);
      if a[0] == ' ' {
        assert SquashSpaces(a + b) == SquashSpaces(a[1..] + b);
      } else {
        assert SquashSpaces(a + b) == [a[0]] + SquashSpaces(a[1..] + b);
      }
    }
  }

  /** Only the `[a-z0-9]` characters of `s`, in order. */
  function KeepKeys(s: string): (r: string)
    ensures AllKey(r)
  {
    if s == [] then [] else if IsKey(s[0]) then [s[0]] + KeepKeys(s[1..]) else KeepKeys(s[1..])
  }

  lemma {:induction false} KeepKeysAppend(a: string, b: string)
    ensures KeepKeys(a + b) == KeepKeys(a) + KeepKeys(b)
  {
    assert [] + b == b;
    if a != [] {
      assert (a + b)[0] == a[0] && (a + b)[1..] == a[1..] + b;
      KeepKeysAppend(a[1..], b);
      if IsKey(a[0]) {
        assert KeepKeys(a + b) == [a[0]] + KeepKeys(a[1..] + b);
      } else {
        assert KeepKeys(a + b) == KeepKeys(a[1..] + b);
      }
    }
  }

  lemma {:induction false} KeepKeysAllOrNone(s: string)
    ensures AllKey(s) ==> KeepKeys(s) == s
    ensures (forall k :: 0 <= k < |s| ==> !IsKey(s[k])) ==> KeepKeys(s) == []
    ensures AllKey(s) ==> SquashSpaces(s) == s
  {
    if s != [] {
      assert AllKey(s) ==> AllKey(s[1..]);
      assert AllKey(s) ==> IsKey(s[0]) && s[0] != ' ';
      KeepKeysAllOrNone(s[1..]);
    }
  }

  /** The concatenation of some strings. */
  function Concat(ws: seq<string>): string {
    if ws == [] then "" else ws[0] + Concat(ws[1..])
  }

  lemma KeysSkipNonKey(s: string)
    ensures KeepKeys(s) == KeepKeys(DropNonKey(s))
  {
    var t := DropNonKey(s);
    var d := s[..|s| - |t|];
    assert s == d + t;
    DropNonKeyDropsNonKeys(s);
    KeepKeysAppend(d, t);
    assert forall k :: 0 <= k < |d| ==> !IsKey(d[k]);
    KeepKeysAllOrNone(d);
  }

  lemma KeysSplitWord(t: string)
    ensures KeepKeys(t) == TakeKey(t) + KeepKeys(t[|TakeKey(t)|..])
  {
    var w := TakeKey(t);
    assert t == w + t[|w|..];
    TakeKeyTakesKeys(t);
    KeepKeysAppend(w, t[|w|..]);
    KeepKeysAllOrNone(w);
  }

  lemma ConcatCons(w: string, ws: seq<string>)
    ensures Concat([w] + ws) == w + Concat(ws)
  {
    assert ([w] + ws)[1..] == ws;
  }

  lemma {:induction false} WordsCoverKeys(s: string)
    ensures Concat(Words(s)) == KeepKeys(s)
    decreases |s|
  {
    var t := DropNonKey(s);
    KeysSkipNonKey(s);
    if t != [] {
      var w := TakeKey(t);
      var rest := t[|w|..];
      assert Words(s) == [w] + Words(rest);
      KeysSplitWord(t);
      WordsCoverKeys(rest);
      ConcatCons(w, Words(rest));
    }
  }

  lemma {:induction false} SquashJoin(ws: seq<string>)
    requires forall k :: 0 <= k < |ws| ==> IsWord(ws[k])
    ensures SquashSpaces(JoinBlank(ws)) == Concat(ws)
  {
    if ws != [] {
      var w, rest := ws[0], ws[1..];
      KeepKeysAllOrNone(w);
      if |ws| == 1 {
        assert Concat(ws) == w + Concat([]);
      } else {
        WordsTail(ws);
        SquashJoin(rest);
        JoinBlankCons(ws);
        SquashAppend(w, " " + JoinBlank(rest));
        SquashBlankCons(JoinBlank(rest));
      }
    }
  }

  lemma SquashBlankCons(x: string)
    ensures SquashSpaces(" " + x) == SquashSpaces(x)
  {
    assert (" " + x)[1..] == x;
  }

  /** Removing the blanks of a normalised key leaves exactly the letters and digits
      of the lower-cased input, in order: normalising only regroups them. */
  lemma NormalizeKeepsKeys(s: string)
    ensures SquashSpaces(NormalizeForSearch(s)) == KeepKeys(Lower(s))
  {
    WordsAreWords(Lower(s));
    SquashJoin(Words(Lower(s)));
    WordsCoverKeys(Lower(s));
  }

  lemma JoinBlankCons(ws: seq<string>)
    requires |ws| > 1
    ensures JoinBlank(ws) == ws[0] + (" " + JoinBlank(ws[1..]))
  {
  }

  lemma WordsTail(ws: seq<string>)
    requires ws != [] && forall k :: 0 <= k < |ws| ==> IsWord(ws[k])
    ensures forall k :: 0 <= k < |ws[1..]| ==> IsWord(ws[1..][k])
  {
    assert forall k :: 0 <= k < |ws[1..]| ==> ws[1..][k] == ws[k + 1];
  }
  /** `TakeKey` stops at the first character outside `[a-z0-9]`. */
  lemma {:induction false} TakeKeyPrefix(w: string, rest: string)
    requires AllKey(w) && (rest == [] || !IsKey(rest[0]))
    ensures TakeKey(w + rest) == w
    decreases |w|
  {
    if w == [] {
      assert w + rest == rest;
    } else {
      assert IsKey(w[0]);
      assert (w + rest)[0] == w[0] && (w + rest)[1..] == w[1..] + rest;
      forall k | 0 <= k < |w[1..]| ensures IsKey(w[1..][k]) { assert w[1..][k] == w[k + 1]; }
      TakeKeyPrefix(w[1..], rest);
    }
  }

  /** Whatever follows the run `TakeKey` takes is not a key character. */
  lemma {:induction false} TakeKeyStops(s: string)
    ensures |TakeKey(s)| < |s| ==> !IsKey(s[|TakeKey(s)|])
    decreases |s|
  {
    if s != [] && IsKey(s[0]) {
      TakeKeyStops(s[1..]);
      assert |TakeKey(s)| == 1 + |TakeKey(s[1..])|;
    }
  }

  /** A leading character outside `[a-z0-9]` yields no token. */
  lemma WordsSkip(c: char, b: string)
    requires !IsKey(c)
    ensures Words([c] + b) == Words(b)
  {
    assert ([c] + b)[0] == c && ([c] + b)[1..] == b;
    assert DropNonKey([c] + b) == DropNonKey(b);
  }

  /** A whole token at the front, followed by a separator or nothing, is the first token. */
  lemma WordsWordThen(w: string, rest: string)
    requires IsWord(w) && (rest == [] || !IsKey(rest[0]))
    ensures Words(w + rest) == [w] + Words(rest)
  {
    var s := w + rest;
    assert s[0] == w[0] && IsKey(w[0]);
    assert DropNonKey(s) == s;
    TakeKeyPrefix(w, rest);
    assert s[|w|..] == rest;
  }

  /** A separator splits the tokens: those of each side, in order. */
  lemma {:induction false} WordsSplit(a: string, c: char, b: string)
    requires !IsKey(c)
    ensures Words(a + [c] + b) == Words(a) + Words(b)
    decreases |a|
  {
    if a == [] {
      assert a + [c] + b == [c] + b;
      WordsSkip(c, b);
      assert Words(a) == [];
    } else if !IsKey(a[0]) {
      var a' := a[1..];
      assert a + [c] + b == [a[0]] + (a' + [c] + b);
      assert a == [a[0]] + a';
      WordsSkip(a[0], a' + [c] + b);
      WordsSkip(a[0], a');
      WordsSplit(a', c, b);
      assert Words(a + [c] + b) == Words(a' + [c] + b) == Words(a') + Words(b);
    } else {
      WordsSplitAtToken(a, c, b);
    }
  }

  /** The case of `WordsSplit` where `a` starts with a token. */
  lemma {:induction false} WordsSplitAtToken(a: string, c: char, b: string)
    requires !IsKey(c) && a != [] && IsKey(a[0])
    ensures Words(a + [c] + b) == Words(a) + Words(b)
    decreases |a|, 0
  {
    var w := TakeKey(a);
    var rest := a[|w|..];
    TakeKeyTakesKeys(a);
    TakeKeyStops(a);
    assert a == w + rest;
    var tail := rest + [c] + b;
    assert a + [c] + b == w + tail;
    assert tail[0] == if rest == [] then c else rest[0];
    WordsWordThen(w, tail);
    WordsWordThen(w, rest);
    WordsSplit(rest, c, b);
    var x, y := Words(rest), Words(b);
    assert Words(tail) == x + y;
    assert Words(a + [c] + b) == [w] + (x + y);
    assert Words(a) == [w] + x;
    ConsAssoc(w, x, y);
  }

  // A sequence identity stated on its own so that the proofs using it stay small.
  lemma ConsAssoc(w: string, x: seq<string>, y: seq<string>)
    ensures [w] + (x + y) == ([w] + x) + y
  {
  }

  /** One token alone yields itself. */
  lemma WordsOfWord(w: string)
    requires IsWord(w)
    ensures Words(w) == [w]
  {
    WordsWordThen(w, []);
    assert w + [] == w;
  }

  /** Joining two non-empty token lists puts one blank between their joins. */
  lemma {:induction false} JoinBlankAppend(x: seq<string>, y: seq<string>)
    requires x != [] && y != []
    ensures JoinBlank(x + y) == JoinBlank(x) + " " + JoinBlank(y)
    decreases |x|
  {
    if |x| == 1 {
      assert (x + y)[0] == x[0] && (x + y)[1..] == y;
    } else {
      assert (x + y)[0] == x[0] && (x + y)[1..] == x[1..] + y;
      JoinBlankAppend(x[1..], y);
    }
  }

  /** A character that stays itself under `lower` and is not in `[a-z0-9]` separates
      the search key: each side is normalised on its own and the two are joined
      by one blank, or the empty side vanishes. */
  lemma NormalizeSplit(a: string, c: char, b: string)
    requires !IsKey(c) && !('A' <= c <= 'Z') && c != '\U{130}' && c != '\U{212A}'
    ensures NormalizeForSearch(a + [c] + b) ==
      if NormalizeForSearch(a) == [] then NormalizeForSearch(b)
      else if NormalizeForSearch(b) == [] then NormalizeForSearch(a)
      else NormalizeForSearch(a) + " " + NormalizeForSearch(b)
  {
    LowerAppend(a + [c], b);
    LowerAppend(a, [c]);
    assert Lower([c]) == [c];
    WordsSplit(Lower(a), c, Lower(b));
    var x, y := Words(Lower(a)), Words(Lower(b));
    WordsAreWords(Lower(a));
    WordsAreWords(Lower(b));
    JoinIsSearchKey(x);
    JoinIsSearchKey(y);
    if x != [] && y != [] {
      JoinBlankAppend(x, y);
    } else if x == [] {
      assert x + y == y;
    } else {
      assert x + y == x;
    }
  }

  /** A search token normalises to itself. */
  lemma NormalizeWord(w: string)
    requires IsWord(w)
    ensures NormalizeForSearch(w) == w
  {
    LowerKeepsLowerCase(w);
    WordsOfWord(w);
  }

  /** The dotted capital I lower-cases to "i" and a combining dot, which is a
      separator: "İstanbul" becomes the two tokens "i" and "stanbul". */
  lemma DottedCapitalISplitsWord(t: string)
    requires IsWord(t)
    ensures NormalizeForSearch(['\U{130}'] + t) == "i " + t
  {
    var i := "i";
    assert IsWord(i);
    assert Lower(['\U{130}'] + t) == i + ['\U{307}'] + t by {
      LowerDottedCapitalI(t);
      AppendCons(i, '\U{307}', t);
    }
    assert Words(i + ['\U{307}'] + t) == [i] + [t] by {
      WordsSplit(i, '\U{307}', t);
      WordsOfWord(i);
      WordsOfWord(t);
    }
    JoinBlankAppend([i], [t]);
  }

  lemma LowerDottedCapitalI(t: string)
    requires IsWord(t)
    ensures Lower(['\U{130}'] + t) == "i" + (['\U{307}'] + t)
  {
    var dotted := ['\U{130}'];
    assert Lower(dotted + t) == Lower(dotted) + Lower(t) by {
      LowerAppend(dotted, t);
    }
    assert Lower(dotted) == "i" + ['\U{307}'] by {
      assert dotted[1..] == [];
    }
    assert Lower(t) == t by {
      LowerKeepsLowerCase(t);
    }
    AppendCons("i", '\U{307}', t);
  }

  // ---------- Decimal numbers, fmt_mmss, clamp ----------

  function DigitChar(d: nat): (c: char)
    requires d < 10
    ensures IsDigit(c)
  {
    ('0' as int + d) as char
  }

  predicate AllDigits(s: string) {
    forall k :: 0 <= k < |s| ==> IsDigit(s[k])
  }

  /** `str(n)` for a natural number. */
  function Decimal(n: nat): (r: string)
    ensures r != [] && AllDigits(r)
    ensures r[0] == '0' <==> n == 0
    ensures |r| > 1 ==> r[0] != '0'
    ensures n < 100 ==> |r| <= 2
    ensures n < 1000 ==> |r| <= 3
  {
    if n < 10 then [DigitChar(n)] else Decimal(n / 10) + [DigitChar(n % 10)]
  }

  /** The number a string of decimal digits denotes. */
  function DigitsValue(s: string): nat
    requires AllDigits(s)
  {
    if s == [] then 0 else DigitsValue(s[..|s| - 1]) * 10 + (s[|s| - 1] as int - '0' as int)
  }

  lemma {:induction false} DecimalRoundTrip(n: nat)
    ensures DigitsValue(Decimal(n)) == n
  {
    if n >= 10 {
      var d := Decimal(n);
      assert d[..|d| - 1] == Decimal(n / 10);
      DecimalRoundTrip(n / 10);
    }
  }

  /** A digit string without leading zeros is the decimal form of its value,
      so `Decimal` is the only such string for each number. */
  lemma {:induction false} DecimalCanonical(s: string)
    requires s != [] && AllDigits(s) && (|s| > 1 ==> s[0] != '0')
    ensures Decimal(DigitsValue(s)) == s
    decreases |s|
  {
    if |s| == 1 {
      assert s[..0] == [];
    } else {
      var init, last := s[..|s| - 1], s[|s| - 1];
      var u, d := DigitsValue(init), last as int - '0' as int;
      assert Decimal(u) == init && u != 0 by {
        assert init[0] == s[0];
        DecimalCanonical(init);
      }
      assert DigitsValue(s) == u * 10 + d;
      assert Decimal(u * 10 + d) == s by {
        DecimalSnoc(u, d);
        assert s == init + [last];
      }
    }
  }

  /** Appending a digit to a positive number appends its character. */
  lemma DecimalSnoc(u: nat, d: nat)
    requires u > 0 && d < 10
    ensures Decimal(u * 10 + d) == Decimal(u) + [DigitChar(d)]
  {
    var v := u * 10 + d;
    assert v / 10 == u && v % 10 == d;
  }

  function Zeros(k: nat): (z: string)
    ensures |z| == k && AllDigits(z)
  {
    seq(k, _ => '0')
  }

  lemma {:induction false} LeadingZeros(k: nat, d: string)
    requires AllDigits(d)
    ensures DigitsValue(Zeros(k) + d) == DigitsValue(d)
    decreases |d|
  {
    if d == [] {
      assert Zeros(k) + d == Zeros(k);
      ZerosValue(k);
    } else {
      var s := Zeros(k) + d;
      assert s[..|s| - 1] == Zeros(k) + d[..|d| - 1];
      LeadingZeros(k, d[..|d| - 1]);
    }
  }

  lemma {:induction false} ZerosValue(k: nat)
    ensures DigitsValue(Zeros(k)) == 0
  {
    if k > 0 {
      assert Zeros(k)[..k - 1] == Zeros(k - 1);
      ZerosValue(k - 1);
    }
  }

  /** `f"{n:0{width}d}"`: `n` in decimal, padded on the left with zeros to `width` digits. */
  function ZeroPad(n: nat, width: nat): (r: string)
    ensures |r| >= width && AllDigits(r) && DigitsValue(r) == n
    ensures |r| == if |Decimal(n)| < width then width else |Decimal(n)|
    ensures n < 100 && width == 2 ==> |r| == 2
  {
    var d := Decimal(n);
    DecimalRoundTrip(n);
    if |d| >= width then d
    else
      LeadingZeros(width - |d|, d);
      Zeros(width - |d|) + d
  }

  /** `str(i)` for any integer. */
  function IntToString(i: int): (r: string)
    ensures r != []
    ensures i >= 0 ==> AllDigits(r) && DigitsValue(r) == i && (|r| > 1 ==> r[0] != '0')
    ensures i < 0 ==>
      r[0] == '-' && r[1..] != [] && AllDigits(r[1..]) && DigitsValue(r[1..]) == -i && r[1] != '0'
  {
    if i < 0 then
      var d := Decimal(-i);
      DecimalRoundTrip(-i);
      assert ("-" + d)[1..] == d;
      "-" + d
    else
      DecimalRoundTrip(i);
      Decimal(i)
  }

  /** `fmt_mmss` over whole seconds: "??:??" for an unknown or non-positive time,
      otherwise minutes (at least two digits), a colon and two digits of seconds. */
  function FmtMmss(seconds: Option<int>): (r: string)
    ensures r == "??:??" <==> seconds.None? || seconds.value <= 0
  {
    if seconds.None? || seconds.value <= 0 then "??:??"
    else
      var r := ZeroPad(seconds.value / 60, 2) + ":" + ZeroPad(seconds.value % 60, 2);
      assert IsDigit(r[0]);
      r
  }

  /** The clock reads back as the number of seconds it was made from. */
  lemma FmtMmssReadsBack(seconds: int)
    requires seconds > 0
    ensures var r := FmtMmss(Some(seconds));
      && |r| >= 5 && r[|r| - 3] == ':'
      && AllDigits(r[..|r| - 3]) && AllDigits(r[|r| - 2..])
      && DigitsValue(r[|r| - 2..]) < 60
      && DigitsValue(r[..|r| - 3]) * 60 + DigitsValue(r[|r| - 2..]) == seconds
  {
    var m, s := ZeroPad(seconds / 60, 2), ZeroPad(seconds % 60, 2);
    var r := FmtMmss(Some(seconds));
    assert r == m + ":" + s;
    assert r[..|r| - 3] == m && r[|r| - 2..] == s;
  }

  /** `clamp(v, lo, hi)`. */
  function Clamp(v: real, lo: real, hi: real): (r: real)
    ensures lo <= hi ==> lo <= r <= hi
    ensures lo <= v <= hi ==> r == v
    ensures v < lo ==> r == lo
    ensures lo <= v && hi < v ==> r == hi
    ensures r == lo || r == hi || r == v
  {
    if v < lo then lo else if v > hi then hi else v
  }

  // ---------- title_from_label ----------

  function IndexOf(s: string, c: char): (r: Option<nat>)
    ensures r.Some? ==> r.value < |s| && s[r.value] == c && c !in s[..r.value]
    ensures r.None? ==> c !in s
  {
    if s == [] then None
    else if s[0] == c then Some(0)
    else match IndexOf(s[1..], c)
      case None => None
      case Some(k) =>
        assert s[..k + 1] == [s[0]] + s[1..][..k];
        Some(k + 1)
  }

  /** `re.sub(r"\[/?[^\]]+\]", "", s)`: removes every `[` that is followed, before
      the next `]`, by at least one character, together with that text and the `]`.
      (The optional slash is itself such a character, so it needs no case of its own.) */
  function StripMarkup(s: string): (r: string)
    ensures |r| <= |s|
    decreases |s|
  {
    if s == [] then []
    else if s[0] == '[' then
      match IndexOf(s[1..], ']')
      case Some(j) => if j >= 1 then StripMarkup(s[j + 2..]) else [s[0]] + StripMarkup(s[1..])
      case None => [s[0]] + StripMarkup(s[1..])
    else [s[0]] + StripMarkup(s[1..])
  }

  lemma {:induction false} StripMarkupKeepsPlainPrefix(a: string, b: string)
    requires '[' !in a
    ensures StripMarkup(a + b) == a + StripMarkup(b)
  {
    if a == [] {
      assert a + b == b;
    } else {
      assert a == [a[0]] + a[1..];
      assert a + b == [a[0]] + (a[1..] + b);
      StripMarkupCons(a[0], a[1..] + b);
      StripMarkupKeepsPlainPrefix(a[1..], b);
    }
  }

  lemma StripMarkupCons(c: char, t: string)
    requires c != '['
    ensures StripMarkup([c] + t) == [c] + StripMarkup(t)
  {
    assert ([c] + t)[1..] == t;
  }

  /** The opening tag `[dim]` is removed whole. */
  lemma StripDimTag(x: string)
    ensures StripMarkup("[dim]" + x) == StripMarkup(x)
  {
    var m := "[dim]" + x;
    assert m[1..][3] == ']' && ']' !in m[1..][..3];
    assert IndexOf(m[1..], ']') == Some(3);
    assert m[5..] == x;
  }

  /** `s.split("  (", 1)[0]`: the text before the first blank, blank, parenthesis. */
  function BeforeSep(s: string): (r: string)
    ensures |r| <= |s| && r == s[..|r|]
  {
    if |s| < 3 then s else if s[..3] == "  (" then [] else [s[0]] + BeforeSep(s[1..])
  }

  lemma {:induction false} BeforeSepFindsFirst(a: string, x: string)
    requires '(' !in a && (a != [] ==> a[|a| - 1] != ' ')
    ensures BeforeSep(a + "  (" + x) == a
  {
    var s := a + "  (" + x;
    if a == [] {
      assert s[..3] == "  (";
    } else {
      assert s[..3] != "  (" by {
        if |a| >= 3 { assert s[2] == a[2] && a[2] in a; }
        else if |a| == 2 { assert s[2] == ' '; }
        else { assert s[0] == a[0] && s[2] == ' ' && s[1] == ' '; }
      }
      assert s[1..] == a[1..] + "  (" + x;
      BeforeSepFindsFirst(a[1..], x);
    }
  }

  /** `title_from_label`: the label without markup, cut before its context in
      parentheses and stripped; "track" when nothing is left. */
  function TitleFromLabel(markup: string): (r: string)
    ensures r != [] && Trimmed(r)
  {
    var raw := Strip(BeforeSep(StripMarkup(markup)));
    PlaceholderTidy();
    if raw == [] then "track" else raw
  }

  /** The label the player builds for a track, `"{title}  [dim]({context})[/dim]"`. */
  function Label(title: string, context: string): string {
    title + "  [dim](" + context + ")[/dim]"
  }

  /** Removing the markup from a label leaves the title, the separator and the
      context followed by the closing tag's remains. */
  lemma StripLabel(title: string, context: string)
    requires '[' !in title
    ensures StripMarkup(Label(title, context)) == title + "  (" + StripMarkup(context + ")[/dim]")
  {
    var tail := ")[/dim]";
    var u := StripMarkup(context + tail);
    var inner := "(" + (context + tail);
    StripMarkupKeepsPlainPrefix("(", context + tail);
    StripDimTag(inner);
    StripMarkupKeepsPlainPrefix("  ", "[dim]" + inner);
    StripMarkupKeepsPlainPrefix(title, "  " + ("[dim]" + inner));
    LabelShape(title, context);
    JoinShape(title, "  ", "(", u);
  }

  lemma LabelShape(title: string, context: string)
    ensures Label(title, context) == title + ("  " + ("[dim]" + ("(" + (context + ")[/dim]"))))
  {
  }

  lemma JoinShape(a: string, b: string, c: string, d: string)
    ensures a + (b + (c + d)) == a + (b + c) + d
  {
  }

  /** `title_from_label` recovers the title from a label built by `Label`, for every
      title that is trimmed, non-empty and free of `[` and `(`. */
  lemma TitleFromLabelRecoversTitle(title: string, context: string)
    requires title != [] && Trimmed(title) && '[' !in title && '(' !in title
    ensures TitleFromLabel(Label(title, context)) == title
  {
    StripLabel(title, context);
    BeforeSepFindsFirst(title, StripMarkup(context + ")[/dim]"));
    StripTrimmed(title);
  }

  // ---------- substring test ----------

  /** Python's `needle in hay` on strings. */
  function Contains(hay: string, needle: string): bool
    decreases |hay|
  {
    needle <= hay || (hay != [] && Contains(hay[1..], needle))
  }

  /** `needle` occurs in `hay` at position `i`. */
  predicate OccursAt(hay: string, needle: string, i: int) {
    0 <= i <= |hay| - |needle| && hay[i..i + |needle|] == needle
  }

  /** `Contains` holds exactly when `needle` occurs at some position of `hay`. */
  lemma {:induction false} ContainsIffOccurs(hay: string, needle: string)
    ensures Contains(hay, needle) <==> exists i :: OccursAt(hay, needle, i)
    decreases |hay|
  {
    if needle <= hay {
      assert OccursAt(hay, needle, 0);
    } else if hay != [] {
      ContainsIffOccurs(hay[1..], needle);
      if exists i :: OccursAt(hay, needle, i) {
        var i :| OccursAt(hay, needle, i);
        assert i != 0;
        assert hay[1..][i - 1..i - 1 + |needle|] == hay[i..i + |needle|];
        assert OccursAt(hay[1..], needle, i - 1);
      }
      if Contains(hay[1..], needle) {
        var i :| OccursAt(hay[1..], needle, i);
        assert hay[i + 1..i + 1 + |needle|] == hay[1..][i..i + |needle|];
        assert OccursAt(hay, needle, i + 1);
      }
    }
  }
}
