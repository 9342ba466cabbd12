/** `random.shuffle` on the playlist, with its random draws as an input. */
module Shuffling {
  import opened Tracks

  /** The list with the entries at `i` and `j` exchanged. */
  function Swap(s: seq<Track>, i: nat, j: nat): (r: seq<Track>)
    requires i < |s| && j < |s|
    ensures |r| == |s| && multiset(r) == multiset(s)
    ensures r[i] == s[j] && r[j] == s[i]
    ensures forall k :: 0 <= k < |s| && k != i && k != j ==> r[k] == s[k]
  {
    s[i := s[j]][j := s[i]]
  }

  /** Draws `random.shuffle` may make for a list of `n`: one per position from
      the last down to the second, the draw for position `i` being at most `i`
      (`ds[k]` is the draw for position `n - 1 - k`). */
  predicate Draws(n: nat, ds: seq<nat>) {
    && |ds| == (if n == 0 then 0 else n - 1)
    && forall k :: 0 <= k < |ds| ==> ds[k] < n - k
  }

  /** Draws for a list of `n >= 2`, without the first, are draws for `n - 1`. */
  lemma DrawsTail(n: nat, ds: seq<nat>)
    requires n >= 2 && Draws(n, ds)
    ensures Draws(n - 1, ds[1..])
  {
    forall k | 0 <= k < |ds[1..]| ensures ds[1..][k] < n - 1 - k {
      assert ds[1..][k] == ds[k + 1];
    }
  }

  /** Fisher-Yates as `random.shuffle` runs it: swap the last position with the
      drawn one, then shuffle the positions before it. Whatever the draws, the
      result only reorders the list. */
  function ShuffleBy(s: seq<Track>, ds: seq<nat>): (r: seq<Track>)
    requires Draws(|s|, ds)
    ensures |r| == |s| && multiset(r) == multiset(s)
    decreases |s|
  {
    if |s| <= 1 then s
    else
      var i := |s| - 1;
      var t := Swap(s, i, ds[0]);
      DrawsTail(|s|, ds);
      var front := ShuffleBy(t[..i], ds[1..]);
      assert t == t[..i] + [t[i]];
      front + [t[i]]
  }

  lemma DropLastKeepsMultiset(t: seq<Track>, p: seq<Track>, i: nat)
    requires |t| == |p| == i + 1 && multiset(t) == multiset(p) && t[i] == p[i]
    ensures multiset(t[..i]) == multiset(p[..i])
  {
    var x := t[i];
    assert t == t[..i] + [x];
    assert p == p[..i] + [x];
    assert multiset(t[..i]) == multiset(t) - multiset{x};
    assert multiset(p[..i]) == multiset(p) - multiset{x};
  }

  lemma ShuffleByStep(s: seq<Track>, j: nat, rest: seq<nat>)
    requires |s| >= 2 && Draws(|s|, [j] + rest)
    ensures j < |s| && Draws(|s| - 1, rest)
    ensures ShuffleBy(s, [j] + rest)
         == ShuffleBy(Swap(s, |s| - 1, j)[..|s| - 1], rest) + [Swap(s, |s| - 1, j)[|s| - 1]]
  {
    var ds := [j] + rest;
    assert ds[0] == j && ds[1..] == rest;
    DrawsTail(|s|, ds);
  }

  lemma PositionOf(s: seq<Track>, x: Track) returns (j: nat)
    requires x in multiset(s)
    ensures j < |s| && s[j] == x
  {
    assert x in s;
    j :| 0 <= j < |s| && s[j] == x;
  }

  lemma DrawsCons(n: nat, j: nat, rest: seq<nat>)
    requires n >= 2 && j < n && Draws(n - 1, rest)
    ensures Draws(n, [j] + rest)
  {
    var ds := [j] + rest;
    forall k | 0 <= k < |ds| ensures ds[k] < n - k {
      if k > 0 { assert ds[k] == rest[k - 1]; }
    }
  }

  lemma SameLength(s: seq<Track>, p: seq<Track>)
    requires multiset(p) == multiset(s)
    ensures |p| == |s|
  {
    assert |p| == |multiset(p)| == |s|;
  }

  lemma PrepareStep(s: seq<Track>, p: seq<Track>) returns (j: nat, t: seq<Track>)
    requires multiset(p) == multiset(s) && |p| == |s| >= 2
    ensures j < |s| && t == Swap(s, |s| - 1, j) && t[|s| - 1] == p[|s| - 1]
    ensures multiset(t[..|s| - 1]) == multiset(p[..|s| - 1])
  {
    var i := |s| - 1;
    j := PositionOf(s, p[i]);
    t := Swap(s, i, j);
    DropLastKeepsMultiset(t, p, i);
  }

  lemma SplitLast(p: seq<Track>)
    requires |p| > 0
    ensures p == p[..|p| - 1] + [p[|p| - 1]]
  {
  }

  /** Every reordering of the list is the outcome of some draws: the model
      excludes no order the shuffle can produce. */
  lemma {:induction false} EveryOrderReachable(s: seq<Track>, p: seq<Track>) returns (ds: seq<nat>)
    requires multiset(p) == multiset(s)
    ensures Draws(|s|, ds) && ShuffleBy(s, ds) == p
    decreases |s|
  {
    SameLength(s, p);
    if |s| == 0 {
      ds := [];
    } else if |s| == 1 {
      ds := [];
      assert p[0] in multiset(s);
      assert p == [p[0]] && s == [s[0]];
    } else {
      var i := |s| - 1;
      var j, t := PrepareStep(s, p);
      var rest := EveryOrderReachable(t[..i], p[..i]);
      DrawsCons(|s|, j, rest);
      ds := [j] + rest;
      ShuffleByStep(s, j, rest);
      SplitLast(p);
    }
  }
}
