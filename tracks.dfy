/** Tracks (immutable records shared by the library, the playlist and playback)
    and the search filter over the library. */
module Tracks {
  import opened Text

  datatype Source = Local | YouTube

  /** One playable item: where it comes from, the path or watch URL it plays,
      the label the lists show and the precomputed search keys. */
  datatype Track = Track(
    source: Source,
    uri: string,
    caption: string,
    normName: string,
    normParent: string,
    squashedName: string,
    squashedParent: string)

  /** What both constructors guarantee about the keys: the normalised keys are
      search keys, and each squashed key is its normalised key without blanks. */
  predicate KeysConsistent(t: Track) {
    && SearchKey(t.normName) && SearchKey(t.normParent)
    && t.squashedName == SquashSpaces(t.normName)
    && t.squashedParent == SquashSpaces(t.normParent)
  }

  function MakeTrack(source: Source, uri: string, shown: string, name: string, parent: string): (t: Track)
    ensures t.source == source && t.uri == uri && t.caption == shown
    ensures KeysConsistent(t)
    ensures t.squashedName == KeepKeys(Lower(name)) && t.squashedParent == KeepKeys(Lower(parent))
    ensures t.normName == NormalizeForSearch(name) && t.normParent == NormalizeForSearch(parent)
  {
    var nn := NormalizeForSearch(name);
    var np := NormalizeForSearch(parent);
    NormalizeKeepsKeys(name);
    NormalizeKeepsKeys(parent);
    Track(source, uri, shown, nn, np, SquashSpaces(nn), SquashSpaces(np))
  }

  /** `Track.from_path`: the file's name, its parent directory, that directory
      relative to the working directory (the parent itself when it is not below
      it) and the whole path are given, as the path library computes them. */
  function FromPath(name: string, parent: string, relParent: string, path: string): (t: Track)
    ensures t.source == Local && t.uri == path && t.caption == Label(name, relParent)
    ensures KeysConsistent(t)
    ensures t.squashedName == KeepKeys(Lower(name)) && t.squashedParent == KeepKeys(Lower(parent))
  {
    MakeTrack(Local, path, Label(name, relParent), name, parent)
  }

  /** `Track.from_youtube`, for a watch URL already in canonical form. */
  function FromYoutube(title: string, watchUrl: string, playlistTitle: string): (t: Track)
    ensures t.source == YouTube && t.uri == watchUrl && t.caption == Label(title, playlistTitle)
    ensures KeysConsistent(t)
    ensures t.squashedName == KeepKeys(Lower(title)) && t.squashedParent == KeepKeys(Lower(playlistTitle))
  {
    MakeTrack(YouTube, watchUrl, Label(title, playlistTitle), title, playlistTitle)
  }

  /** The download pipeline's title for a remote track is the title it was fetched with. */
  lemma DownloadTitleOfRemoteTrack(title: string, watchUrl: string, playlistTitle: string)
    requires title != [] && Trimmed(title) && '[' !in title && '(' !in title
    ensures TitleFromLabel(FromYoutube(title, watchUrl, playlistTitle).caption) == title
  {
    TitleFromLabelRecoversTitle(title, playlistTitle);
  }

  // ---------- _apply_search ----------

  /** The test `_apply_search` keeps a track under. */
  predicate Matches(t: Track, qNorm: string, qSq: string) {
    || Contains(t.normName, qNorm) || Contains(t.normParent, qNorm)
    || Contains(t.squashedName, qSq) || Contains(t.squashedParent, qSq)
  }

  /** `a` is `b` with some elements left out, the rest in their order. */
  predicate IsSubsequence(a: seq<Track>, b: seq<Track>)
    decreases |b|
  {
    if a == [] then true
    else if b == [] then false
    else (a[0] == b[0] && IsSubsequence(a[1..], b[1..])) || IsSubsequence(a, b[1..])
  }

  /** The list comprehension of `_apply_search`. */
  function Filter(tracks: seq<Track>, qNorm: string, qSq: string): (r: seq<Track>)
    ensures forall t :: t in r <==> t in tracks && Matches(t, qNorm, qSq)
    ensures IsSubsequence(r, tracks)
  {
    if tracks == [] then []
    else if Matches(tracks[0], qNorm, qSq) then [tracks[0]] + Filter(tracks[1..], qNorm, qSq)
    else Filter(tracks[1..], qNorm, qSq)
  }

  /** `_apply_search(query)` over the library `tracks`: all of them for a blank
      query, otherwise those whose keys contain the normalised query. */
  function ApplySearch(query: string, tracks: seq<Track>): (r: seq<Track>)
    ensures Strip(query) == [] ==> r == tracks
    ensures IsSubsequence(r, tracks)
    ensures Strip(query) != [] ==> forall t :: t in r <==>
      t in tracks && Matches(t, NormalizeForSearch(Strip(query)), SquashSpaces(NormalizeForSearch(Strip(query))))
  {
    var raw := Strip(query);
    if raw == [] then
      SubsequenceOfItself(tracks);
      tracks
    else
      var qNorm := NormalizeForSearch(raw);
      Filter(tracks, qNorm, SquashSpaces(qNorm))
  }

  lemma {:induction false} SubsequenceOfItself(s: seq<Track>)
    ensures IsSubsequence(s, s)
  {
    if s != [] { SubsequenceOfItself(s[1..]); }
  }

  /** A query with no letter or digit in it (say "!!!") filters nothing out. */
  lemma QueryWithoutKeysKeepsAll(query: string, tracks: seq<Track>)
    requires NormalizeForSearch(Strip(query)) == []
    ensures ApplySearch(query, tracks) == tracks
  {
    if Strip(query) != [] {
      assert SquashSpaces([]) == [];
      FilterKeepsAllOnEmptyKey(tracks);
    }
  }

  lemma {:induction false} FilterKeepsAllOnEmptyKey(tracks: seq<Track>)
    ensures Filter(tracks, [], []) == tracks
  {
    if tracks != [] {
      assert Matches(tracks[0], [], []);
      FilterKeepsAllOnEmptyKey(tracks[1..]);
    }
  }
}
