/** The control flow of ytm_takeout_downloader.py's `main`: which tracks of
    which playlist files become download URLs, how the results of one
    playlist are gathered, the exit code, and the `.m3u8` file
    `write_m3u_for_playlist` writes. */
module TakeoutRun {
  import opened Common
  import opened Paths
  import opened Downloader
  import opened Dicts

  // ---------------------------------------------------------------------------
  // Playlist files and track resolution

  /** A track object of a playlist file: its "url" and "videoId" strings. */
  datatype TrackEntry = TrackEntry(url: Option<string>, videoId: Option<string>)

  /** An element of the "tracks" list: an object, or any other JSON value
      (a string, a number, a list, `null`), which has no `.get`. */
  datatype TrackElem = ObjectTrack(entry: TrackEntry) | NonObjectTrack

  /** The top-level JSON object of a file: "type", "name", and "tracks" when
      it is a list. */
  datatype JsonDoc = JsonDoc(kind: Option<string>, name: Option<string>, tracks: Option<seq<TrackElem>>)

  /** A file `find_json_playlists` returned: its stem, and its object when the
      file reads as JSON whose top level is an object. */
  datatype JsonFile = JsonFile(stem: string, parsed: Option<JsonDoc>)

  /** `load_playlist`: the object, when it says it is a playlist and has a
      track list. */
  function LoadPlaylist(f: JsonFile): (r: Option<JsonDoc>)
    ensures r.Some? <==> f.parsed.Some? && f.parsed.value.kind == Some(PlaylistKind) && f.parsed.value.tracks.Some?
    ensures r.Some? ==> r == f.parsed
  {
    match f.parsed
    case Some(doc) => if doc.kind == Some(PlaylistKind) && doc.tracks.Some? then Some(doc) else None
    case None => None
  }

  /** `pl.get("name") or jp.stem` */
  function PlaylistName(doc: JsonDoc, stem: string): (r: string)
    ensures Truthy(doc.name) ==> r == doc.name.value
    ensures !Truthy(doc.name) ==> r == stem
  {
    if Truthy(doc.name) then doc.name.value else stem
  }

  /** The URL a track contributes: its own "url" when set, otherwise the
      canonical watch URL of a "videoId" that is exactly an 11-character id. */
  function ResolveTrackUrl(t: TrackEntry): (r: Option<string>)
    ensures Truthy(t.url) ==> r == t.url
    ensures !Truthy(t.url) ==>
      (r.Some? <==> t.videoId.Some? && IsVideoId(t.videoId.value))
      && (r.Some? ==> r.value == WatchPrefix + t.videoId.value)
    ensures r.Some? ==> r.value != ""
  {
    if Truthy(t.url) then t.url
    else if Truthy(t.videoId) && IsVideoId(t.videoId.value) then Some(WatchPrefix + t.videoId.value)
    else None
  }

  /** A track resolved from its id alone is rewritten, under
      `--prefer-youtube-music`, to the music URL of the same id. */
  lemma ResolvedIdRewrite(t: TrackEntry)
    requires !Truthy(t.url) && ResolveTrackUrl(t).Some?
    ensures MaybeRewriteToYtMusic(ResolveTrackUrl(t).value, true) == MusicWatchPrefix + t.videoId.value
  {
    RewriteOfWatchUrl(t.videoId.value);
  }

  /** The URL an element contributes; a non-object contributes none (it
      raises instead, see `CollectUrls`). */
  function ElemUrl(x: TrackElem): Option<string> {
    match x
    case ObjectTrack(e) => ResolveTrackUrl(e)
    case NonObjectTrack => None
  }

  /** Some element of the track list is not an object. */
  predicate HasNonObject(tracks: seq<TrackElem>) {
    exists i :: 0 <= i < |tracks| && tracks[i].NonObjectTrack?
  }

  /** The `urls` loop of one playlist: `None` when `t.get("url")` raises
      `AttributeError` on an element that is not an object, else the URLs
      of the tracks that have one, in track order. */
  method CollectUrls(tracks: seq<TrackElem>) returns (urls: Option<seq<string>>)
    ensures urls.None? <==> HasNonObject(tracks)
    ensures urls.Some? ==> urls.value == FilterMap(tracks, ElemUrl)
  {
    var acc := [];
    var i := 0;
    while i < |tracks|
      invariant 0 <= i <= |tracks|
      invariant acc == FilterMap(tracks[..i], ElemUrl)
      invariant forall j :: 0 <= j < i ==> tracks[j].ObjectTrack?
    {
      if tracks[i].NonObjectTrack? {
        return None;
      }
      var url := ResolveTrackUrl(tracks[i].entry);
      FilterMapAppend(tracks[..i], [tracks[i]], ElemUrl);
      assert tracks[..i + 1] == tracks[..i] + [tracks[i]];
      if url.Some? {
        acc := acc + [url.value];
      }
      i := i + 1;
    }
    assert tracks[..i] == tracks;
    return Some(acc);
  }

  /** Every collected URL comes from a track object of the playlist, and no
      track is dropped exactly when every element is an object with a URL or
      a valid id. */
  lemma CollectedUrls(tracks: seq<TrackElem>)
    ensures forall u :: u in FilterMap(tracks, ElemUrl) <==>
      exists i :: 0 <= i < |tracks| && tracks[i].ObjectTrack? && ResolveTrackUrl(tracks[i].entry) == Some(u)
    ensures |FilterMap(tracks, ElemUrl)| == |tracks| <==>
      forall i :: 0 <= i < |tracks| ==> tracks[i].ObjectTrack? && ResolveTrackUrl(tracks[i].entry).Some?
  {
    forall u ensures u in FilterMap(tracks, ElemUrl) <==>
      exists i :: 0 <= i < |tracks| && tracks[i].ObjectTrack? && ResolveTrackUrl(tracks[i].entry) == Some(u)
    {
      FilterMapMembers(tracks, ElemUrl, u);
    }
    FilterMapLength(tracks, ElemUrl);
  }

  /** The playlist a file contributes: its name and URLs, or nothing when it
      is not a playlist or none of its tracks resolves. */
  function PlaylistOf(f: JsonFile): (r: Option<(string, seq<string>)>)
    ensures r.Some? ==> r.value.1 != []
  {
    match LoadPlaylist(f)
    case None => None
    case Some(doc) =>
      var urls := FilterMap(doc.tracks.value, ElemUrl);
      if urls == [] then None else Some((PlaylistName(doc, f.stem), urls))
  }

  // ---------------------------------------------------------------------------
  // The `playlists` dict: keys in first-insertion order, the last value wins

  function DictKeys(es: seq<(string, seq<string>)>): seq<string>
    decreases |es|
  {
    if es == [] then [] else
      var ks := DictKeys(es[..|es| - 1]);
      if es[|es| - 1].0 in ks then ks else ks + [es[|es| - 1].0]
  }

  function DictMap(es: seq<(string, seq<string>)>): map<string, seq<string>>
    decreases |es|
  {
    if es == [] then map[] else DictMap(es[..|es| - 1])[es[|es| - 1].0 := es[|es| - 1].1]
  }

  /** The dict's keys are distinct names, exactly the names inserted, and
      exactly the keys of the map. */
  lemma {:induction false} DictKeysExact(es: seq<(string, seq<string>)>)
    ensures Distinct(DictKeys(es))
    ensures forall k :: k in DictKeys(es) <==> k in DictMap(es)
    ensures forall k :: k in DictMap(es) <==> exists i :: 0 <= i < |es| && es[i].0 == k
    decreases |es|
  {
    if es != [] {
      var init := es[..|es| - 1];
      DictKeysExact(init);
      forall k ensures k in DictMap(es) <==> exists i :: 0 <= i < |es| && es[i].0 == k {
        if k in DictMap(init) {
          var i :| 0 <= i < |init| && init[i].0 == k;
          assert es[i] == init[i];
        }
        if exists i :: 0 <= i < |es| && es[i].0 == k {
          var i :| 0 <= i < |es| && es[i].0 == k;
          if i < |es| - 1 { assert init[i] == es[i]; }
        }
      }
    }
  }

  /** Reassigning a name keeps the value of its last assignment. */
  lemma {:induction false} DictLastWins(es: seq<(string, seq<string>)>, i: nat)
    requires i < |es|
    requires forall j :: i < j < |es| ==> es[j].0 != es[i].0
    ensures es[i].0 in DictMap(es) && DictMap(es)[es[i].0] == es[i].1
    decreases |es|
  {
    if i < |es| - 1 {
      var init := es[..|es| - 1];
      assert init[i] == es[i];
      DictLastWins(init, i);
    }
  }

  /** Once a name is a key, later assignments never move it. */
  lemma {:induction false} DictKeysStable(es: seq<(string, seq<string>)>, more: seq<(string, seq<string>)>)
    ensures DictKeys(es) <= DictKeys(es + more)
    decreases |more|
  {
    if more == [] {
      assert es + more == es;
    } else {
      var init := es + more[..|more| - 1];
      assert (es + more)[..|es + more| - 1] == init;
      DictKeysStable(es, more[..|more| - 1]);
      assert DictKeys(init) <= DictKeys(es + more);
    }
  }

  /** One assignment `playlists[name] = urls`. */
  lemma DictAssign(es: seq<(string, seq<string>)>, name: string, urls: seq<string>)
    ensures DictKeys(es + [(name, urls)]) == if name in DictKeys(es) then DictKeys(es) else DictKeys(es) + [name]
    ensures DictMap(es + [(name, urls)]) == DictMap(es)[name := urls]
  {
    assert (es + [(name, urls)])[..|es|] == es;
  }

  /** What one file adds to the entries. */
  lemma PlaylistStep(files: seq<JsonFile>, i: nat)
    requires i < |files|
    ensures FilterMap(files[..i + 1], PlaylistOf) ==
      FilterMap(files[..i], PlaylistOf) + (match PlaylistOf(files[i]) case Some(e) => [e] case None => [])
  {
    FilterMapAppend(files[..i], [files[i]], PlaylistOf);
    assert files[..i + 1] == files[..i] + [files[i]];
  }

  /** The file is a playlist whose track list holds a non-object, so the
      `urls` loop raises on it. */
  predicate Raises(f: JsonFile) {
    LoadPlaylist(f).Some? && HasNonObject(LoadPlaylist(f).value.tracks.value)
  }

  /** The body of the `playlists` loop for one file: whether it raises,
      else the name and URLs it stores, if any. */
  method PlaylistOfFile(f: JsonFile) returns (entry: Option<(string, seq<string>)>, raises: bool)
    ensures raises <==> Raises(f)
    ensures !raises ==> entry == PlaylistOf(f)
  {
    var pl := LoadPlaylist(f);
    if pl.None? {
      return None, false;
    }
    var name := PlaylistName(pl.value, f.stem);
    var collected := CollectUrls(pl.value.tracks.value);
    if collected.None? {
      return None, true;
    }
    var urls := collected.value;
    if urls == [] {
      return None, false;
    }
    return Some((name, urls)), false;
  }

  predicate AnyRaises(files: seq<JsonFile>) {
    exists i :: 0 <= i < |files| && Raises(files[i])
  }

  /** The `playlists` loop over the files: `raised` when some playlist has
      a track that is not an object (the exception leaves `main`), else the
      dict the loop fills. */
  method CollectPlaylists(files: seq<JsonFile>) returns (names: seq<string>, lists: map<string, seq<string>>, raised: bool)
    ensures raised <==> AnyRaises(files)
    ensures !raised ==> names == DictKeys(FilterMap(files, PlaylistOf))
    ensures !raised ==> lists == DictMap(FilterMap(files, PlaylistOf))
  {
    names, lists, raised := [], map[], false;
    var i := 0;
    while i < |files|
      invariant 0 <= i <= |files|
      invariant names == DictKeys(FilterMap(files[..i], PlaylistOf))
      invariant lists == DictMap(FilterMap(files[..i], PlaylistOf))
      invariant !AnyRaises(files[..i])
    {
      var entry, raises := PlaylistOfFile(files[i]);
      if raises {
        assert AnyRaises(files) by {
          assert Raises(files[i]);
        }
        return names, lists, true;
      }
      NoRaiseExtend(files, i);
      ghost var es := FilterMap(files[..i], PlaylistOf);
      PlaylistStep(files, i);
      if entry.Some? {
        var (name, urls) := entry.value;
        DictAssign(es, name, urls);
        if name !in names {
          names := names + [name];
        }
        lists := lists[name := urls];
      } else {
        assert es + [] == es;
      }
      i := i + 1;
    }
    assert files[..i] == files;
  }

  /** A file that does not raise after a prefix of such files extends it. */
  lemma NoRaiseExtend(files: seq<JsonFile>, i: int)
    requires 0 <= i < |files| && !AnyRaises(files[..i]) && !Raises(files[i])
    ensures !AnyRaises(files[..i + 1])
  {
    var p := files[..i + 1];
    forall j | 0 <= j < |p| ensures !Raises(p[j]) {
      if j < i {
        assert p[j] == files[..i][j];
      }
    }
  }

  /** Every playlist in the dict has at least one URL. */
  lemma {:induction false} PlaylistsNonEmpty(files: seq<JsonFile>)
    ensures forall k :: k in DictMap(FilterMap(files, PlaylistOf)) ==> DictMap(FilterMap(files, PlaylistOf))[k] != []
  {
    var es := FilterMap(files, PlaylistOf);
    forall k | k in DictMap(es) ensures DictMap(es)[k] != [] {
      DictValueFrom(es, k);
      var i :| 0 <= i < |es| && es[i] == (k, DictMap(es)[k]);
      FilterMapMembers(files, PlaylistOf, es[i]);
    }
  }

  lemma {:induction false} DictValueFrom(es: seq<(string, seq<string>)>, k: string)
    requires k in DictMap(es)
    ensures exists i :: 0 <= i < |es| && es[i] == (k, DictMap(es)[k])
    decreases |es|
  {
    var init := es[..|es| - 1];
    if es[|es| - 1].0 != k {
      DictValueFrom(init, k);
      var i :| 0 <= i < |init| && init[i] == (k, DictMap(init)[k]);
      assert es[i] == init[i];
    }
  }

  // ---------------------------------------------------------------------------
  // The completion loop of one playlist

  /** The file an outcome adds to `playlist_files`. */
  function FileOf(o: TrackOutcome): (r: Option<Path>)
    ensures r.Some? <==> o.ok && o.path.Some?
    ensures r.Some? ==> r == o.path
  {
    if o.ok && o.path.Some? then o.path else None
  }

  /** The URL an outcome adds to `failures`. */
  function FailureOf(o: TrackOutcome): (r: Option<string>)
    ensures r.Some? <==> !o.ok
    ensures r.Some? ==> r.value == o.url
  {
    if o.ok then None else Some(o.url)
  }

  /** The `for f in iterator` loop, over outcomes in completion order. */
  method AggregateOutcomes(outcomes: seq<TrackOutcome>) returns (files: seq<Path>, failures: seq<string>)
    ensures files == FilterMap(outcomes, FileOf)
    ensures failures == FilterMap(outcomes, FailureOf)
  {
    files, failures := [], [];
    var i := 0;
    while i < |outcomes|
      invariant 0 <= i <= |outcomes|
      invariant files == FilterMap(outcomes[..i], FileOf)
      invariant failures == FilterMap(outcomes[..i], FailureOf)
    {
      var o := outcomes[i];
      FilterMapAppend(outcomes[..i], [o], FileOf);
      FilterMapAppend(outcomes[..i], [o], FailureOf);
      assert outcomes[..i + 1] == outcomes[..i] + [o];
      if o.ok {
        if o.path.Some? {
          files := files + [o.path.value];
        }
      } else {
        failures := failures + [o.url];
      }
      i := i + 1;
    }
    assert outcomes[..i] == outcomes;
  }

  /** No outcome lands in both lists: files and failures together are at
      most the outcomes. */
  lemma {:induction false} AggregateBound(outcomes: seq<TrackOutcome>)
    ensures |FilterMap(outcomes, FileOf)| + |FilterMap(outcomes, FailureOf)| <= |outcomes|
  {
    if outcomes != [] {
      AggregateBound(outcomes[1..]);
    }
  }

  /** A playlist has no failures exactly when every download succeeded. */
  lemma NoFailuresIff(outcomes: seq<TrackOutcome>)
    ensures FilterMap(outcomes, FailureOf) == [] <==> forall i :: 0 <= i < |outcomes| ==> outcomes[i].ok
  {
    forall u ensures u in FilterMap(outcomes, FailureOf) <==> exists i :: 0 <= i < |outcomes| && FailureOf(outcomes[i]) == Some(u) {
      FilterMapMembers(outcomes, FailureOf, u);
    }
    if FilterMap(outcomes, FailureOf) != [] {
      assert FilterMap(outcomes, FailureOf)[0] in FilterMap(outcomes, FailureOf);
    }
    if exists i :: 0 <= i < |outcomes| && !outcomes[i].ok {
      var i :| 0 <= i < |outcomes| && !outcomes[i].ok;
      assert FailureOf(outcomes[i]) == Some(outcomes[i].url);
    }
  }

  /** The order in which downloads complete does not change which files and
      which failures are collected, only their order. */
  lemma CompletionOrderFree(a: seq<TrackOutcome>, b: seq<TrackOutcome>)
    requires multiset(a) == multiset(b)
    ensures multiset(FilterMap(a, FileOf)) == multiset(FilterMap(b, FileOf))
    ensures multiset(FilterMap(a, FailureOf)) == multiset(FilterMap(b, FailureOf))
  {
    FilterMapPermutation(a, b, FileOf);
    FilterMapPermutation(a, b, FailureOf);
  }

  // ---------------------------------------------------------------------------
  // write_m3u_for_playlist

  /** A character the name sanitiser replaces by '_': backslash, slash,
      star, question mark, colon, double quote, angle brackets, bar. */
  predicate IsUnsafeChar(c: char) {
    c == '\\' || c == '/' || c == '*' || c == '?' || c == ':' || c == '"' || c == '<' || c == '>' || c == '|'
  }

  /** The playlist name made safe for a file name. */
  function SafeName(name: string): (r: string)
    ensures |r| == |name|
    ensures forall i :: 0 <= i < |r| ==> !IsUnsafeChar(r[i])
    ensures forall i :: 0 <= i < |r| ==> r[i] == (if IsUnsafeChar(name[i]) then '_' else name[i])
  {
    seq(|name|, i requires 0 <= i < |name| => if IsUnsafeChar(name[i]) then '_' else name[i])
  }

  /** The playlist file is `<root>` / `_playlists` / `<safe name>.m3u8`, whatever the
      name: the sanitised name cannot escape the directory. */
  lemma M3uPathShape(root: Path, name: string)
    ensures JoinPath(JoinPath(root, "_playlists"), SafeName(name) + ".m3u8")
      == Path(root.anchor, root.parts + ["_playlists", SafeName(name) + ".m3u8"])
  {
    SafeFileName(name);
    JoinTwo(root, "_playlists", SafeName(name) + ".m3u8");
  }

  /** The sanitised file name is one path part: not empty, not ".", no '/'. */
  lemma SafeFileName(name: string)
    ensures ValidPart(SafeName(name) + ".m3u8")
  {
    var file := SafeName(name) + ".m3u8";
    assert file[|file| - 1] == '8';
    forall i | 0 <= i < |file| ensures file[i] != '/' {
      if i < |SafeName(name)| { assert file[i] == SafeName(name)[i]; }
    }
  }

  /** The sort key: `p.name.lower()`. */
  function SortKey(p: Path): string {
    Lower(Name(p))
  }

  predicate SortedByKey(s: seq<Path>) {
    forall i, j :: 0 <= i < j < |s| ==> LessEq(SortKey(s[i]), SortKey(s[j]))
  }

  /** Insert after every element whose key is not greater. */
  function InsertByKey(x: Path, s: seq<Path>): (r: seq<Path>)
    ensures multiset(r) == multiset(s) + multiset{x}
  {
    if s == [] then [x]
    else if LessEq(SortKey(s[0]), SortKey(x)) then
      assert s == [s[0]] + s[1..];
      [s[0]] + InsertByKey(x, s[1..])
    else [x] + s
  }

  /** `sorted(files, key=lambda p: p.name.lower())`, as a stable insertion sort. */
  function SortByKey(s: seq<Path>): (r: seq<Path>)
    ensures multiset(r) == multiset(s)
  {
    if s == [] then [] else
      assert s == s[..|s| - 1] + [s[|s| - 1]];
      InsertByKey(s[|s| - 1], SortByKey(s[..|s| - 1]))
  }

  /** Every element of an insertion is the inserted one or an old one. */
  lemma InsertMember(x: Path, s: seq<Path>, y: Path)
    requires y in InsertByKey(x, s)
    ensures y == x || y in s
  {
    assert y in multiset(InsertByKey(x, s));
  }

  /** A sorted sequence stays sorted when an element no greater than all
      of it goes in front. */
  lemma ConsSorted(y: Path, rest: seq<Path>)
    requires SortedByKey(rest)
    requires forall z :: z in rest ==> LessEq(SortKey(y), SortKey(z))
    ensures SortedByKey([y] + rest)
  {
    var r := [y] + rest;
    forall i, j | 0 <= i < j < |r| ensures LessEq(SortKey(r[i]), SortKey(r[j])) {
      assert r[j] == rest[j - 1];
      if i > 0 { assert r[i] == rest[i - 1]; } else { assert rest[j - 1] in rest; }
    }
  }

  lemma {:induction false} InsertKeepsSorted(x: Path, s: seq<Path>)
    requires SortedByKey(s)
    ensures SortedByKey(InsertByKey(x, s))
  {
    if s != [] {
      if LessEq(SortKey(s[0]), SortKey(x)) {
        var rest := InsertByKey(x, s[1..]);
        InsertKeepsSorted(x, s[1..]);
        forall y | y in rest ensures LessEq(SortKey(s[0]), SortKey(y)) {
          InsertMember(x, s[1..], y);
          if y != x {
            var j :| 0 <= j < |s[1..]| && s[1..][j] == y;
            assert s[j + 1] == y;
          }
        }
        ConsSorted(s[0], rest);
      } else {
        LessEqTotal(SortKey(s[0]), SortKey(x));
        forall z | z in s ensures LessEq(SortKey(x), SortKey(z)) {
          var j :| 0 <= j < |s| && s[j] == z;
          if j > 0 { LessEqTransitive(SortKey(x), SortKey(s[0]), SortKey(s[j])); }
        }
        ConsSorted(x, s);
      }
    }
  }

  /** The M3U order: a permutation of the files, non-decreasing in the
      lowercased file name. */
  lemma {:induction false} SortByKeySorted(s: seq<Path>)
    ensures SortedByKey(SortByKey(s)) && multiset(SortByKey(s)) == multiset(s)
    decreases |s|
  {
    if s != [] {
      SortByKeySorted(s[..|s| - 1]);
      InsertKeepsSorted(s[|s| - 1], SortByKey(s[..|s| - 1]));
    }
  }

  /** The line written for a file: its path relative to the library root,
      backslashes turned into slashes. */
  function M3uLine(rel: Path): (r: string)
    ensures '\\' !in r
  {
    ReplaceChar(PathString(rel), '\\', '/')
  }

  /** How many leading files lie under the root; `relative_to` raises at
      the first that does not, which ends the writing. */
  function UnderRootPrefix(root: Path, files: seq<Path>): (n: nat)
    ensures n <= |files|
    ensures forall i :: 0 <= i < n ==> RelativeTo(files[i], root).Some?
    ensures n < |files| ==> RelativeTo(files[n], root).None?
  {
    if files == [] || RelativeTo(files[0], root).None? then 0
    else 1 + UnderRootPrefix(root, files[1..])
  }

  /** The first file outside the root is where `UnderRootPrefix` stops. */
  lemma PrefixAt(root: Path, files: seq<Path>, i: nat)
    requires i <= |files|
    requires forall k :: 0 <= k < i ==> RelativeTo(files[k], root).Some?
    requires i == |files| || RelativeTo(files[i], root).None?
    ensures UnderRootPrefix(root, files) == i
  {
    var n := UnderRootPrefix(root, files);
    assert !(i < n) && !(n < i);
  }

  /** `UnderRootPrefix` reaches the end exactly when every file is under the root. */
  lemma PrefixAll(root: Path, files: seq<Path>)
    ensures UnderRootPrefix(root, files) == |files| <==> forall p :: p in files ==> RelativeTo(p, root).Some?
  {
    var n := UnderRootPrefix(root, files);
    if n < |files| { assert files[n] in files; }
  }

  /** The text of the playlist file, one line per element, and whether it
      was written to the end. */
  function M3uContent(root: Path, files: seq<Path>): (lines: seq<string>)
  {
    var n := UnderRootPrefix(root, files);
    ["#EXTM3U"] + seq(n, i requires 0 <= i < n => M3uLine(RelativeTo(files[i], root).value))
  }

  /** The playlist file: where it goes, its lines, and whether every line
      was written. */
  datatype M3uFile = M3uFile(path: Path, lines: seq<string>, complete: bool)

  /** The writing loop: the header line, then one line per file, stopping at
      the first file outside the root. */
  method WriteM3uLines(root: Path, files: seq<Path>) returns (lines: seq<string>, complete: bool)
    ensures lines == M3uContent(root, files)
    ensures complete <==> UnderRootPrefix(root, files) == |files|
  {
    lines := ["#EXTM3U"];
    complete := true;
    var i := 0;
    while i < |files|
      invariant 0 <= i <= |files|
      invariant |lines| == i + 1 && lines[0] == "#EXTM3U"
      invariant forall k :: 0 <= k < i ==> RelativeTo(files[k], root).Some? && lines[k + 1] == M3uLine(RelativeTo(files[k], root).value)
    {
      var rel := RelativeTo(files[i], root);
      if rel.None? {
        complete := false;
        break;
      }
      lines := lines + [M3uLine(rel.value)];
      i := i + 1;
    }
    PrefixAt(root, files, i);
    ContentOfLines(root, files, lines, i);
    assert complete <==> i == |files|;
  }

  /** Lines holding the header and the line of each of the first `n` files
      are the content of the playlist when `n` files lie under the root. */
  lemma ContentOfLines(root: Path, files: seq<Path>, lines: seq<string>, n: nat)
    requires n == UnderRootPrefix(root, files)
    requires |lines| == n + 1 && lines[0] == "#EXTM3U"
    requires forall k :: 0 <= k < n ==> lines[k + 1] == M3uLine(RelativeTo(files[k], root).value)
    ensures lines == M3uContent(root, files)
  {
    var c := M3uContent(root, files);
    assert |c| == n + 1;
    forall k | 0 <= k < |c| ensures c[k] == lines[k] {
      if k > 0 { assert c[k] == M3uLine(RelativeTo(files[k - 1], root).value); }
    }
  }

  /** The playlist file `write_m3u_for_playlist` produces. */
  function M3uOf(root: Path, name: string, files: seq<Path>): M3uFile {
    var sorted := SortByKey(files);
    M3uFile(JoinPath(JoinPath(root, "_playlists"), SafeName(name) + ".m3u8"),
      M3uContent(root, sorted), UnderRootPrefix(root, sorted) == |sorted|)
  }

  /** `write_m3u_for_playlist(library_root, playlist_name, files)` */
  method WriteM3u(root: Path, name: string, files: seq<Path>) returns (m: M3uFile)
    ensures m == M3uOf(root, name, files)
    ensures m.complete <==> forall i :: 0 <= i < |files| ==> RelativeTo(files[i], root).Some?
  {
    var plDir := JoinPath(root, "_playlists");
    var safe := SafeName(name);
    var path := JoinPath(plDir, safe + ".m3u8");
    var sorted := SortByKey(files);
    var lines, complete := WriteM3uLines(root, sorted);
    m := M3uFile(path, lines, complete);
    assert m == M3uOf(root, name, files);
    SortedUnderRoot(root, files);
  }

  /** Sorting does not change whether every file lies under the root. */
  lemma SortedUnderRoot(root: Path, files: seq<Path>)
    ensures |SortByKey(files)| == |files|
    ensures UnderRootPrefix(root, SortByKey(files)) == |SortByKey(files)| <==> forall i :: 0 <= i < |files| ==> RelativeTo(files[i], root).Some?
  {
    var s := SortByKey(files);
    SortByKeySorted(files);
    assert |s| == |files| by { assert |multiset(s)| == |multiset(files)|; }
    assert forall p :: p in s <==> p in files by {
      forall p ensures p in s <==> p in files {
        assert p in s <==> p in multiset(s);
        assert p in files <==> p in multiset(files);
      }
    }
    PrefixAll(root, s);
  }

  /** The lines for files in a given order: the header, then one line per
      leading file under the root, none with a backslash. */
  lemma M3uLinesShape(root: Path, s: seq<Path>)
    ensures var lines := M3uContent(root, s);
      && lines[0] == "#EXTM3U"
      && |lines| == UnderRootPrefix(root, s) + 1
      && (forall i :: 1 <= i < |lines| ==>
            ('\\' !in lines[i] && lines[i] == M3uLine(RelativeTo(s[i - 1], root).value)))
  {
  }

  /** The playlist file starts with `#EXTM3U`, then one line per file in
      non-decreasing lowercased-name order, none with a backslash; when every
      file lies under the root there is exactly one line per file. */
  lemma M3uShape(root: Path, name: string, files: seq<Path>)
    ensures var s := SortByKey(files); var lines := M3uContent(root, s);
      && lines[0] == "#EXTM3U"
      && |lines| <= |files| + 1
      && (forall i :: 1 <= i < |lines| ==>
            ('\\' !in lines[i] && lines[i] == M3uLine(RelativeTo(s[i - 1], root).value)))
      && SortedByKey(s) && multiset(s) == multiset(files)
      && ((forall i :: 0 <= i < |files| ==> RelativeTo(files[i], root).Some?) ==> |lines| == |files| + 1)
  {
    SortByKeySorted(files);
    SortedUnderRoot(root, files);
    M3uLinesShape(root, SortByKey(files));
  }

  // ---------------------------------------------------------------------------
  // main

  /** The outcomes of a playlist's downloads, in submission order;
      `download` gives `download_track`'s result for a URL. */
  function Outcomes(urls: seq<string>, download: string -> TrackOutcome): (r: seq<TrackOutcome>)
    ensures |r| == |urls| && forall i :: 0 <= i < |urls| ==> r[i] == download(urls[i])
  {
    seq(|urls|, i requires 0 <= i < |urls| => download(urls[i]))
  }

  /** The URLs of playlist `name`, none when it is not a key. */
  function UrlsOf(lists: map<string, seq<string>>, name: string): seq<string> {
    if name in lists then lists[name] else []
  }

  /** The `failures` list after the playlists `names`. */
  function RunFailures(names: seq<string>, lists: map<string, seq<string>>, download: string -> TrackOutcome): seq<string>
    decreases |names|
  {
    if names == [] then [] else
      var last := names[|names| - 1];
      RunFailures(names[..|names| - 1], lists, download) + FilterMap(Outcomes(UrlsOf(lists, last), download), FailureOf)
  }

  /** The playlist files written after the playlists `names`. */
  function RunM3us(names: seq<string>, lists: map<string, seq<string>>, outRoot: Path,
                   download: string -> TrackOutcome, writeM3u: bool): seq<M3uFile>
    decreases |names|
  {
    if names == [] then [] else
      var last := names[|names| - 1];
      var files := FilterMap(Outcomes(UrlsOf(lists, last), download), FileOf);
      RunM3us(names[..|names| - 1], lists, outRoot, download, writeM3u)
        + (if writeM3u && files != [] then [M3uOf(outRoot, last, files)] else [])
  }

  /** Within one playlist: a URL is among its failures exactly when the
      playlist lists it and its download is not ok. */
  lemma PlaylistFailures(us: seq<string>, download: string -> TrackOutcome, u: string)
    requires forall v :: download(v).url == v
    ensures u in FilterMap(Outcomes(us, download), FailureOf) <==> u in us && !download(u).ok
  {
    var os := Outcomes(us, download);
    FilterMapMembers(os, FailureOf, u);
    if exists j :: 0 <= j < |os| && FailureOf(os[j]) == Some(u) {
      var j :| 0 <= j < |os| && FailureOf(os[j]) == Some(u);
      assert us[j] == u;
    }
    if u in us && !download(u).ok {
      var j :| 0 <= j < |us| && us[j] == u;
      assert FailureOf(os[j]) == Some(u);
    }
  }

  /** Playlist `name` lists `u` and its download is not ok. */
  predicate FailsIn(lists: map<string, seq<string>>, name: string, download: string -> TrackOutcome, u: string) {
    u in UrlsOf(lists, name) && !download(u).ok
  }

  lemma ExistsSplitLast(names: seq<string>, init: seq<string>, lists: map<string, seq<string>>,
                         download: string -> TrackOutcome, u: string)
    requires names != [] && init == names[..|names| - 1]
    ensures (exists i :: 0 <= i < |names| && FailsIn(lists, names[i], download, u)) <==>
      (exists i :: 0 <= i < |init| && FailsIn(lists, init[i], download, u))
      || FailsIn(lists, names[|names| - 1], download, u)
  {
    ExistsSnoc(names, init, (n: string) => FailsIn(lists, n, download, u));
  }

  /** A URL is reported as failed exactly when one of the playlists lists it
      and its download is not ok. */
  lemma {:induction false} RunFailuresExact(names: seq<string>, lists: map<string, seq<string>>,
                                            download: string -> TrackOutcome, u: string)
    requires forall v :: download(v).url == v
    ensures u in RunFailures(names, lists, download) <==>
      exists i :: 0 <= i < |names| && FailsIn(lists, names[i], download, u)
    decreases |names|
  {
    if names != [] {
      RunFailuresExact(names[..|names| - 1], lists, download, u);
      PlaylistFailures(UrlsOf(lists, names[|names| - 1]), download, u);
      ExistsSplitLast(names, names[..|names| - 1], lists, download, u);
    }
  }

  /** With `download_track` itself as `download`: a URL is reported as failed
      exactly when a playlist lists it and yt-dlp exits non-zero on it. */
  lemma RunFailuresOfYtdlp(names: seq<string>, lists: map<string, seq<string>>, outRoot: Path, cfg: DownloadConfig,
                           run: seq<string> -> ProcessResult, u: string)
    ensures var download := (v: string) => DownloadOutcome(v, outRoot, cfg, run);
      u in RunFailures(names, lists, download) <==>
      (exists i :: 0 <= i < |names| && u in UrlsOf(lists, names[i]))
      && RunCmd(run(YtdlpCommand(u, OutputTemplate(outRoot), cfg))).0 != 0
  {
    var download := (v: string) => DownloadOutcome(v, outRoot, cfg, run);
    RunFailuresExact(names, lists, download, u);
  }

  /** What `main` returns and reports: the exit code, the failed URLs in the
      order they were reported, and the playlist files written. */
  datatype RunReport = RunReport(exitCode: int, failures: seq<string>, m3us: seq<M3uFile>)

  /** `main` after argument parsing. `pathExists` says whether the takeout
      path exists, `files` are the JSON files found under it, and `download`
      gives `download_track`'s result for a URL under the run's settings. A
      playlist with a track that is not an object ends the run before any
      download with the uncaught exception's exit status, 1. */
  method RunTakeout(pathExists: bool, files: seq<JsonFile>, outRoot: Path, writeM3u: bool,
                    download: string -> TrackOutcome) returns (report: RunReport)
    ensures !pathExists ==> report == RunReport(2, [], [])
    ensures pathExists && files == [] ==> report == RunReport(1, [], [])
    ensures pathExists && files != [] && AnyRaises(files) ==> report == RunReport(1, [], [])
    ensures pathExists && files != [] && !AnyRaises(files) && DictKeys(FilterMap(files, PlaylistOf)) == [] ==>
      report == RunReport(1, [], [])
    ensures pathExists && files != [] && !AnyRaises(files) && DictKeys(FilterMap(files, PlaylistOf)) != [] ==>
      var es := FilterMap(files, PlaylistOf);
      && report.failures == RunFailures(DictKeys(es), DictMap(es), download)
      && report.m3us == RunM3us(DictKeys(es), DictMap(es), outRoot, download, writeM3u)
      && report.exitCode == (if report.failures == [] then 0 else 1)
  {
    if !pathExists {
      return RunReport(2, [], []);
    }
    if files == [] {
      return RunReport(1, [], []);
    }
    var names, lists, raised := CollectPlaylists(files);
    if raised || names == [] {
      return RunReport(1, [], []);
    }
    var failures, m3us := RunPlaylists(names, lists, outRoot, writeM3u, download);
    report := RunReport(if failures == [] then 0 else 1, failures, m3us);
  }

  /** The loop of `main` over the playlists: download each playlist's
      tracks, collect the failures and write the playlist files. */
  method RunPlaylists(names: seq<string>, lists: map<string, seq<string>>, outRoot: Path, writeM3u: bool,
                      download: string -> TrackOutcome) returns (failures: seq<string>, m3us: seq<M3uFile>)
    ensures failures == RunFailures(names, lists, download)
    ensures m3us == RunM3us(names, lists, outRoot, download, writeM3u)
  {
    failures := [];
    m3us := [];
    var k := 0;
    while k < |names|
      invariant 0 <= k <= |names|
      invariant failures == RunFailures(names[..k], lists, download)
      invariant m3us == RunM3us(names[..k], lists, outRoot, download, writeM3u)
    {
      assert names[..k + 1][..k] == names[..k];
      var failed, written := RunPlaylist(names[k], UrlsOf(lists, names[k]), outRoot, writeM3u, download);
      failures := failures + failed;
      m3us := m3us + written;
      k := k + 1;
    }
    assert names[..k] == names;
  }

  /** The body of the playlist loop: download the URLs, report the failed
      ones, and write the playlist file when asked and a file was kept. */
  method RunPlaylist(name: string, urls: seq<string>, outRoot: Path, writeM3u: bool,
                     download: string -> TrackOutcome) returns (failed: seq<string>, written: seq<M3uFile>)
    ensures failed == FilterMap(Outcomes(urls, download), FailureOf)
    ensures var files := FilterMap(Outcomes(urls, download), FileOf);
      written == if writeM3u && files != [] then [M3uOf(outRoot, name, files)] else []
  {
    var outcomes := Outcomes(urls, download);
    var playlistFiles;
    playlistFiles, failed := AggregateOutcomes(outcomes);
    written := [];
    if writeM3u && playlistFiles != [] {
      var m := WriteM3u(outRoot, name, playlistFiles);
      written := [m];
    }
  }

  /** No failures exactly when every listed URL downloads ok, so the exit
      code of a run with playlists is 0 exactly then. */
  lemma ExitZeroIff(names: seq<string>, lists: map<string, seq<string>>, download: string -> TrackOutcome)
    requires forall v :: download(v).url == v
    ensures RunFailures(names, lists, download) == [] <==>
      forall i, u :: 0 <= i < |names| && u in UrlsOf(lists, names[i]) ==> download(u).ok
  {
    var fs := RunFailures(names, lists, download);
    if fs != [] {
      RunFailuresExact(names, lists, download, fs[0]);
    }
    forall i, u | 0 <= i < |names| && u in UrlsOf(lists, names[i]) && !download(u).ok
      ensures fs != []
    {
      RunFailuresExact(names, lists, download, u);
    }
  }
}
