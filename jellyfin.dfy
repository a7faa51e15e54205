/** The Jellyfin liker: finds the YouTube ids of a music library (or of a
    playlist file) and marks the matching Jellyfin audio items as favourites.
    The four HTTP calls are inputs: what `/Users/Me` and the audio-item listing
    returned, and functions standing for the item search and the favourite
    request. The liker's own loops are methods proved against the functions
    below, and they also return the requests they issue, in order. */
module Jellyfin {
  import opened Common
  import opened Paths
  import opened Dicts

  // ---------------------------------------------------------------------------
  // Ids in file names: `\[([A-Za-z0-9_-]{11})\]\.[^.]+$`

  /** Position of the last `c` in `s`. */
  function LastIndexOf(s: string, c: char): (r: Option<nat>)
    ensures r.Some? ==> r.value < |s| && s[r.value] == c
    ensures r.Some? ==> forall k :: r.value < k < |s| ==> s[k] != c
    ensures r.None? ==> forall k :: 0 <= k < |s| ==> s[k] != c
  {
    if s == [] then None
    else if s[|s| - 1] == c then Some(|s| - 1)
    else LastIndexOf(s[..|s| - 1], c)
  }

  /** The file-name pattern matches at `j`: `[`, eleven id characters, `]`,
      a dot, and a non-empty extension without dots up to the end. A trailing
      newline, which `$` may also stand before, is not a dot, so it changes
      nothing. */
  predicate FilenameMatchAt(s: string, j: nat) {
    j + 15 <= |s| && s[j] == '[' && IsVideoId(s[j + 1..j + 12]) && s[j + 12] == ']' && s[j + 13] == '.'
    && forall k :: j + 14 <= k < |s| ==> s[k] != '.'
  }

  /** The pattern can only match where its dot is the last dot of the name. */
  function FilenameId(name: string): (r: Option<string>)
    ensures r.Some? <==> exists j :: FilenameMatchAt(name, j)
    ensures forall j :: FilenameMatchAt(name, j) ==> r == Some(name[j + 1..j + 12])
    ensures r.Some? ==> IsVideoId(r.value)
  {
    match LastIndexOf(name, '.')
    case None => None
    case Some(d) =>
      if 13 <= d && FilenameMatchAt(name, d - 13) then Some(name[d - 12..d - 1]) else None
  }

  /** `extract_video_id(p)`: the pattern searched in `p.name`. */
  function ExtractVideoId(p: Path): (r: Option<string>)
    ensures r.Some? <==> exists j :: FilenameMatchAt(Name(p), j)
    ensures r.Some? ==> IsVideoId(r.value)
  {
    FilenameId(Name(p))
  }

  // ---------------------------------------------------------------------------
  // Scanning the library: the first file seen for an id is kept

  /** What the recursive glob yields: a path and whether it is a regular file. */
  datatype Entry = Entry(path: Path, isFile: bool)

  /** The id a glob entry contributes: files only. */
  function EntryId(e: Entry): Option<string> {
    if e.isFile then ExtractVideoId(e.path) else None
  }

  function EntryPath(e: Entry): Path {
    e.path
  }

  /** The entry is a file whose name carries the id `k`. */
  predicate Carries(e: Entry, k: string) {
    Keyed(EntryId, e, k)
  }

  /** The dict `scan_library_for_ids` returns after the given entries. */
  function Scan(entries: seq<Entry>): OrderedDict<Path> {
    FirstWins(entries, EntryId, EntryPath)
  }

  lemma ScanKeys(entries: seq<Entry>)
    ensures forall k :: k in Scan(entries).values <==> exists i :: 0 <= i < |entries| && Carries(entries[i], k)
  {
    FirstWinsKeys(entries, EntryId, EntryPath);
  }

  lemma ScanFirst(entries: seq<Entry>)
    ensures forall k :: k in Scan(entries).values ==>
      exists i :: (0 <= i < |entries| && Carries(entries[i], k) && entries[i].path == Scan(entries).values[k]
        && forall j :: 0 <= j < i ==> !Carries(entries[j], k))
  {
    FirstWinsFirst(entries, EntryId, EntryPath);
  }

  lemma ScanKeyList(entries: seq<Entry>)
    ensures forall k :: k in Scan(entries).values <==> k in Scan(entries).keys
    ensures Distinct(Scan(entries).keys)
  {
    FirstWinsKeyList(entries, EntryId, EntryPath);
  }

  /** `scan_library_for_ids`: the keys are exactly the ids some file carries,
      listed once each, and each maps to the FIRST file carrying it. */
  lemma ScanFirstWins(entries: seq<Entry>)
    ensures forall k :: k in Scan(entries).values <==> exists i :: 0 <= i < |entries| && Carries(entries[i], k)
    ensures forall k :: k in Scan(entries).values ==>
      exists i :: (0 <= i < |entries| && Carries(entries[i], k) && entries[i].path == Scan(entries).values[k]
        && forall j :: 0 <= j < i ==> !Carries(entries[j], k))
    ensures forall k :: k in Scan(entries).values <==> k in Scan(entries).keys
    ensures Distinct(Scan(entries).keys)
  {
    ScanKeys(entries);
    ScanFirst(entries);
    ScanKeyList(entries);
  }

  /** Every id found names a file whose name extracts back to it. */
  lemma ScanPathsExtract(entries: seq<Entry>, k: string)
    requires k in Scan(entries).values
    ensures ExtractVideoId(Scan(entries).values[k]) == Some(k)
    ensures IsVideoId(k)
  {
    FirstWinsFirst(entries, EntryId, EntryPath);
    var i :| 0 <= i < |entries| && Keyed(EntryId, entries[i], k) && EntryPath(entries[i]) == Scan(entries).values[k];
  }

  /** `scan_library_for_ids` as the loop it is. */
  method ScanLibrary(entries: seq<Entry>) returns (keys: seq<string>, paths: map<string, Path>)
    ensures OrderedDict(keys, paths) == Scan(entries)
  {
    keys := [];
    paths := map[];
    for i := 0 to |entries|
      invariant OrderedDict(keys, paths) == Scan(entries[..i])
    {
      assert entries[..i + 1][..i] == entries[..i];
      var e := entries[i];
      if !e.isFile {
        continue;
      }
      var vid := ExtractVideoId(e.path);
      if Truthy(vid) && vid.value !in paths {
        keys := keys + [vid.value];
        paths := paths[vid.value := e.path];
      }
    }
    assert entries[..|entries|] == entries;
  }

  // ---------------------------------------------------------------------------
  // Request headers

  const TokenHeader := "X-Emby-Token"
  const AuthorizationHeader := "X-Emby-Authorization"
  const AcceptHeader := "Accept"

  function AuthorizationValue(client: string, device: string, version: string): string {
    "MediaBrowser Client=" + client + ", Device=" + device + ", DeviceId=ymde, Version=" + version
  }

  /** The value a header list holds for `name`. */
  function HeaderValue(h: seq<(string, string)>, name: string): Option<string> {
    if h == [] then None else if h[0].0 == name then Some(h[0].1) else HeaderValue(h[1..], name)
  }

  /** `jellyfin_headers`: three distinct headers carrying the token, the
      client description and the accepted media type. */
  function JellyfinHeaders(apiKey: string, client: string, device: string, version: string): (h: seq<(string, string)>)
    ensures |h| == 3 && h[0].0 != h[1].0 && h[0].0 != h[2].0 && h[1].0 != h[2].0
    ensures HeaderValue(h, TokenHeader) == Some(apiKey)
    ensures HeaderValue(h, AuthorizationHeader) == Some(AuthorizationValue(client, device, version))
    ensures HeaderValue(h, AcceptHeader) == Some("application/json")
  {
    var h := [(TokenHeader, apiKey), (AuthorizationHeader, AuthorizationValue(client, device, version)), (AcceptHeader, "application/json")];
    assert h[1..] == [h[1], h[2]] && h[1..][1..] == [h[2]];
    assert HeaderValue(h[1..][1..], AcceptHeader) == Some("application/json");
    assert TokenHeader != AcceptHeader && AuthorizationHeader != AcceptHeader by {
      assert TokenHeader[0] != AcceptHeader[0];
      assert |AuthorizationHeader| != |AcceptHeader|;
    }
    h
  }

  // ---------------------------------------------------------------------------
  // Ids in item paths: `\[([A-Za-z0-9_-]{11})\]` anywhere

  predicate BracketedAt(s: string, j: nat) {
    j + 13 <= |s| && s[j] == '[' && IsVideoId(s[j + 1..j + 12]) && s[j + 12] == ']'
  }

  /** Leftmost match at or after `from`. */
  function BracketFrom(s: string, from: nat): (r: Option<nat>)
    ensures r.Some? ==> from <= r.value && BracketedAt(s, r.value)
    ensures r.Some? ==> forall k :: from <= k < r.value ==> !BracketedAt(s, k)
    ensures r.None? ==> forall k :: from <= k ==> !BracketedAt(s, k)
    decreases |s| - from
  {
    if from + 13 > |s| then None
    else if BracketedAt(s, from) then Some(from)
    else BracketFrom(s, from + 1)
  }

  /** The group of the leftmost bracketed id in `s`, with no anchor at the
      extension, unlike `FilenameId`. */
  function BracketedId(s: string): (r: Option<string>)
    ensures r.Some? <==> exists j :: BracketedAt(s, j)
    ensures r.Some? ==> IsVideoId(r.value)
    ensures r.Some? ==> exists j :: (BracketedAt(s, j) && r.value == s[j + 1..j + 12]
      && forall k :: 0 <= k < j ==> !BracketedAt(s, k))
  {
    match BracketFrom(s, 0)
    case Some(j) => Some(s[j + 1..j + 12])
    case None => None
  }

  /** An id the file-name pattern finds is also found by the bracket pattern,
      though perhaps not the same one: an earlier bracketed id wins there. */
  lemma FilenameIdIsBracketed(name: string)
    requires FilenameId(name).Some?
    ensures BracketedId(name).Some?
  {
    var j :| FilenameMatchAt(name, j);
    assert BracketedAt(name, j);
  }

  // ---------------------------------------------------------------------------
  // The item index: later items overwrite earlier ones

  /** One entry of the audio-item listing: its `Path` and `Id` fields. */
  datatype AudioItem = AudioItem(path: Option<string>, id: Option<string>)

  /** `str(it.get("Path") or "")` */
  function ItemPath(it: AudioItem): string {
    it.path.GetOr("")
  }

  /** `str(it.get("Id"))`: a missing id prints as "None". */
  function ItemIdText(it: AudioItem): string {
    it.id.GetOr("None")
  }

  /** The id, if any, an item contributes to the index. */
  function ItemKey(it: AudioItem): Option<string> {
    BracketedId(ItemPath(it))
  }

  /** `id_from_path` after the given items. */
  function ItemIndex(items: seq<AudioItem>): map<string, string> {
    LastWins(items, ItemKey, ItemIdText)
  }

  /** `id_from_path` holds exactly the ids found in some item path, and each
      maps to the id of the LAST item whose path carries it. */
  lemma ItemIndexLastWins(items: seq<AudioItem>)
    ensures forall v :: v in ItemIndex(items) <==> exists i :: 0 <= i < |items| && ItemKey(items[i]) == Some(v)
    ensures forall v :: v in ItemIndex(items) ==>
      exists i :: (0 <= i < |items| && ItemKey(items[i]) == Some(v) && ItemIndex(items)[v] == ItemIdText(items[i])
        && forall j :: i < j < |items| ==> ItemKey(items[j]) != Some(v))
  {
    LastWinsKeys(items, ItemKey, ItemIdText);
    LastWinsLast(items, ItemKey, ItemIdText);
  }

  // ---------------------------------------------------------------------------
  // Liking the ids

  /** The requests the liker issues. */
  datatype Request = GetMe | FetchAudioItems(user: string) | SearchItem(user: string, query: string)
    | SetFavorite(user: string, item: string)

  /** What the server answers: the normalised user id of `/Users/Me`, the
      audio-item listing (empty when the request failed), the first search
      hit for a query, and the status of a favourite request (`None` when it
      raised). */
  datatype Service = Service(me: Option<string>, items: seq<AudioItem>,
                             search: string -> Option<string>, favorite: string -> Option<int>)

  /** `set_favorite` succeeds on the three success statuses only. */
  predicate FavoriteOk(status: Option<int>) {
    status.Some? && status.value in {200, 202, 204}
  }

  function LocalItem(index: map<string, string>, vid: string): Option<string> {
    if vid in index then Some(index[vid]) else None
  }

  datatype LikeStep = LikeStep(ok: bool, requests: seq<Request>)

  /** One id of the like loop: the index first, the search only on a miss,
      a favourite request only when an item was found. */
  function LikeOne(user: string, index: map<string, string>, svc: Service, vid: string): (r: LikeStep)
    ensures SearchItem(user, vid) in r.requests <==> !Truthy(LocalItem(index, vid))
    ensures |r.requests| <= 2
    ensures (r.requests != [] && r.requests[|r.requests| - 1].SetFavorite?)
      <==> (Truthy(LocalItem(index, vid)) || Truthy(svc.search(vid)))
    ensures r.ok <==> (r.requests != [] && r.requests[|r.requests| - 1].SetFavorite?
      && FavoriteOk(svc.favorite(r.requests[|r.requests| - 1].item)))
    // the item favourited: the index hit, else the search hit
    ensures Truthy(LocalItem(index, vid)) ==> r.requests == [SetFavorite(user, index[vid])]
    ensures !Truthy(LocalItem(index, vid)) && Truthy(svc.search(vid)) ==>
      r.requests == [SearchItem(user, vid), SetFavorite(user, svc.search(vid).value)]
    ensures !Truthy(LocalItem(index, vid)) && !Truthy(svc.search(vid)) ==>
      r.requests == [SearchItem(user, vid)] && !r.ok
  {
    var local := LocalItem(index, vid);
    var searched := if Truthy(local) then [] else [SearchItem(user, vid)];
    var item := if Truthy(local) then local else svc.search(vid);
    if !Truthy(item) then LikeStep(false, searched)
    else LikeStep(FavoriteOk(svc.favorite(item.value)), searched + [SetFavorite(user, item.value)])
  }

  datatype LikeTally = LikeTally(ok: nat, fail: nat, requests: seq<Request>)

  /** The counters and requests of the second loop after the given ids. */
  function LikeAll(user: string, index: map<string, string>, svc: Service, ids: seq<string>): (r: LikeTally)
    ensures r.ok + r.fail == |ids|
  {
    if ids == [] then LikeTally(0, 0, []) else
      var t := LikeAll(user, index, svc, ids[..|ids| - 1]);
      var s := LikeOne(user, index, svc, ids[|ids| - 1]);
      LikeTally(t.ok + (if s.ok then 1 else 0), t.fail + (if s.ok then 0 else 1), t.requests + s.requests)
  }

  /** Nothing fails exactly when every id is liked. */
  lemma {:induction false} LikeAllFailFree(user: string, index: map<string, string>, svc: Service, ids: seq<string>)
    ensures LikeAll(user, index, svc, ids).fail == 0 <==> forall i :: 0 <= i < |ids| ==> LikeOne(user, index, svc, ids[i]).ok
  {
    if ids != [] {
      var init := ids[..|ids| - 1];
      LikeAllFailFree(user, index, svc, init);
      forall i | 0 <= i < |init| ensures ids[i] == init[i] { }
    }
  }

  /** `like_by_video_ids` as a whole: without a user every id fails after
      the one request; otherwise the listing is fetched and the loop runs. */
  function LikeTotal(svc: Service, ids: seq<string>): (r: LikeTally)
    ensures r.ok + r.fail == |ids|
    ensures !Truthy(svc.me) ==> r.ok == 0 && r.fail == |ids| && r.requests == [GetMe]
    ensures Truthy(svc.me) ==> |r.requests| >= 2 && r.requests[..2] == [GetMe, FetchAudioItems(svc.me.value)]
  {
    if !Truthy(svc.me) then LikeTally(0, |ids|, [GetMe]) else
      var user := svc.me.value;
      var t := LikeAll(user, ItemIndex(svc.items), svc, ids);
      LikeTally(t.ok, t.fail, [GetMe, FetchAudioItems(user)] + t.requests)
  }

  /** The index loop of `like_by_video_ids`. */
  method BuildItemIndex(items: seq<AudioItem>) returns (idFromPath: map<string, string>)
    ensures idFromPath == ItemIndex(items)
  {
    idFromPath := map[];
    for i := 0 to |items|
      invariant idFromPath == ItemIndex(items[..i])
    {
      assert items[..i + 1][..i] == items[..i];
      var m := ItemKey(items[i]);
      if m.Some? {
        idFromPath := idFromPath[m.value := ItemIdText(items[i])];
      }
    }
    assert items[..|items|] == items;
  }

  /** The body of the like loop for one id: whether it counts as liked, and
      the requests it sends. */
  method LikeVideoId(user: string, idFromPath: map<string, string>, svc: Service, vid: string)
    returns (liked: bool, sent: seq<Request>)
    ensures LikeStep(liked, sent) == LikeOne(user, idFromPath, svc, vid)
  {
    sent := [];
    var itemId := if vid in idFromPath then Some(idFromPath[vid]) else None;
    if !Truthy(itemId) {
      sent := sent + [SearchItem(user, vid)];
      itemId := svc.search(vid);
    }
    if !Truthy(itemId) {
      return false, sent;
    }
    sent := sent + [SetFavorite(user, itemId.value)];
    liked := FavoriteOk(svc.favorite(itemId.value));
  }

  /** The counting loop of `like_by_video_ids`. */
  method LikeEach(user: string, idFromPath: map<string, string>, svc: Service, videoIds: seq<string>)
    returns (ok: nat, fail: nat, sent: seq<Request>)
    ensures LikeTally(ok, fail, sent) == LikeAll(user, idFromPath, svc, videoIds)
  {
    ok, fail, sent := 0, 0, [];
    for i := 0 to |videoIds|
      invariant LikeTally(ok, fail, sent) == LikeAll(user, idFromPath, svc, videoIds[..i])
    {
      LikeAllSnoc(user, idFromPath, svc, videoIds, i);
      var liked, step := LikeVideoId(user, idFromPath, svc, videoIds[i]);
      sent := sent + step;
      if liked {
        ok := ok + 1;
      } else {
        fail := fail + 1;
      }
    }
    assert videoIds[..|videoIds|] == videoIds;
  }

  /** One more id adds its step to the tally. */
  lemma LikeAllSnoc(user: string, index: map<string, string>, svc: Service, ids: seq<string>, i: int)
    requires 0 <= i < |ids|
    ensures var t := LikeAll(user, index, svc, ids[..i]);
      var s := LikeOne(user, index, svc, ids[i]);
      LikeAll(user, index, svc, ids[..i + 1])
        == LikeTally(t.ok + (if s.ok then 1 else 0), t.fail + (if s.ok then 0 else 1), t.requests + s.requests)
  {
    assert ids[..i + 1][..i] == ids[..i];
  }

  /** `like_by_video_ids`: the user, the index loop, then the counting loop. */
  method LikeByVideoIds(svc: Service, videoIds: seq<string>) returns (tally: LikeTally)
    ensures tally == LikeTotal(svc, videoIds)
    ensures tally.ok + tally.fail == |videoIds|
  {
    if !Truthy(svc.me) {
      return LikeTally(0, |videoIds|, [GetMe]);
    }
    var user := svc.me.value;
    var idFromPath := BuildItemIndex(svc.items);
    var ok, fail, sent := LikeEach(user, idFromPath, svc, videoIds);
    tally := LikeTally(ok, fail, [GetMe, FetchAudioItems(user)] + sent);
  }

  // ---------------------------------------------------------------------------
  // The entry point

  /** One element of a playlist file's `tracks` list: not an object, or an
      object with its `videoId` field. */
  datatype TrackJson = NotObject | TrackObject(videoId: Option<string>)

  /** The playlist file: unreadable or not JSON, lacking a `tracks` list, or
      holding one. */
  datatype PlaylistJson = Unreadable | NoTrackList | TrackList(tracks: seq<TrackJson>)

  /** The arguments and the filesystem as the entry point sees them. */
  datatype LikeInputs = LikeInputs(playlistArg: Option<string>, playlistExists: bool, playlist: PlaylistJson,
                                   libraryExists: bool, library: seq<Entry>)

  /** `str(t.get("videoId") or "").strip()`, kept when non-empty. */
  function PlaylistVideoId(t: TrackJson): (r: Option<string>)
    ensures r.Some? ==> r.value != "" && Trimmed(r.value)
  {
    match t
    case NotObject => None
    case TrackObject(v) =>
      var s := Strip(v.GetOr(""));
      if s != "" then Some(s) else None
  }

  /** The playlist loop: `None` when a track is not an object (the `.get`
      raises and the entry point exits with 2), else the non-blank ids in
      file order. */
  method CollectVideoIds(tracks: seq<TrackJson>) returns (vids: Option<seq<string>>)
    ensures vids.Some? <==> forall i :: 0 <= i < |tracks| ==> tracks[i].TrackObject?
    ensures vids.Some? ==> vids.value == FilterMap(tracks, PlaylistVideoId)
  {
    var acc: seq<string> := [];
    for i := 0 to |tracks|
      invariant forall k :: 0 <= k < i ==> tracks[k].TrackObject?
      invariant acc == FilterMap(tracks[..i], PlaylistVideoId)
    {
      if tracks[i].NotObject? {
        return None;
      }
      assert forall k :: 0 <= k < i + 1 ==> tracks[k].TrackObject?;
      FilterMapSnoc(tracks, i, PlaylistVideoId);
      var vid := PlaylistVideoId(tracks[i]);
      if vid.Some? {
        acc := acc + [vid.value];
      }
    }
    assert tracks[..|tracks|] == tracks;
    vids := Some(acc);
  }

  /** Blank ids are skipped: every collected id is non-empty and stripped,
      and each one is a track's stripped id. */
  lemma PlaylistIdsNonBlank(tracks: seq<TrackJson>, v: string)
    requires v in FilterMap(tracks, PlaylistVideoId)
    ensures v != "" && Trimmed(v)
    ensures exists i :: 0 <= i < |tracks| && tracks[i].TrackObject? && Strip(tracks[i].videoId.GetOr("")) == v
  {
    FilterMapMembers(tracks, PlaylistVideoId, v);
    var i :| 0 <= i < |tracks| && PlaylistVideoId(tracks[i]) == Some(v);
  }

  /** Where the entry point stops before liking, and with which code, or
      the ids it likes. */
  datatype Targets = Stop(code: int) | Like(vids: seq<string>)

  function LikeTargets(inp: LikeInputs): (r: Targets)
    ensures r.Stop? ==> r.code == 0 || r.code == 2
    ensures (r.Stop? && r.code == 0) <==> !Truthy(inp.playlistArg) && inp.libraryExists && Scan(inp.library).values == map[]
    ensures r.Like? ==> forall k :: 0 <= k < |r.vids| ==> r.vids[k] != ""
  {
    if Truthy(inp.playlistArg) then
      if !inp.playlistExists then Stop(2) else
        match inp.playlist
        case Unreadable => Stop(2)
        case NoTrackList => Stop(2)
        case TrackList(ts) =>
          if exists i :: 0 <= i < |ts| && ts[i].NotObject? then Stop(2)
          else
            var vids := FilterMap(ts, PlaylistVideoId);
            assert forall k :: 0 <= k < |vids| ==> vids[k] != "" by {
              forall k | 0 <= k < |vids| ensures vids[k] != "" { PlaylistIdsNonBlank(ts, vids[k]); }
            }
            Like(vids)
    else if !inp.libraryExists then Stop(2)
    else
      var lib := Scan(inp.library);
      if lib.values == map[] then Stop(0)
      else
        assert forall k :: 0 <= k < |lib.keys| ==> lib.keys[k] != "" by {
          FirstWinsKeyList(inp.library, EntryId, EntryPath);
          forall k | 0 <= k < |lib.keys| ensures lib.keys[k] != "" { ScanPathsExtract(inp.library, lib.keys[k]); }
        }
        Like(lib.keys)
  }

  /** `main`: the exit code and the requests sent. */
  method LikeMain(inp: LikeInputs, svc: Service) returns (exitCode: int, requests: seq<Request>)
    ensures LikeTargets(inp).Stop? ==> exitCode == LikeTargets(inp).code && requests == []
    ensures LikeTargets(inp).Like? ==>
      var t := LikeTotal(svc, LikeTargets(inp).vids);
      requests == t.requests && exitCode == (if t.fail == 0 then 0 else 1)
  {
    var vids: seq<string>;
    if Truthy(inp.playlistArg) {
      if !inp.playlistExists {
        return 2, [];
      }
      match inp.playlist
      case Unreadable => return 2, [];
      case NoTrackList => return 2, [];
      case TrackList(ts) =>
        var got := CollectVideoIds(ts);
        if got.None? {
          return 2, [];
        }
        vids := got.value;
    } else {
      if !inp.libraryExists {
        return 2, [];
      }
      var keys, paths := ScanLibrary(inp.library);
      if paths == map[] {
        return 0, [];
      }
      vids := keys;
    }
    var tally := LikeByVideoIds(svc, vids);
    exitCode := if tally.fail == 0 then 0 else 1;
    requests := tally.requests;
  }

  /** The entry point exits with 0 after liking exactly when every id was
      liked, which without a user means there was no id at all. */
  lemma LikeExitZeroIff(svc: Service, vids: seq<string>)
    ensures LikeTotal(svc, vids).fail == 0 <==>
      if Truthy(svc.me) then forall i :: 0 <= i < |vids| ==> LikeOne(svc.me.value, ItemIndex(svc.items), svc, vids[i]).ok
      else vids == []
  {
    if Truthy(svc.me) {
      LikeAllFailFree(svc.me.value, ItemIndex(svc.items), svc, vids);
    }
  }
}
