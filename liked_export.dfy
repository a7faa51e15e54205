/** ytm_liked_songs_exporter.py: asks yt-dlp for the "Liked Music"
    playlist and turns its entries into a playlist file. Running yt-dlp and
    parsing its JSON are inputs: a function from the command to how the
    process ended, and a function from its stdout to the `entries` list. */
module LikedExport {
  import opened Common
  import opened Paths

  /** One element of yt-dlp's `entries`: its "id" and "title" strings. */
  datatype LikedEntry = LikedEntry(id: Option<string>, title: Option<string>)

  /** An element of `entries`: an object, or any other JSON value, which has
      no `.get`. */
  datatype EntryElem = ObjectEntry(entry: LikedEntry) | NonObjectEntry

  /** `str(e.get("id") or "").strip()`, kept when non-empty. */
  function LikedId(e: LikedEntry): (r: Option<string>)
    ensures r.Some? ==> r.value != "" && Trimmed(r.value)
    ensures r.None? <==> Strip(e.id.GetOr("")) == ""
  {
    var vid := Strip(e.id.GetOr(""));
    if vid != "" then Some(vid) else None
  }

  /** `str(e.get("title") or "Unknown Title").strip() or "Unknown Title"`. */
  function LikedTitle(e: LikedEntry): string {
    var raw := if Truthy(e.title) then e.title.value else UnknownTitle;
    var s := Strip(raw);
    if s != "" then s else UnknownTitle
  }

  /** The title is the stripped title when that is non-empty, and the
      placeholder when the title is missing, empty or blank. */
  lemma LikedTitleDefault(e: LikedEntry)
    ensures Strip(e.title.GetOr("")) != "" ==> LikedTitle(e) == Strip(e.title.GetOr(""))
    ensures Strip(e.title.GetOr("")) == "" ==> LikedTitle(e) == UnknownTitle
    ensures LikedTitle(e) != "" && Trimmed(LikedTitle(e))
  {
    StripTrimmed(UnknownTitle);
  }

  /** The track an entry becomes, or nothing when its id is blank. */
  function LikedTrack(e: LikedEntry): (r: Option<TrackRecord>)
    ensures r.Some? <==> LikedId(e).Some?
    ensures r.Some? ==> r.value == TrackRecord(LikedTitle(e), WatchPrefix + LikedId(e).value, LikedId(e).value, "liked")
  {
    match LikedId(e)
    case None => None
    case Some(vid) => Some(TrackRecord(LikedTitle(e), WatchPrefix + vid, vid, "liked"))
  }

  /** The track an element becomes; a non-object becomes none (it raises
      instead, see `BuildPlaylistJson`). */
  function ElemTrack(x: EntryElem): Option<TrackRecord> {
    match x
    case ObjectEntry(e) => LikedTrack(e)
    case NonObjectEntry => None
  }

  /** Some element of `entries` is not an object. */
  predicate HasNonObject(entries: seq<EntryElem>) {
    exists i :: 0 <= i < |entries| && entries[i].NonObjectEntry?
  }

  /** An object after a prefix of objects extends it. */
  lemma ObjectsExtend(entries: seq<EntryElem>, i: int)
    requires 0 <= i < |entries| && !HasNonObject(entries[..i]) && entries[i].ObjectEntry?
    ensures !HasNonObject(entries[..i + 1])
  {
    var p := entries[..i + 1];
    forall j | 0 <= j < |p| ensures p[j].ObjectEntry? {
      if j < i {
        assert p[j] == entries[..i][j];
      }
    }
  }

  /** `build_playlist_json` as the loop it is: `None` when `e.get("id")`
      raises `AttributeError` on an element that is not an object, else the
      playlist of the entries' tracks. */
  method BuildPlaylistJson(playlistName: string, entries: seq<EntryElem>) returns (doc: Option<PlaylistDoc>)
    ensures doc.None? <==> HasNonObject(entries)
    ensures doc.Some? ==> doc.value == PlaylistDoc(PlaylistKind, playlistName, FilterMap(entries, ElemTrack))
  {
    var tracks: seq<TrackRecord> := [];
    var i := 0;
    while i < |entries|
      invariant 0 <= i <= |entries|
      invariant tracks == FilterMap(entries[..i], ElemTrack)
      invariant !HasNonObject(entries[..i])
    {
      if entries[i].NonObjectEntry? {
        assert HasNonObject(entries) by {
          assert entries[i].NonObjectEntry?;
        }
        return None;
      }
      ObjectsExtend(entries, i);
      FilterMapSnoc(entries, i, ElemTrack);
      var t := EntryTrack(entries[i]);
      if t.Some? {
        tracks := tracks + [t.value];
      }
      i := i + 1;
    }
    assert entries[..i] == entries;
    assert !HasNonObject(entries);
    doc := Some(PlaylistDoc(PlaylistKind, playlistName, tracks));
  }

  /** The body of the entry loop for an object: its track, or nothing when
      its id is blank. */
  method EntryTrack(x: EntryElem) returns (t: Option<TrackRecord>)
    requires x.ObjectEntry?
    ensures t == ElemTrack(x)
  {
    var e := x.entry;
    var vid := Strip(e.id.GetOr(""));
    if vid == "" {
      return None;
    }
    var title := Strip(if Truthy(e.title) then e.title.value else UnknownTitle);
    if title == "" {
      title := UnknownTitle;
    }
    t := Some(TrackRecord(title, WatchPrefix + vid, vid, "liked"));
  }

  /** Every exported track comes from an object entry, in entry order, with a
      non-blank stripped id, the watch URL of that id and the "liked"
      source; tracks are never more than entries, and as many exactly when
      every entry is an object with a non-blank id. */
  lemma LikedTracksFromEntries(entries: seq<EntryElem>, t: TrackRecord)
    ensures t in FilterMap(entries, ElemTrack) <==>
      exists i :: 0 <= i < |entries| && entries[i].ObjectEntry? && LikedTrack(entries[i].entry) == Some(t)
    ensures t in FilterMap(entries, ElemTrack) ==>
      t.videoId != "" && Trimmed(t.videoId) && t.url == WatchPrefix + t.videoId && t.source == "liked"
      && t.title != "" && Trimmed(t.title)
    ensures |FilterMap(entries, ElemTrack)| <= |entries|
    ensures |FilterMap(entries, ElemTrack)| == |entries| <==>
      forall i :: 0 <= i < |entries| ==> entries[i].ObjectEntry? && Strip(entries[i].entry.id.GetOr("")) != ""
  {
    FilterMapMembers(entries, ElemTrack, t);
    FilterMapLength(entries, ElemTrack);
    if t in FilterMap(entries, ElemTrack) {
      var i :| 0 <= i < |entries| && ElemTrack(entries[i]) == Some(t);
      LikedTitleDefault(entries[i].entry);
    }
  }

  // ---------------------------------------------------------------------------
  // The yt-dlp command and the export

  const LikedPlaylistUrl := "https://music.youtube.com/playlist?list=LM"

  /** The command of `export_liked_songs`: the four fixed words, then the
      cookie file when one was given and is a file. */
  method ExportCommand(cookies: Option<string>, cookieIsFile: bool) returns (cmd: seq<string>)
    ensures |cmd| >= 4 && cmd[..4] == ["yt-dlp", "-J", "--flat-playlist", LikedPlaylistUrl]
    ensures "--cookies" in cmd <==> Truthy(cookies) && cookieIsFile
    ensures Truthy(cookies) && cookieIsFile ==> cmd[4..] == ["--cookies", cookies.value]
    ensures !(Truthy(cookies) && cookieIsFile) ==> |cmd| == 4
  {
    cmd := ["yt-dlp", "-J", "--flat-playlist", LikedPlaylistUrl];
    if Truthy(cookies) && cookieIsFile {
      cmd := cmd + ["--cookies", cookies.value];
    }
  }

  /** The exporter's `run_cmd`, return code and stdout: a missing tool gives
      127 and any other launch error 1, so only a process that ran and
      exited with 0 reads as success. */
  function ExportRun(p: ProcessResult): (r: (int, string))
    ensures r.0 == 0 <==> p.Exited? && p.returnCode == 0
    ensures p.Exited? ==> r.1 == p.stdout
  {
    match p
    case Exited(rc, out) => (rc, out)
    case ToolNotFound => (127, "")
    case LaunchFailed => (1, "")
  }

  /** How `export_liked_songs` ends: with exit status 1 (the `SystemExit`,
      or the `AttributeError` a non-object entry raises), or with the path
      it wrote and the playlist written there. */
  datatype Export = ExportFailed | Exported(path: Path, doc: PlaylistDoc)

  /** `export_liked_songs`: run the command, give up on a non-zero status, on
      stdout that is not an object with an `entries` list, or when the file
      cannot be written; else write `<name>.json` in the output directory. */
  method ExportLikedSongs(cookies: Option<string>, cookieIsFile: bool, outDir: Path, playlistName: string,
                          run: seq<string> -> ProcessResult, parseEntries: string -> Option<seq<EntryElem>>,
                          writeFails: bool)
    returns (res: Export)
    ensures var cmd := if Truthy(cookies) && cookieIsFile then ["yt-dlp", "-J", "--flat-playlist", LikedPlaylistUrl, "--cookies", cookies.value]
                       else ["yt-dlp", "-J", "--flat-playlist", LikedPlaylistUrl];
      var (rc, out) := ExportRun(run(cmd));
      (res.Exported? <==> rc == 0 && parseEntries(out).Some? && !HasNonObject(parseEntries(out).value) && !writeFails)
      && (res.Exported? ==>
            res.path == JoinPath(outDir, playlistName + ".json")
            && res.doc == PlaylistDoc(PlaylistKind, playlistName, FilterMap(parseEntries(out).value, ElemTrack)))
  {
    var cmd := ExportCommand(cookies, cookieIsFile);
    assert cmd == if Truthy(cookies) && cookieIsFile then ["yt-dlp", "-J", "--flat-playlist", LikedPlaylistUrl, "--cookies", cookies.value]
                  else ["yt-dlp", "-J", "--flat-playlist", LikedPlaylistUrl] by {
      assert cmd == cmd[..4] + cmd[4..];
    }
    var (rc, stdout) := ExportRun(run(cmd));
    if rc != 0 {
      return ExportFailed;
    }
    var entries := parseEntries(stdout);
    if entries.None? {
      return ExportFailed;
    }
    var playlist := BuildPlaylistJson(playlistName, entries.value);
    if playlist.None? {
      return ExportFailed;
    }
    var outPath := JoinPath(outDir, playlistName + ".json");
    if writeFails {
      return ExportFailed;
    }
    res := Exported(outPath, playlist.value);
  }
}
