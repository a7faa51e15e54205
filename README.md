# YMDE in Dafny

YMDE is a set of command-line tools for moving a YouTube Music library into a
local music collection:

- **ytm_takeout_downloader.py** reads the playlist JSON files of a Google
  Takeout. It builds one `yt-dlp` command per track. It downloads the tracks
  into the library with a pool of workers. It collects the files that were
  written and the URLs that failed, and optionally writes an `.m3u8` playlist
  per playlist under `_playlists/`. It exits with 0 when every download
  succeeded.
- **jellyfin_like_from_library.py** collects video ids from a playlist JSON
  file, or from the `[<11-char id>]` tags in the library's file names. It
  then marks the matching Jellyfin audio items as favourites, searching the
  server when the local index has no entry.
- **convert_csv_to_takeout_json.py** turns a Takeout CSV playlist into the
  same playlist JSON shape. It finds the id, URL and title columns
  case-insensitively and falls back to scanning every cell for an id.
- **ytm_liked_songs_exporter.py** asks `yt-dlp` for the "Liked Music"
  playlist and writes it out in that JSON shape.

The Dafny modules follow those files:

- `common.dfy` holds the shared values: Python truthiness, `str.strip`, ASCII
  lower-casing, the 11-character id alphabet, a filter-map over sequences
  with its lemmas, and the playlist record.
- `paths.dfy` models the `pathlib` operations the tools use.
- `dicts.dfy` models Python dicts filled by a loop, with first-wins and
  last-wins insertion. The facts are proved once, over any key function.
- `downloader.dfy` models the downloader's URL rewrite, its `--sleep`
  parsing, the yt-dlp command and a single download.
- `takeout_run.dfy` models the downloader's `main` and `write_m3u_for_playlist`.
- `jellyfin.dfy`, `csv_convert.dfy` and `liked_export.dfy` model the other
  three tools.

Wherever the source mutates something in a loop, the model does too: an
argument list (`Downloader.ArgList`), a list of URLs, a dict, a request
counter. Each method of that kind is proved equal to a specification
function, and the properties are lemmas about that function.

Processes, files, JSON and CSV decoding, and HTTP become input parameters:

- the result of running a command is a function from the argument list to
  a `ProcessResult`;
- decoded files are datatypes;
- the Jellyfin server is a `Service` value: the user id, the audio items,
  the search answer per id, and the status per favourite call.

## Model

| member | source | states |
|---|---|---|
| Common.FirstIdRun | convert_csv_to_takeout_json.py:50-52 | `re.search` of `[A-Za-z0-9_-]{11}`: found exactly when the text holds a run of 11 id characters. What is found is the text of the LEFTMOST such run, and it is a valid id. |
| Common.Strip | convert_csv_to_takeout_json.py:19 | `str.strip()`: no whitespace at either end, and never longer than the input. |
| Common.StripExact | convert_csv_to_takeout_json.py:19 | Text with no whitespace at either end, surrounded by whitespace runs, strips to exactly that text. |
| Common.StripDecompose | convert_csv_to_takeout_json.py:19 | Every string is its stripped text between two whitespace runs. |
| Common.StripSurrounded | ytm_takeout_downloader.py:48-52 | Stripping ignores any amount of whitespace added around a value. |
| Common.StripIdempotent | convert_csv_to_takeout_json.py:17-20 | Stripping twice is the same as stripping once. |
| Common.LessEqTotal | ytm_takeout_downloader.py:285 | String ordering used by `sorted` is total. |
| Common.LessEqTransitive | ytm_takeout_downloader.py:285 | String ordering used by `sorted` is transitive. |
| Paths.ParsePath | ytm_takeout_downloader.py:158 | `Path(s)` always yields a well-formed path: an anchor and non-empty parts, none of them "." and none holding a separator (".." is kept as a part, as `pathlib` keeps it). |
| Paths.RelativeTo | ytm_takeout_downloader.py:291 | `relative_to` succeeds exactly when the root's anchor and parts are a prefix of the path. The result is the remaining parts. |
| Paths.JoinChild | ytm_takeout_downloader.py:277-282 | Joining a single plain name adds exactly that part at the end. |
| Paths.ParsePrintRoundTrip | ytm_takeout_downloader.py:292 | Printing a well-formed path with `str` and parsing it again gives back the same path. |
| Dicts.FirstWinsKeys | jellyfin_like_from_library.py:36-37 | With the `k not in d` guard, the keys are exactly the truthy keys of some element. |
| Dicts.FirstWinsFirst | jellyfin_like_from_library.py:36-37 | The value stored under a key comes from the first element with that key. |
| Dicts.FirstWinsKeyList | jellyfin_like_from_library.py:36-37 | The insertion-order key list has no duplicates and holds exactly the dict's keys. |
| Dicts.LastWinsKeys | jellyfin_like_from_library.py:136-137 | The keys the overwriting `for` loop leaves are exactly the keys some element has. |
| Dicts.LastWinsLast | jellyfin_like_from_library.py:136-137 | The value stored under a key comes from the last element with that key. |
| Downloader.LazyIdFrom | ytm_takeout_downloader.py:41 | The lazy `.*?` followed by the group: the first position at or after the start that begins an 11-character id run, reached without crossing a newline. None exactly when no such run is reachable. |
| Downloader.SearchFrom | ytm_takeout_downloader.py:41 | `re.search`: the leftmost position where a `youtube.com` or `youtu.be` marker starts a match, with the earliest group there. No match is skipped. |
| Downloader.MusicId | ytm_takeout_downloader.py:41-44 | The captured id is a valid 11-character id. None exactly when the pattern matches nowhere. Otherwise it is the text of the group at the leftmost match position, at the earliest group start there. |
| Downloader.MaybeRewriteToYtMusic | ytm_takeout_downloader.py:38-45 | The URL is unchanged unless the flag is set and an id is found. Otherwise the result is the music.youtube.com watch URL of that id. |
| Downloader.CanonicalUrlMatch | ytm_takeout_downloader.py:41-44 | On a URL ending `youtube.com/watch?v=<id>`, with no `y` before that marker, the match is at the marker and captures exactly `<id>`. |
| Downloader.RewriteOfWatchUrl | ytm_takeout_downloader.py:38-45 | The watch URL built from a track's `videoId` is rewritten to the music URL of that same id. |
| Downloader.RewriteIdempotent | ytm_takeout_downloader.py:38-45 | Rewriting an already rewritten watch URL changes nothing. |
| Downloader.MusicUrlId | ytm_takeout_downloader.py:38-45 | The music watch URL of a valid id captures that same id again. |
| Downloader.SleepFlags | ytm_takeout_downloader.py:47-58 | Every flag produced is a sleep flag whose value is non-empty and stripped. |
| Downloader.SleepWithoutComma | ytm_takeout_downloader.py:47-58 | Without a comma: no flag when the value is blank, else `--sleep-interval` with the stripped value. |
| Downloader.SleepWithComma | ytm_takeout_downloader.py:51-56 | With a comma the text splits at the first comma and each side is stripped. Both sides set: `--min-sleep-interval` and `--max-sleep-interval`. One side set: `--sleep-interval` with that side. Neither: no flag. |
| Downloader.CommandPrefix | ytm_takeout_downloader.py:73-85 | The fixed head of the command: 14 words, starting with `yt-dlp`, the audio format at index 4, ending `-o <template>`. |
| Downloader.QualityFlagIff | ytm_takeout_downloader.py:87-88 | `--audio-quality q` is passed exactly when the lowercased format is `mp3` and the quality is the non-empty `q`. |
| Downloader.CookieFlagIff | ytm_takeout_downloader.py:90-91 | `--cookies c` is passed exactly when the cookie path is the non-empty `c` and that file exists. |
| Downloader.RateFlagIff | ytm_takeout_downloader.py:93-94 | `--limit-rate r` is passed exactly when the rate is the non-empty `r`. |
| Downloader.DryRunFlagIff | ytm_takeout_downloader.py:98-99 | `--skip-download` is passed exactly on a dry run. |
| Downloader.SleepFlagsIff | ytm_takeout_downloader.py:96 | The sleep options in the command are exactly those the `--sleep` parsing chooses. |
| Downloader.ArgList.constructor | ytm_takeout_downloader.py:73-85 | A new argument list holds exactly the given words. |
| Downloader.ArgList.Extend | ytm_takeout_downloader.py:88 | `cmd += [...]` appends exactly the given words. |
| Downloader.ArgList.Append | ytm_takeout_downloader.py:101 | `cmd.append` appends exactly one word. |
| Downloader.AddSleepPair | ytm_takeout_downloader.py:52-56 | The comma branch appends exactly the words of the flags chosen for the two stripped sides. |
| Downloader.AddSleepFlags | ytm_takeout_downloader.py:47-58 | `_add_sleep_flags` appends exactly the words of the chosen sleep flags and changes nothing else in the list. |
| Downloader.AddValueOptions | ytm_takeout_downloader.py:87-94 | The quality, cookie and rate branches append exactly their rendered flags in source order. |
| Downloader.AddDryRun | ytm_takeout_downloader.py:98-99 | Appends `--skip-download` exactly on a dry run and nothing otherwise. |
| Downloader.AddOptions | ytm_takeout_downloader.py:87-99 | The option steps append exactly the rendered quality, cookie, rate, sleep and dry-run flags, in that order. |
| Downloader.AssembleCmd | ytm_takeout_downloader.py:87-102 | The list grown from the fixed prefix ends as the prefix, the rendered options and the URL. |
| Downloader.BuildYtdlpCmd | ytm_takeout_downloader.py:60-102 | Builds the full command: the fixed prefix, the optional flags, and the (possibly rewritten) URL as the last word. |
| Downloader.RunCmd | ytm_takeout_downloader.py:104-121 | The output is stripped. Return code 0 only for a process that ran. A missing tool or a launch error gives empty output. |
| Downloader.DownloadOutcome | ytm_takeout_downloader.py:123-160 | The outcome is ok exactly when yt-dlp exits with 0. A path is reported exactly when it also printed something, and that path is the parsed output. |
| Downloader.OutcomePathOnlyOnSuccess | ytm_takeout_downloader.py:154-160 | A failed download never reports a file. |
| Downloader.DownloadTrack | ytm_takeout_downloader.py:123-160 | Runs the built command with the library's output template and returns the outcome above. |
| TakeoutRun.LoadPlaylist | ytm_takeout_downloader.py:27-36 | A file is a playlist exactly when it decodes to an object whose `type` is `playlist` and that has a `tracks` list. It is then returned unchanged. |
| TakeoutRun.PlaylistName | ytm_takeout_downloader.py:199 | The playlist's name when it is truthy, else the file stem. |
| TakeoutRun.ResolveTrackUrl | ytm_takeout_downloader.py:201-207 | A truthy `url` is kept. Otherwise a `videoId` that fully matches the id pattern gives the watch URL. Any URL kept is non-empty. |
| TakeoutRun.ResolvedIdRewrite | ytm_takeout_downloader.py:204-206 | A URL built from a `videoId` is rewritten to the music URL of that id. |
| TakeoutRun.CollectUrls | ytm_takeout_downloader.py:200-208 | The per-track loop fails (the `t.get` raises) exactly when some element of `tracks` is not an object. Otherwise it keeps exactly the resolved URLs, in track order. |
| TakeoutRun.CollectedUrls | ytm_takeout_downloader.py:200-208 | A URL is collected exactly when some track object resolves to it. Nothing is dropped exactly when every element is an object that resolves. |
| TakeoutRun.PlaylistOf | ytm_takeout_downloader.py:194-210 | A file contributes a playlist only with a non-empty URL list. |
| TakeoutRun.PlaylistOfFile | ytm_takeout_downloader.py:194-210 | The body of the file loop raises exactly when the file is a playlist holding a non-object track. Otherwise it gives exactly the playlist the file contributes. |
| TakeoutRun.DictKeysExact | ytm_takeout_downloader.py:193-210 | The `playlists` dict's key order has no duplicates, holds exactly its keys, and every key is the name of some contributed playlist. |
| TakeoutRun.DictLastWins | ytm_takeout_downloader.py:210 | A playlist name's URLs are those of the last file with that name. |
| TakeoutRun.DictKeysStable | ytm_takeout_downloader.py:210 | Later assignments never reorder or remove earlier keys. |
| TakeoutRun.DictAssign | ytm_takeout_downloader.py:210 | One assignment adds a new key at the end, or replaces the value of an existing key in place. |
| TakeoutRun.CollectPlaylists | ytm_takeout_downloader.py:193-210 | The loop over JSON files raises exactly when some file does. Otherwise it builds exactly that ordered dict. |
| TakeoutRun.PlaylistsNonEmpty | ytm_takeout_downloader.py:209-210 | Every playlist in the dict has at least one URL. |
| TakeoutRun.DictValueFrom | ytm_takeout_downloader.py:210 | Every dict entry is one of the contributed (name, URLs) pairs. |
| TakeoutRun.FileOf | ytm_takeout_downloader.py:254-256 | A file is kept exactly for a successful outcome with a path. |
| TakeoutRun.FailureOf | ytm_takeout_downloader.py:257-258 | A URL is recorded as failed exactly for a failed outcome. |
| TakeoutRun.AggregateOutcomes | ytm_takeout_downloader.py:253-258 | The result loop collects exactly those files and failures, in outcome order. |
| TakeoutRun.AggregateBound | ytm_takeout_downloader.py:253-258 | Files plus failures never exceed the number of tracks. |
| TakeoutRun.NoFailuresIff | ytm_takeout_downloader.py:253-258 | No failures exactly when every outcome is ok. |
| TakeoutRun.CompletionOrderFree | ytm_takeout_downloader.py:247-258 | Outcomes arriving in any completion order give the same multisets of files and failures. |
| TakeoutRun.SafeName | ytm_takeout_downloader.py:281 | Same length. Each character the sanitiser rejects (backslash, slash, `*?:"<>` and the vertical bar) becomes `_`, every other character is kept, and no rejected character is left. |
| TakeoutRun.M3uPathShape | ytm_takeout_downloader.py:277-282 | The playlist file is `_playlists/<safe name>.m3u8` under the library root. |
| TakeoutRun.InsertByKey | ytm_takeout_downloader.py:285 | Insertion adds exactly the one element. |
| TakeoutRun.SortByKey | ytm_takeout_downloader.py:285 | Sorting is a permutation. |
| TakeoutRun.InsertKeepsSorted | ytm_takeout_downloader.py:285 | Inserting into a list sorted by lowercased name keeps it sorted. |
| TakeoutRun.SortByKeySorted | ytm_takeout_downloader.py:285 | The sorted files are in non-decreasing lowercased-name order and a permutation of the input. |
| TakeoutRun.M3uLine | ytm_takeout_downloader.py:292 | A playlist line never contains a backslash. |
| TakeoutRun.UnderRootPrefix | ytm_takeout_downloader.py:289-292 | The number of leading files under the root. The first file after them is not under it. |
| TakeoutRun.PrefixAll | ytm_takeout_downloader.py:289-292 | All files are written exactly when every file lies under the root. |
| TakeoutRun.WriteM3uLines | ytm_takeout_downloader.py:287-295 | The writing loop gives the header and one line per leading file under the root. It is complete exactly when no `relative_to` fails. |
| TakeoutRun.WriteM3u | ytm_takeout_downloader.py:276-295 | Produces the playlist file for the sorted files. It is complete exactly when every file lies under the root. |
| TakeoutRun.SortedUnderRoot | ytm_takeout_downloader.py:285-292 | Sorting keeps the count and does not change whether every file lies under the root. |
| TakeoutRun.M3uLinesShape | ytm_takeout_downloader.py:288-292 | Line 0 is `#EXTM3U`. Line i is the relative path of the i-th file, with no backslash. |
| TakeoutRun.M3uShape | ytm_takeout_downloader.py:276-295 | Header, then lines in lowercased-name order with no backslash. Exactly one line per file when all lie under the root. |
| TakeoutRun.Outcomes | ytm_takeout_downloader.py:227-244 | One outcome per URL of the playlist: the result of `download_track` on it. |
| TakeoutRun.PlaylistFailures | ytm_takeout_downloader.py:227-258 | A URL fails in a playlist exactly when the playlist lists it and its download is not ok. |
| TakeoutRun.RunFailuresExact | ytm_takeout_downloader.py:219-258 | A URL is in the run's failures exactly when some playlist lists it and its download is not ok. |
| TakeoutRun.RunFailuresOfYtdlp | ytm_takeout_downloader.py:219-258 | With the real `download_track`, a URL fails exactly when some playlist lists it and yt-dlp exits non-zero on its command. |
| TakeoutRun.RunPlaylist | ytm_takeout_downloader.py:220-266 | One playlist: its failures are exactly the failed outcomes of its URLs. A playlist file is written exactly when `--write-m3u` is set and some file was kept, and it is the playlist file of those files. |
| TakeoutRun.RunPlaylists | ytm_takeout_downloader.py:219-266 | The loop over the playlists in dict order collects exactly the run's failures and writes exactly the playlist files of the specification. |
| TakeoutRun.RunTakeout | ytm_takeout_downloader.py:179-274 | Exit 2 for a missing path. Exit 1 when there are no JSON files, when a playlist holds a non-object track (the uncaught exception), or when there are no playlists. Otherwise the failures and playlist files of all playlists in dict order, and exit 0 exactly when nothing failed. |
| TakeoutRun.ExitZeroIff | ytm_takeout_downloader.py:267-274 | No failures exactly when every listed URL downloads ok. |
| Jellyfin.FilenameId | jellyfin_like_from_library.py:25-26 | The `\[([A-Za-z0-9_-]{11})\]\.[^.]+$` search: found exactly when the name ends in `[<id>].<ext>` with a non-empty, dot-free extension. Then it is that id. |
| Jellyfin.ExtractVideoId | jellyfin_like_from_library.py:23-26 | The same on a path's final name. The result is always a valid id. |
| Jellyfin.ScanFirstWins | jellyfin_like_from_library.py:29-38 | The index holds exactly the ids carried by some file. Each maps to the first file carrying it. Key order has no duplicates. |
| Jellyfin.ScanPathsExtract | jellyfin_like_from_library.py:32-37 | Every indexed path yields back its own id, which is valid. |
| Jellyfin.ScanLibrary | jellyfin_like_from_library.py:29-38 | The scanning loop builds exactly that index. |
| Jellyfin.JellyfinHeaders | jellyfin_like_from_library.py:41-47 | Three distinct headers: the token, the MediaBrowser authorization value, and JSON accept. |
| Jellyfin.BracketedId | jellyfin_like_from_library.py:135 | `\[([A-Za-z0-9_-]{11})\]` search on an item path: found exactly when some bracketed id occurs, then the leftmost one. |
| Jellyfin.FilenameIdIsBracketed | jellyfin_like_from_library.py:135 | A file name with a tagged id also has a bracketed id. |
| Jellyfin.ItemIndexLastWins | jellyfin_like_from_library.py:131-137 | The item index holds exactly the ids bracketed in some item path. Each maps to the id text of the last such item. |
| Jellyfin.LikeOne | jellyfin_like_from_library.py:109-149 | An id in the index favourites exactly the indexed item and asks nothing else. Otherwise the server is searched. A hit favourites exactly the item found. A miss sends only the search and fails. Ok exactly when the favourite call got 200, 202 or 204. |
| Jellyfin.LikeAll | jellyfin_like_from_library.py:139-149 | Every id is counted once, as ok or as failed. |
| Jellyfin.LikeAllFailFree | jellyfin_like_from_library.py:139-150 | No failures exactly when every id is liked ok. |
| Jellyfin.LikeTotal | jellyfin_like_from_library.py:122-150 | Without a user, every id fails and only `/Users/Me` is asked. With one, the user and then the audio items are fetched first. |
| Jellyfin.BuildItemIndex | jellyfin_like_from_library.py:131-137 | The loop over audio items builds exactly the item index. |
| Jellyfin.LikeVideoId | jellyfin_like_from_library.py:139-149 | One id: the lookup, the search when needed and the favourite call give exactly the outcome and requests of LikeOne. |
| Jellyfin.LikeEach | jellyfin_like_from_library.py:139-150 | The like loop gives exactly the counts and request trace of LikeAll. |
| Jellyfin.LikeByVideoIds | jellyfin_like_from_library.py:122-150 | The index loop and the like loop give exactly that tally and request trace. |
| Jellyfin.PlaylistVideoId | jellyfin_like_from_library.py:176-178 | A kept playlist id is non-empty and stripped. |
| Jellyfin.CollectVideoIds | jellyfin_like_from_library.py:171-181 | Fails exactly when some track is not an object. Otherwise the stripped non-empty ids in track order. |
| Jellyfin.PlaylistIdsNonBlank | jellyfin_like_from_library.py:175-178 | Each collected id is the stripped `videoId` of some track object. |
| Jellyfin.LikeTargets | jellyfin_like_from_library.py:162-191 | Stops only with 0 or 2. Stops with 0 exactly when no playlist is given and the library exists but has no tagged files. Every id to like is non-empty. |
| Jellyfin.LikeMain | jellyfin_like_from_library.py:153-195 | A stop sends no request and exits with its code. Otherwise the requests are those of liking the targets, and the exit code is 0 exactly when nothing failed. |
| Jellyfin.LikeExitZeroIff | jellyfin_like_from_library.py:193-195 | No failure after liking exactly when every id is liked ok. Without a user, exactly when there is no id at all. |
| CsvConvert.DictKeysMembers | convert_csv_to_takeout_json.py:63-64 | The keys of a DictReader row are exactly the header names, each listed once. |
| CsvConvert.DictKeysOrder | convert_csv_to_takeout_json.py:63-64 | A key listed before another first heads a column before any column the other heads: a repeated header keeps the place of its first column. |
| CsvConvert.RowValueAt | convert_csv_to_takeout_json.py:63-64 | The value under a key is the cell of the LAST column it heads. |
| CsvConvert.RowValueAbsent | convert_csv_to_takeout_json.py:33 | `row.get` of a key that heads no column is None. |
| CsvConvert.ValuesAt | convert_csv_to_takeout_json.py:46 | `row.values()` has one value per key, in key order, each the value under that key. |
| CsvConvert.ValuesLast | convert_csv_to_takeout_json.py:46 | Each value of `row.values()` is the cell of the last column headed by its key. |
| CsvConvert.StripBlankIff | convert_csv_to_takeout_json.py:19 | Stripping gives "" exactly on all-whitespace input. |
| CsvConvert.CoerceStr | convert_csv_to_takeout_json.py:17-20 | None exactly for a missing or blank cell. Otherwise non-empty, stripped and no longer than the cell. |
| CsvConvert.CoerceIdempotent | convert_csv_to_takeout_json.py:17-20 | Coercing a coerced value changes nothing. |
| CsvConvert.LowerKeysLastWins | convert_csv_to_takeout_json.py:24 | The lowercased header map holds exactly the lowercased keys of the row. Each maps to the last key, in key order, with that lowercase. |
| CsvConvert.FoundKey | convert_csv_to_takeout_json.py:22-28 | The first candidate, in candidate order, whose lowercase is a header. None exactly when no candidate is. |
| CsvConvert.FoundKeyInRow | convert_csv_to_takeout_json.py:22-28 | A key found is a key of the row that matches a candidate regardless of case, and no later key has the same lowercase. None exactly when no header matches a candidate. |
| CsvConvert.RepeatedHeaders | convert_csv_to_takeout_json.py:22-28 | With headers `Title,TITLE,Title`: the keys are `Title` then `TITLE`, `title` maps to `TITLE`, `find_key` of `Title` returns `TITLE`, the value under `Title` is the third cell, and the values are the third and second cells. |
| CsvConvert.FindKey | convert_csv_to_takeout_json.py:22-28 | The loop with early return finds exactly that key. |
| CsvConvert.RowGet | convert_csv_to_takeout_json.py:30-33 | None when no key is found. Otherwise the coerced value the row holds under the key found. A value found is non-empty, stripped and a fixed point of coercion. |
| CsvConvert.RowGetCell | convert_csv_to_takeout_json.py:30-33 | A value found is the coerced cell of the last column headed by the key found. |
| CsvConvert.CellId | convert_csv_to_takeout_json.py:46-52 | None exactly when the coerced cell is missing or holds no run of 11 id characters. Otherwise the text of the leftmost such run of the coerced cell, a valid id. |
| CsvConvert.FirstCellId | convert_csv_to_takeout_json.py:45-53 | The scan runs over `row.values()`, one value per key, so a repeated header contributes only its last cell. What it finds is a valid id; CsvConvert.FirstCellIdNone and CsvConvert.FirstCellIdFirst say which. |
| CsvConvert.FirstCellIdNone | convert_csv_to_takeout_json.py:45-53 | None exactly when no value of the row, taken key by key, has an id. |
| CsvConvert.FirstCellIdFirst | convert_csv_to_takeout_json.py:45-53 | The id found is that of the value under some key, and no earlier key's value has one. |
| CsvConvert.RepeatedColumnScan | convert_csv_to_takeout_json.py:45-53 | Two columns under one header are scanned as one value, the second cell. |
| CsvConvert.RowVideoId | convert_csv_to_takeout_json.py:35-53 | An id column holding an exact id wins. Otherwise the first cell id. Always a valid id. |
| CsvConvert.ExtractVideoId | convert_csv_to_takeout_json.py:35-53 | The loop over cells with early return gives exactly that id. |
| CsvConvert.CsvTrack | convert_csv_to_takeout_json.py:74-88 | A row gives a track exactly when it has an id. The URL column or the music watch URL of the id. The title or "Unknown Title". Source "csv". |
| CsvConvert.ConvertRow | convert_csv_to_takeout_json.py:74-88 | The body of the row loop raises exactly on a record longer than its header (`find_key` lowers the key `None`). Otherwise it gives exactly the track of the record, or nothing when no id is found. |
| CsvConvert.CsvTracksFromRows | convert_csv_to_takeout_json.py:73-88 | Every track comes from a record, in record order. As many tracks as records exactly when every record has an id. |
| CsvConvert.CollectCsvTracks | convert_csv_to_takeout_json.py:73-88 | The row loop raises exactly when some record is long. Otherwise it collects exactly those tracks. |
| CsvConvert.CsvPlaylistName | convert_csv_to_takeout_json.py:94-96 | The stem is kept unless the suffix removal applies. Then the result is stripped and at least 7 characters shorter. |
| CsvConvert.CsvNameDropsSuffix | convert_csv_to_takeout_json.py:94-96 | A stripped base with any-case `-videos` appended gives back the base. |
| CsvConvert.ConvertCsvFile | convert_csv_to_takeout_json.py:55-102 | Raises exactly when the CSV has records and one of them is long. No output for an unreadable or empty CSV, one that raises, or one without tracks. Otherwise a `playlist` object with the derived name and exactly the record tracks. |
| LikedExport.LikedId | ytm_liked_songs_exporter.py:36-38 | The stripped id, kept exactly when non-empty. |
| LikedExport.LikedTitleDefault | ytm_liked_songs_exporter.py:39 | The stripped title when non-blank, else "Unknown Title". Never empty, always stripped. |
| LikedExport.LikedTrack | ytm_liked_songs_exporter.py:35-46 | An entry gives a track exactly when its id is non-blank: title, watch URL of the id, the id and source "liked". |
| LikedExport.BuildPlaylistJson | ytm_liked_songs_exporter.py:32-47 | Fails (the `e.get` raises) exactly when some entry is not an object. Otherwise the loop builds a `playlist` object of exactly the entries' tracks. |
| LikedExport.EntryTrack | ytm_liked_songs_exporter.py:35-46 | The loop body turns an object entry into exactly its track, or nothing when its id is blank. |
| LikedExport.LikedTracksFromEntries | ytm_liked_songs_exporter.py:34-46 | Every track comes from an object entry and has a stripped id, its watch URL, source "liked" and a non-empty title. No more tracks than entries, and equally many exactly when every entry is an object with a non-blank id. |
| LikedExport.ExportCommand | ytm_liked_songs_exporter.py:56-65 | The four fixed words, plus `--cookies <file>` exactly when the cookie file is given and exists. |
| LikedExport.ExportRun | ytm_liked_songs_exporter.py:21-29 | Return code 0 exactly for a process that ran and exited with 0. The stdout of a process that ran is passed on unstripped. |
| LikedExport.ExportLikedSongs | ytm_liked_songs_exporter.py:50-92 | Exported exactly when yt-dlp exits 0, its output has an entries list, every entry is an object, and the write succeeds. Then `<name>.json` in the output directory holds exactly the entries' tracks. |

## Left out

- Console output (`log`, `eprint`, tqdm progress bars, yt-dlp's own output in verbose mode) is not modelled. No result depends on it.
- Command-line parsing (`argparse`, defaults such as `/library` and `m4a`) is not modelled. The parsed values are parameters.
- `Path.resolve()`, `mkdir`, `exists`, `is_file` and `rglob` are not modelled. Their answers are parameters (`pathExists`, `cookieIsFile`, the entry list of a scan).
- Reading, JSON decoding and CSV decoding are not modelled. A decoded file is a datatype, and a file that cannot be decoded is `None`. Non-string JSON values are not modelled; `str(vid)` of a non-string id is not modelled.
- Writing files is not modelled. The playlist file is modelled as its path and lines. A failed write in the exporter is a `writeFails` input. The write in `convert_csv_file` (`with_suffix`, `json.dump`) and its error are not modelled.
- Running processes is not modelled. `subprocess.run` is a function from the argument list to a `ProcessResult`. The result of yt-dlp's `--print` is its stdout.
- TakeoutRun.RunTakeout: the thread pool (`max(1, concurrency)` workers) and `as_completed` order are not modelled. Outcomes are taken in submission order. TakeoutRun.CompletionOrderFree shows that any completion order gives the same files and failures as multisets.
- TakeoutRun.RunTakeout: `download` is an input function from URL to outcome. TakeoutRun.RunFailuresOfYtdlp ties it to the real `download_track`. Being a function, it gives a URL listed twice the same outcome both times, while the source runs one download per listing, and two runs of one URL can end differently. TakeoutRun.RunFailuresExact's "exactly when" relies on this.
- TakeoutRun.SortByKeySorted: states sortedness and permutation but not the stability of Python's `sorted`.
- Common.Lower is ASCII-only. Python's `str.lower` also folds non-ASCII letters, and can change a string's length; CsvConvert.CsvPlaylistName relies on the length being kept.
- HTTP requests to Jellyfin are not modelled. The server is an input `Service`. Its `items` are audio-item objects: an element of the server's `Items` list that is not an object would make `it.get("Path")` raise outside any `try` and end `like_by_video_ids`, and the model cannot express it. The request trace records which calls are made, but not their URLs, query parameters or headers. The base URL's `rstrip("/")` is not modelled.
- The response parsing inside `get_me_user_id`, `fetch_all_audio_items` and `search_item` is folded into `Service`. Their HTTP error paths are folded into its `None` answers.
- The `main` of convert_csv_to_takeout_json.py (its file loop and counts; it always exits 0) is not modelled.
- The `main` of ytm_liked_songs_exporter.py (argument parsing and the `SystemExit` status) is not modelled beyond ExportLikedSongs's result.
- `find_json_playlists` (the unsorted `rglob("*.json")`, kept when `is_file`) is not modelled. The found files, in the order the file system yields them, are an input list. That order fixes the key order of the `playlists` dict and which of several same-named files wins.
- A CSV record is the zipped (header, cell) list, with `None` cells for a short record, plus a flag saying that it had more cells than the header. The dict is modelled from the list by `DictKeys` and `RowValue`. The extra key `None` that DictReader adds for a long record is modelled only by that flag: `find_key` raises on it (CsvConvert.ConvertRow), and the surplus cells are not kept.
- CsvConvert.ConvertCsvFile: the exception a long record raises leaves `convert_csv_file`, and since `main` has no `try` it ends the converter, so later CSV files are not converted. The model reports `raised` for the one file; `main`'s file loop is not modelled.
- An element of `tracks` or `entries` that is not an object raises `AttributeError`. The model does not name the exception: the downloader's run ends with exit status 1 and the export is `ExportFailed`.
