/** ytm_takeout_downloader.py, per track: the rewrite of a video URL to
    music.youtube.com, the yt-dlp argument list, and the shaping of one
    download's result. */
module Downloader {
  import opened Common
  import opened Paths

  // ---------------------------------------------------------------------------
  // maybe_rewrite_to_ytmusic: re.search(r"(?:youtube\.com|youtu\.be).*?([A-Za-z0-9_-]{11})", url)

  /** End of a "youtube.com" or "youtu.be" marker starting at `p`
      (the alternatives are tried in that order). */
  function MarkerEnd(s: string, p: nat): (r: Option<nat>)
    ensures r.Some? ==> p < r.value <= |s|
  {
    if StartsWithAt(s, p, "youtube.com") then Some(p + 11)
    else if StartsWithAt(s, p, "youtu.be") then Some(p + 8)
    else None
  }

  /** The pattern matches with its marker at `p` and its group at `g`:
      `.*?` spans `s[q..g]`, which may not hold a newline. */
  predicate MatchesAt(s: string, p: nat, g: nat) {
    MarkerEnd(s, p).Some? && MarkerEnd(s, p).value <= g && IdRunAt(s, g)
    && '\n' !in s[MarkerEnd(s, p).value..g]
  }

  /** The lazy `.*?` followed by the group: the first id run at or after `q`
      that is reached without crossing a newline. */
  function LazyIdFrom(s: string, q: nat): (g: Option<nat>)
    requires q <= |s|
    ensures g.Some? ==> q <= g.value && IdRunAt(s, g.value) && '\n' !in s[q..g.value]
    ensures g.Some? ==> forall k :: q <= k < g.value ==> !IdRunAt(s, k)
    ensures g.None? ==> forall k :: q <= k <= |s| && '\n' !in s[q..k] ==> !IdRunAt(s, k)
    decreases |s| - q
  {
    if IdRunAt(s, q) then Some(q)
    else if q < |s| && s[q] != '\n' then
      var r := LazyIdFrom(s, q + 1);
      assert forall k :: q + 1 <= k <= |s| ==> s[q..k] == [s[q]] + s[q + 1..k];
      r
    else
      assert forall k :: q < k <= |s| ==> s[q..k][0] == s[q];
      None
  }

  /** `re.search`: the leftmost marker position that has a match, and the
      group the lazy `.*?` settles on there. */
  function SearchFrom(s: string, p: nat): (m: Option<(nat, nat)>)
    requires p <= |s|
    ensures m.Some? ==> p <= m.value.0 && MatchesAt(s, m.value.0, m.value.1)
    ensures m.Some? ==> forall p', g :: p <= p' < m.value.0 ==> !MatchesAt(s, p', g)
    ensures m.Some? ==> forall g: nat :: g < m.value.1 ==> !MatchesAt(s, m.value.0, g)
    ensures m.None? ==> forall p', g :: p <= p' ==> !MatchesAt(s, p', g)
    decreases |s| - p
  {
    var here := match MarkerEnd(s, p) case Some(q) => LazyIdFrom(s, q) case None => None;
    if here.Some? then Some((p, here.value))
    else if p < |s| then SearchFrom(s, p + 1)
    else None
  }

  /** The id the rewrite pattern captures, if it matches. */
  function MusicId(url: string): (r: Option<string>)
    ensures r.Some? ==> IsVideoId(r.value)
    ensures r.None? <==> forall p, g :: !MatchesAt(url, p, g)
    ensures r.Some? ==> exists p: nat, g: nat :: (MatchesAt(url, p, g) && r.value == url[g..g + IdLength]
      && (forall p': nat, g': nat :: p' < p ==> !MatchesAt(url, p', g'))
      && forall g': nat :: g' < g ==> !MatchesAt(url, p, g'))
  {
    match SearchFrom(url, 0)
    case Some((_, g)) => Some(url[g..g + IdLength])
    case None => None
  }

  /** A music.youtube.com watch URL for an 11-character id. */
  predicate IsMusicWatchUrl(u: string) {
    |u| == |MusicWatchPrefix| + IdLength && u[..|MusicWatchPrefix|] == MusicWatchPrefix
    && IsVideoId(u[|MusicWatchPrefix|..])
  }

  /** `maybe_rewrite_to_ytmusic(url, prefer_music)` */
  function MaybeRewriteToYtMusic(url: string, preferMusic: bool): (r: string)
    ensures !preferMusic || MusicId(url).None? ==> r == url
    ensures preferMusic && MusicId(url).Some? ==> IsMusicWatchUrl(r) && r[|MusicWatchPrefix|..] == MusicId(url).value
  {
    if !preferMusic then url
    else match MusicId(url)
      case None => url
      case Some(vid) => MusicWatchPrefix + vid
  }

  lemma {:induction false} SearchSkip(s: string, p: nat, t: nat)
    requires p <= t <= |s|
    requires forall k :: p <= k < t ==> MarkerEnd(s, k).None?
    ensures SearchFrom(s, p) == SearchFrom(s, t)
    decreases t - p
  {
    if p < t { SearchSkip(s, p + 1, t); }
  }

  lemma {:induction false} LazySkip(s: string, q: nat, t: nat)
    requires q <= t <= |s|
    requires forall k :: q <= k < t ==> !IdRunAt(s, k) && s[k] != '\n'
    ensures LazyIdFrom(s, q) == LazyIdFrom(s, t)
    decreases t - q
  {
    if q < t { LazySkip(s, q + 1, t); }
  }

  const WatchPath := "youtube.com/watch?v="

  /** No marker starts at a character other than 'y'. */
  lemma NoMarkerAt(s: string, k: nat)
    requires k < |s| && s[k] != 'y'
    ensures MarkerEnd(s, k).None?
  {
  }

  /** No id run covers a non-alphabet character. */
  lemma NoIdRunOver(s: string, k: nat, e: nat)
    requires k <= e < |s| && e < k + IdLength && !IsIdChar(s[e])
    ensures !IdRunAt(s, k)
  {
  }

  /** The text of `head + "youtube.com/watch?v=" + id` around the marker. */
  lemma CanonicalLayout(head: string, id: string)
    requires |id| == IdLength
    ensures var s := head + WatchPath + id; var h := |head|;
      |s| == h + 31 && s[h..h + 11] == "youtube.com" && s[h + 19] == '='
      && s[h + 20..h + 31] == id
      && (forall k :: 0 <= k < h ==> s[k] == head[k])
      && (forall k :: h + 11 <= k < h + 20 ==> s[k] == WatchPath[k - h])
  {
  }

  /** In `head + "youtube.com/watch?v=" + id`, where `head` has no 'y', the
      pattern matches at the marker after `head` and captures exactly `id`. */
  lemma {:induction false} CanonicalUrlMatch(head: string, id: string)
    requires 'y' !in head && IsVideoId(id)
    ensures SearchFrom(head + WatchPath + id, 0) == Some((|head|, |head| + 20))
  {
    var s := head + WatchPath + id;
    var h := |head|;
    CanonicalLayout(head, id);
    forall k | 0 <= k < h ensures MarkerEnd(s, k).None? {
      NoMarkerAt(s, k);
    }
    SearchSkip(s, 0, h);
    assert StartsWithAt(s, h, "youtube.com");
    forall k | h + 11 <= k < h + 20 ensures !IdRunAt(s, k) && s[k] != '\n' {
      NoIdRunOver(s, k, h + 19);
    }
    LazySkip(s, h + 11, h + 20);
    assert IdRunAt(s, h + 20);
  }

  /** The canonical watch URL built from an id is rewritten to the music URL
      of the same id: resolution and rewriting agree on the identifier. */
  lemma {:induction false} RewriteOfWatchUrl(vid: string)
    requires IsVideoId(vid)
    ensures MusicId(WatchPrefix + vid) == Some(vid)
    ensures MaybeRewriteToYtMusic(WatchPrefix + vid, true) == MusicWatchPrefix + vid
  {
    WatchPrefixParts();
    CanonicalUrlMatch("https://www.", vid);
    assert (WatchPrefix + vid)[32..43] == vid;
  }

  /** The watch prefix is the www host before the watch path. */
  lemma WatchPrefixParts()
    ensures WatchPrefix == "https://www." + WatchPath
  {
  }

  /** The music watch prefix is the music host before the watch path. */
  lemma MusicPrefixParts()
    ensures MusicWatchPrefix == "https://music." + WatchPath
  {
  }

  /** A music watch URL captures its own id. */
  lemma MusicUrlId(vid: string)
    requires IsVideoId(vid)
    ensures MusicId(MusicWatchPrefix + vid) == Some(vid)
  {
    MusicPrefixParts();
    CanonicalUrlMatch("https://music.", vid);
    assert (MusicWatchPrefix + vid)[34..45] == vid;
  }

  /** Rewriting is idempotent: the output captures its own id again. */
  lemma RewriteIdempotent(url: string, preferMusic: bool)
    ensures MaybeRewriteToYtMusic(MaybeRewriteToYtMusic(url, preferMusic), preferMusic)
         == MaybeRewriteToYtMusic(url, preferMusic)
  {
    if preferMusic && MusicId(url).Some? {
      MusicUrlId(MusicId(url).value);
    }
  }

  // ---------------------------------------------------------------------------
  // The yt-dlp options, typed

  /** One option group `build_ytdlp_cmd` can add between the fixed prefix
      and the URL. */
  datatype Flag =
    | AudioQuality(quality: string)
    | Cookies(path: string)
    | LimitRate(rate: string)
    | MinSleepInterval(lo: string)
    | MaxSleepInterval(hi: string)
    | SleepInterval(seconds: string)
    | SkipDownload

  function Words(f: Flag): seq<string> {
    match f
    case AudioQuality(q) => ["--audio-quality", q]
    case Cookies(c) => ["--cookies", c]
    case LimitRate(r) => ["--limit-rate", r]
    case MinSleepInterval(lo) => ["--min-sleep-interval", lo]
    case MaxSleepInterval(hi) => ["--max-sleep-interval", hi]
    case SleepInterval(s) => ["--sleep-interval", s]
    case SkipDownload => ["--skip-download"]
  }

  function Render(fs: seq<Flag>): seq<string> {
    if fs == [] then [] else Words(fs[0]) + Render(fs[1..])
  }

  lemma {:induction false} RenderAppend(a: seq<Flag>, b: seq<Flag>)
    ensures Render(a + b) == Render(a) + Render(b)
  {
    if a == [] {
      assert a + b == b;
    } else {
      assert (a + b)[1..] == a[1..] + b;
      RenderAppend(a[1..], b);
    }
  }

  predicate IsSleepFlag(f: Flag) {
    f.MinSleepInterval? || f.MaxSleepInterval? || f.SleepInterval?
  }

  /** The flags for the two stripped sides of "lo,hi": a random interval
      when both are set, one fixed interval when only one is. */
  function SleepPair(lo: string, hi: string): (r: seq<Flag>)
    ensures forall i :: 0 <= i < |r| ==> IsSleepFlag(r[i]) && Words(r[i])[1] in {lo, hi} && Words(r[i])[1] != ""
  {
    if lo != "" && hi != "" then [MinSleepInterval(lo), MaxSleepInterval(hi)]
    else if lo != "" || hi != "" then [SleepInterval(if lo != "" then lo else hi)]
    else []
  }

  /** `_add_sleep_flags`' choice, as flags: strip the setting; "lo,hi" splits
      at the first comma and each side is stripped again. */
  function SleepFlags(sleep: Option<string>): (r: seq<Flag>)
    ensures forall i :: 0 <= i < |r| ==> IsSleepFlag(r[i]) && Trimmed(Words(r[i])[1]) && Words(r[i])[1] != ""
  {
    var s := Strip(sleep.GetOr(""));
    if s == "" then []
    else if ',' in s then
      var i := IndexOfChar(s, ',');
      SleepPair(Strip(s[..i]), Strip(s[i + 1..]))
    else [SleepInterval(s)]
  }

  /** Leading whitespace does not change what `strip` returns. */
  lemma StripAfterSpace(pre: string, m: string)
    requires AllSpace(pre)
    ensures Strip(pre + m) == Strip(m)
  {
    StripSurrounded(pre, m, []);
    assert pre + m + [] == pre + m;
  }

  /** Trailing whitespace does not change what `strip` returns. */
  lemma StripBeforeSpace(m: string, post: string)
    requires AllSpace(post)
    ensures Strip(m + post) == Strip(m)
  {
    StripSurrounded([], m, post);
    assert [] + m + post == m + post;
  }

  /** The sides "lo,hi" splits into, each stripped: for the stripped
      setting `s` of `a + "," + b` and its first comma `i`, they are `a` and
      `b` stripped, whatever whitespace surrounds the whole. */
  lemma SleepSidesAt(a: string, b: string, s: string, i: nat)
    requires ',' !in a && s == Strip(a + "," + b) && i == IndexOfChar(s, ',')
    ensures s != "" && ',' in s && i < |s| && Strip(s[..i]) == Strip(a) && Strip(s[i + 1..]) == Strip(b)
  {
    var pre, post := StripDecompose(a + "," + b);
    CommaInside(a, b, pre, s, post);
    assert s[i] == ',';
    LowSide(a, pre, s[..i]);
    HighSide(b, s, i, post);
  }

  /** `a` is its low side behind some whitespace: both strip alike. */
  lemma LowSide(a: string, pre: string, lo: string)
    requires a == pre + lo && AllSpace(pre)
    ensures Strip(lo) == Strip(a)
  {
    StripAfterSpace(pre, lo);
  }

  /** `b` is its high side followed by some whitespace: both strip alike. */
  lemma HighSide(b: string, s: string, i: nat, post: string)
    requires i < |s| && b == s[i + 1..] + post && AllSpace(post)
    ensures Strip(s[i + 1..]) == Strip(b)
  {
    StripBeforeSpace(s[i + 1..], post);
  }

  /** A setting without a comma is one fixed interval, the stripped value;
      a blank setting adds nothing. */
  lemma SleepWithoutComma(x: string)
    requires ',' !in x
    ensures SleepFlags(Some(x)) == if Strip(x) == "" then [] else [SleepInterval(Strip(x))]
  {
    var pre, post := StripDecompose(x);
  }

  /** The comma of `a + "," + b` is not whitespace, so it lies in the middle
      of any whitespace / middle / whitespace decomposition of that text. */
  lemma CommaBounds(a: string, b: string, pre: string, s: string, post: string)
    requires a + "," + b == pre + s + post
    requires AllSpace(pre) && AllSpace(post)
    ensures |pre| <= |a| < |pre| + |s| && s[|a| - |pre|] == ','
  {
    var x := a + "," + b;
    assert x[|a|] == ',';
    assert |pre| <= |a| < |pre| + |s|;
    assert s[|a| - |pre|] == x[|a|];
  }

  /** Cutting `pre + s + post` at the position of a known separator. */
  lemma CutAt<T>(x: seq<T>, a: seq<T>, c: T, b: seq<T>, pre: seq<T>, s: seq<T>, post: seq<T>)
    requires x == a + [c] + b && x == pre + s + post && |pre| <= |a| < |pre| + |s|
    ensures a == pre + s[..|a| - |pre|] && b == s[|a| - |pre| + 1..] + post
  {
    var i := |a| - |pre|;
    assert a == x[..|a|];
    assert x[..|a|] == pre + s[..i];
    assert b == x[|a| + 1..];
    assert x[|a| + 1..] == s[i + 1..] + post;
  }

  /** Cutting the middle at its first comma gives `a` and `b` less their
      outer whitespace. */
  lemma CommaInside(a: string, b: string, pre: string, s: string, post: string)
    requires ',' !in a && a + "," + b == pre + s + post
    requires AllSpace(pre) && AllSpace(post)
    ensures |pre| <= |a| < |pre| + |s|
    ensures IndexOfChar(s, ',') == |a| - |pre|
    ensures a == pre + s[..|a| - |pre|] && b == s[|a| - |pre| + 1..] + post
  {
    CommaBounds(a, b, pre, s, post);
    CutAt(a + "," + b, a, ',', b, pre, s, post);
  }

  /** Only the first comma splits, and the surrounding whitespace of the whole
      setting does not matter: `a,b` gives a random interval when both sides
      strip to something, one fixed interval when only one does. */
  lemma SleepWithComma(a: string, b: string)
    requires ',' !in a
    ensures SleepFlags(Some(a + "," + b)) ==
      var lo, hi := Strip(a), Strip(b);
      if lo != "" && hi != "" then [MinSleepInterval(lo), MaxSleepInterval(hi)]
      else if lo != "" then [SleepInterval(lo)]
      else if hi != "" then [SleepInterval(hi)]
      else []
  {
    var x := a + "," + b;
    var s := Strip(x);
    var i := IndexOfChar(s, ',');
    SleepSidesAt(a, b, s, i);
    SleepFlagsAtComma(x, s, i);
    SleepPairCases(Strip(a), Strip(b));
  }

  /** A stripped setting with a comma gives the flags of its two sides. */
  lemma SleepFlagsAtComma(x: string, s: string, i: nat)
    requires s == Strip(x) && s != "" && ',' in s && i == IndexOfChar(s, ',') && i < |s|
    ensures SleepFlags(Some(x)) == SleepPair(Strip(s[..i]), Strip(s[i + 1..]))
  {
  }

  /** SleepPair written out case by case. */
  lemma SleepPairCases(lo: string, hi: string)
    ensures SleepPair(lo, hi) ==
      if lo != "" && hi != "" then [MinSleepInterval(lo), MaxSleepInterval(hi)]
      else if lo != "" then [SleepInterval(lo)]
      else if hi != "" then [SleepInterval(hi)]
      else []
  {
  }

  // ---------------------------------------------------------------------------
  // build_ytdlp_cmd

  /** The download settings `main` passes to every `download_track`; the
      cookie file's existence on disk is given as `cookieFileExists`. */
  datatype DownloadConfig = DownloadConfig(
    audioFormat: string,
    audioQuality: Option<string>,
    cookies: Option<string>,
    cookieFileExists: bool,
    rateLimit: Option<string>,
    sleep: Option<string>,
    preferMusic: bool,
    dryRun: bool)

  /** The fixed first fourteen arguments. */
  function CommandPrefix(audioFormat: string, outtmpl: string): (r: seq<string>)
    ensures |r| == 14 && r[0] == "yt-dlp" && r[4] == audioFormat && r[12..] == ["-o", outtmpl]
  {
    ["yt-dlp", "--no-playlist", "-x", "--audio-format", audioFormat, "--embed-metadata",
     "--embed-thumbnail", "--add-metadata", "--no-abort-on-error", "--no-overwrites",
     "--print", "filename", "-o", outtmpl]
  }

  predicate WantsQuality(cfg: DownloadConfig) {
    Lower(cfg.audioFormat) == "mp3" && Truthy(cfg.audioQuality)
  }

  predicate UsesCookies(cfg: DownloadConfig) {
    Truthy(cfg.cookies) && cfg.cookieFileExists
  }

  function QualityFlags(cfg: DownloadConfig): seq<Flag> {
    if WantsQuality(cfg) then [AudioQuality(cfg.audioQuality.value)] else []
  }

  function CookieFlags(cfg: DownloadConfig): seq<Flag> {
    if UsesCookies(cfg) then [Cookies(cfg.cookies.value)] else []
  }

  function RateFlags(cfg: DownloadConfig): seq<Flag> {
    if Truthy(cfg.rateLimit) then [LimitRate(cfg.rateLimit.value)] else []
  }

  function DryRunFlags(cfg: DownloadConfig): seq<Flag> {
    if cfg.dryRun then [SkipDownload] else []
  }

  /** The options between the prefix and the URL, in the order the source adds them. */
  function OptionFlags(cfg: DownloadConfig): seq<Flag> {
    QualityFlags(cfg) + CookieFlags(cfg) + RateFlags(cfg) + SleepFlags(cfg.sleep) + DryRunFlags(cfg)
  }

  /** The argument list `build_ytdlp_cmd` returns. */
  function YtdlpCommand(url: string, outtmpl: string, cfg: DownloadConfig): seq<string> {
    CommandPrefix(cfg.audioFormat, outtmpl) + Render(OptionFlags(cfg)) + [MaybeRewriteToYtMusic(url, cfg.preferMusic)]
  }

  /** A flag that is not a sleep flag lies in the option list exactly when
      it lies in one of the other groups. */
  lemma OutsideSleepGroup(f: Flag, q: seq<Flag>, c: seq<Flag>, r: seq<Flag>, sl: seq<Flag>, d: seq<Flag>)
    requires !IsSleepFlag(f)
    requires forall i :: 0 <= i < |sl| ==> IsSleepFlag(sl[i])
    ensures f in q + c + r + sl + d <==> f in q || f in c || f in r || f in d
  {
    forall g | g in sl ensures IsSleepFlag(g) {
      var i :| 0 <= i < |sl| && sl[i] == g;
    }
  }

  /** No element of `fs` is a sleep flag. */
  predicate NoSleepFlag(fs: seq<Flag>) {
    forall i :: 0 <= i < |fs| ==> !IsSleepFlag(fs[i])
  }

  /** A sleep flag lies in the option list exactly when it lies in the
      sleep group, when no other group holds one. */
  lemma InsideSleepGroup(f: Flag, q: seq<Flag>, c: seq<Flag>, r: seq<Flag>, sl: seq<Flag>, d: seq<Flag>)
    requires IsSleepFlag(f)
    requires NoSleepFlag(q) && NoSleepFlag(c) && NoSleepFlag(r) && NoSleepFlag(d)
    ensures f in q + c + r + sl + d <==> f in sl
  {
    assert f !in q && f !in c && f !in r && f !in d;
  }

  /** The audio quality is passed exactly for mp3 with a quality set, and
      with that quality. */
  lemma QualityFlagIff(cfg: DownloadConfig, q: string)
    ensures AudioQuality(q) in OptionFlags(cfg) <==> Lower(cfg.audioFormat) == "mp3" && q != "" && cfg.audioQuality == Some(q)
  {
    OutsideSleepGroup(AudioQuality(q), QualityFlags(cfg), CookieFlags(cfg), RateFlags(cfg), SleepFlags(cfg.sleep), DryRunFlags(cfg));
  }

  /** The cookie file is passed exactly when it is set and exists. */
  lemma CookieFlagIff(cfg: DownloadConfig, c: string)
    ensures Cookies(c) in OptionFlags(cfg) <==> c != "" && cfg.cookies == Some(c) && cfg.cookieFileExists
  {
    OutsideSleepGroup(Cookies(c), QualityFlags(cfg), CookieFlags(cfg), RateFlags(cfg), SleepFlags(cfg.sleep), DryRunFlags(cfg));
  }

  /** The rate limit is passed exactly when it is set. */
  lemma RateFlagIff(cfg: DownloadConfig, r: string)
    ensures LimitRate(r) in OptionFlags(cfg) <==> r != "" && cfg.rateLimit == Some(r)
  {
    OutsideSleepGroup(LimitRate(r), QualityFlags(cfg), CookieFlags(cfg), RateFlags(cfg), SleepFlags(cfg.sleep), DryRunFlags(cfg));
  }

  /** `--skip-download` is passed exactly on a dry run. */
  lemma DryRunFlagIff(cfg: DownloadConfig)
    ensures SkipDownload in OptionFlags(cfg) <==> cfg.dryRun
  {
    OutsideSleepGroup(SkipDownload, QualityFlags(cfg), CookieFlags(cfg), RateFlags(cfg), SleepFlags(cfg.sleep), DryRunFlags(cfg));
  }

  /** The sleep options are exactly those `SleepFlags` chooses. */
  lemma SleepFlagsIff(cfg: DownloadConfig, f: Flag)
    requires IsSleepFlag(f)
    ensures f in OptionFlags(cfg) <==> f in SleepFlags(cfg.sleep)
  {
    InsideSleepGroup(f, QualityFlags(cfg), CookieFlags(cfg), RateFlags(cfg), SleepFlags(cfg.sleep), DryRunFlags(cfg));
  }

  lemma RenderOne(f: Flag)
    ensures Render([f]) == Words(f)
  {
    assert [f][1..] == [];
  }

  lemma RenderPair(f: Flag, g: Flag)
    ensures Render([f, g]) == Words(f) + Words(g)
  {
    assert [f, g][1..] == [g];
    RenderOne(g);
  }

  /** The rendered options are the rendered groups, in order. */
  lemma RenderOptionFlags(cfg: DownloadConfig)
    ensures Render(OptionFlags(cfg)) == Render(QualityFlags(cfg)) + Render(CookieFlags(cfg))
      + Render(RateFlags(cfg)) + Render(SleepFlags(cfg.sleep)) + Render(DryRunFlags(cfg))
  {
    var q, c, r, s, d := QualityFlags(cfg), CookieFlags(cfg), RateFlags(cfg), SleepFlags(cfg.sleep), DryRunFlags(cfg);
    RenderAppend(q + c + r + s, d);
    RenderAppend(q + c + r, s);
    RenderAppend(q + c, r);
    RenderAppend(q, c);
  }

  /** The `cmd` list that `build_ytdlp_cmd` grows and `_add_sleep_flags`
      extends in place. */
  class ArgList {
    var items: seq<string>

    constructor (init: seq<string>)
      ensures items == init
    {
      items := init;
    }

    /** `cmd.extend(xs)` */
    method Extend(xs: seq<string>)
      modifies this
      ensures items == old(items) + xs
    {
      items := items + xs;
    }

    /** `cmd.append(x)` */
    method Append(x: string)
      modifies this
      ensures items == old(items) + [x]
    {
      items := items + [x];
    }
  }

  /** The words `SleepFlags` renders to, for each way the setting can look. */
  lemma SleepWordsBlank(sleep: Option<string>)
    requires Strip(sleep.GetOr("")) == ""
    ensures Render(SleepFlags(sleep)) == []
  {
  }

  lemma SleepWordsSplit(sleep: Option<string>, s: string, i: nat, lo: string, hi: string)
    requires s == Strip(sleep.GetOr("")) && s != "" && ',' in s && i == IndexOfChar(s, ',')
    requires i < |s| && lo == Strip(s[..i]) && hi == Strip(s[i + 1..])
    ensures Render(SleepFlags(sleep)) == Render(SleepPair(lo, hi))
  {
  }

  lemma SleepWordsSingle(sleep: Option<string>, s: string)
    requires s == Strip(sleep.GetOr("")) && s != "" && ',' !in s
    ensures Render(SleepFlags(sleep)) == ["--sleep-interval", s]
  {
    RenderOne(SleepInterval(s));
  }

  /** The "lo,hi" branch of `_add_sleep_flags`, on the two stripped sides. */
  method AddSleepPair(cmd: ArgList, lo: string, hi: string)
    modifies cmd
    ensures cmd.items == old(cmd.items) + Render(SleepPair(lo, hi))
  {
    if lo != "" && hi != "" {
      RenderPair(MinSleepInterval(lo), MaxSleepInterval(hi));
      cmd.Extend(["--min-sleep-interval", lo, "--max-sleep-interval", hi]);
    } else if lo != "" || hi != "" {
      RenderOne(SleepInterval(if lo != "" then lo else hi));
      cmd.Extend(["--sleep-interval", if lo != "" then lo else hi]);
    } else {
      assert cmd.items + [] == cmd.items;
    }
  }

  /** `_add_sleep_flags(cmd, sleep)` */
  method AddSleepFlags(cmd: ArgList, sleep: Option<string>)
    modifies cmd
    ensures cmd.items == old(cmd.items) + Render(SleepFlags(sleep))
  {
    var s := Strip(sleep.GetOr(""));
    if s == "" {
      SleepWordsBlank(sleep);
      assert cmd.items + [] == cmd.items;
      return;
    }
    if ',' in s {
      var i := IndexOfChar(s, ',');
      var lo, hi := Strip(s[..i]), Strip(s[i + 1..]);
      SleepWordsSplit(sleep, s, i, lo, hi);
      AddSleepPair(cmd, lo, hi);
    } else {
      SleepWordsSingle(sleep, s);
      cmd.Extend(["--sleep-interval", s]);
    }
  }

  lemma Regroup6(p: seq<string>, a: seq<string>, b: seq<string>, c: seq<string>, d: seq<string>, e: seq<string>)
    ensures p + a + b + c + d + e == p + (a + b + c + d + e)
  {
  }

  /** The quality, cookie and rate-limit steps of `build_ytdlp_cmd`. */
  method AddValueOptions(args: ArgList, cfg: DownloadConfig)
    modifies args
    ensures args.items == old(args.items) + Render(QualityFlags(cfg)) + Render(CookieFlags(cfg)) + Render(RateFlags(cfg))
  {
    ghost var start := args.items;
    if Lower(cfg.audioFormat) == "mp3" && Truthy(cfg.audioQuality) {
      args.Extend(["--audio-quality", cfg.audioQuality.value]);
      RenderOne(AudioQuality(cfg.audioQuality.value));
    }
    ghost var opts := Render(QualityFlags(cfg));
    assert args.items == start + opts;
    if Truthy(cfg.cookies) && cfg.cookieFileExists {
      args.Extend(["--cookies", cfg.cookies.value]);
      RenderOne(Cookies(cfg.cookies.value));
    }
    opts := opts + Render(CookieFlags(cfg));
    assert args.items == start + opts;
    if Truthy(cfg.rateLimit) {
      args.Extend(["--limit-rate", cfg.rateLimit.value]);
      RenderOne(LimitRate(cfg.rateLimit.value));
    }
  }

  /** The dry-run step of `build_ytdlp_cmd`. */
  method AddDryRun(args: ArgList, cfg: DownloadConfig)
    modifies args
    ensures args.items == old(args.items) + Render(DryRunFlags(cfg))
  {
    if cfg.dryRun {
      args.Append("--skip-download");
      RenderOne(SkipDownload);
    } else {
      assert args.items + [] == args.items;
    }
  }

  /** The option steps of `build_ytdlp_cmd`, from the audio quality to the
      dry-run flag. */
  method AddOptions(args: ArgList, cfg: DownloadConfig)
    modifies args
    ensures args.items == old(args.items) + Render(OptionFlags(cfg))
  {
    ghost var start := args.items;
    AddValueOptions(args, cfg);
    AddSleepFlags(args, cfg.sleep);
    AddDryRun(args, cfg);
    RenderOptionFlags(cfg);
    Regroup6(start, Render(QualityFlags(cfg)), Render(CookieFlags(cfg)),
      Render(RateFlags(cfg)), Render(SleepFlags(cfg.sleep)), Render(DryRunFlags(cfg)));
  }

  /** `build_ytdlp_cmd` after the rewrite: the prefix, the options, and the
      URL `u` to fetch. */
  method AssembleCmd(prefix: seq<string>, cfg: DownloadConfig, u: string) returns (cmd: seq<string>)
    ensures cmd == prefix + Render(OptionFlags(cfg)) + [u]
  {
    var args := new ArgList(prefix);
    AddOptions(args, cfg);
    args.Append(u);
    cmd := args.items;
  }

  /** `build_ytdlp_cmd(url, outtmpl, ...)` */
  method BuildYtdlpCmd(url: string, outtmpl: string, cfg: DownloadConfig) returns (cmd: seq<string>)
    ensures cmd == YtdlpCommand(url, outtmpl, cfg)
    ensures |cmd| >= 15 && cmd[..14] == CommandPrefix(cfg.audioFormat, outtmpl)
    ensures cmd[|cmd| - 1] == MaybeRewriteToYtMusic(url, cfg.preferMusic)
  {
    var u := MaybeRewriteToYtMusic(url, cfg.preferMusic);
    var prefix := CommandPrefix(cfg.audioFormat, outtmpl);
    cmd := AssembleCmd(prefix, cfg, u);
    CommandShape(prefix, Render(OptionFlags(cfg)), u);
  }

  /** A command made of a prefix, options and a last word starts with the
      prefix and ends with that word. */
  lemma CommandShape<T>(prefix: seq<T>, opts: seq<T>, u: T)
    ensures var c := prefix + opts + [u];
      |c| == |prefix| + |opts| + 1 && c[..|prefix|] == prefix && c[|c| - 1] == u
  {
    var c := prefix + opts + [u];
    assert c == prefix + (opts + [u]);
    assert c[..|prefix|] == prefix;
  }

  // ---------------------------------------------------------------------------
  // run_cmd and download_track

  /** `run_cmd`'s value: the exit code and stripped stdout; 127 when yt-dlp is
      missing, 1 when launching fails otherwise (both with empty output). */
  function RunCmd(p: ProcessResult): (r: (int, string))
    ensures Trimmed(r.1)
    ensures r.0 == 0 ==> p.Exited?
    ensures !p.Exited? ==> r.1 == ""
  {
    match p
    case Exited(rc, out) => (rc, Strip(out))
    case ToolNotFound => (127, "")
    case LaunchFailed => (1, "")
  }

  /** `download_track`'s triple: success, the URL as given, and the printed
      file path when there is one. */
  datatype TrackOutcome = TrackOutcome(ok: bool, url: string, path: Option<Path>)

  /** yt-dlp's output template under the output directory. */
  function OutputTemplate(outputDir: Path): string {
    PathString(JoinPath(JoinPath(JoinPath(outputDir, "%(artist|album_artist|uploader|channel)s"),
      "%(album|playlist_title|uploader)s"), "%(track|title)s.%(ext)s"))
  }

  /** What `download_track` returns for `url` when running an argument list
      gives `run` of it: ok exactly on exit code 0, and the printed path only
      then and only when something was printed. */
  function DownloadOutcome(url: string, outputDir: Path, cfg: DownloadConfig, run: seq<string> -> ProcessResult): (res: TrackOutcome)
    ensures res.url == url
    ensures var (rc, out) := RunCmd(run(YtdlpCommand(url, OutputTemplate(outputDir), cfg)));
      && (res.ok <==> rc == 0)
      && (res.path.Some? <==> rc == 0 && out != "")
      && (res.path.Some? ==> res.path.value == ParsePath(out))
  {
    var (rc, out) := RunCmd(run(YtdlpCommand(url, OutputTemplate(outputDir), cfg)));
    TrackOutcome(rc == 0, url, if rc == 0 && out != "" then Some(ParsePath(out)) else None)
  }

  /** A failed download never carries a path, and a path is always a parsed,
      valid path. */
  lemma OutcomePathOnlyOnSuccess(url: string, outputDir: Path, cfg: DownloadConfig, run: seq<string> -> ProcessResult)
    ensures var res := DownloadOutcome(url, outputDir, cfg, run);
      (!res.ok ==> res.path.None?) && (res.path.Some? ==> ValidPath(res.path.value))
  {
  }

  /** `download_track(...)`; `run` stands for executing the argument list. */
  method DownloadTrack(url: string, outputDir: Path, cfg: DownloadConfig, run: seq<string> -> ProcessResult)
    returns (res: TrackOutcome)
    ensures res == DownloadOutcome(url, outputDir, cfg, run)
  {
    var outtmpl := OutputTemplate(outputDir);
    var cmd := BuildYtdlpCmd(url, outtmpl, cfg);
    var (rc, downloaded) := RunCmd(run(cmd));
    var path: Option<Path> := None;
    if rc == 0 && downloaded != "" {
      path := Some(ParsePath(downloaded));
    }
    res := TrackOutcome(rc == 0, url, path);
  }
}
