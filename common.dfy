/** Shared vocabulary of the YouTube Music tools: optional values, Python's
    truthiness of optional strings, the video-id alphabet, Python's
    `str.strip()` and `str.lower()`, code-point string order, the search for an
    11-character id run, and the playlist records the converters emit. */
module Common {

  datatype Option<T> = None | Some(value: T) {
    function GetOr(default: T): T {
      match this
      case Some(v) => v
      case None => default
    }
  }

  /** How a process launch ended: the exit code and captured stdout, or the
      tool could not be found, or launching it raised some other error. */
  datatype ProcessResult = Exited(returnCode: int, stdout: string) | ToolNotFound | LaunchFailed

  /** Python truthiness of an optional string: present and non-empty. */
  predicate Truthy(o: Option<string>) {
    o.Some? && o.value != ""
  }

  // ---------------------------------------------------------------------------
  // The video-id alphabet [A-Za-z0-9_-] and 11-character ids

  const IdLength: nat := 11

  predicate IsIdChar(c: char) {
    ('A' <= c <= 'Z') || ('a' <= c <= 'z') || ('0' <= c <= '9') || c == '_' || c == '-'
  }

  /** `re.fullmatch(r"[A-Za-z0-9_-]{11}", s)` */
  predicate IsVideoId(s: string) {
    |s| == IdLength && forall i :: 0 <= i < |s| ==> IsIdChar(s[i])
  }

  /** An id run of 11 alphabet characters starts at position `i` of `s`. */
  predicate IdRunAt(s: string, i: nat) {
    i + IdLength <= |s| && IsVideoId(s[i..i + IdLength])
  }

  /** Leftmost start at or after `from` of an 11-character id run. */
  function IdRunFrom(s: string, from: nat): (r: Option<nat>)
    requires from <= |s|
    ensures r.Some? ==> from <= r.value && IdRunAt(s, r.value)
    ensures r.Some? ==> forall k :: from <= k < r.value ==> !IdRunAt(s, k)
    ensures r.None? ==> forall k :: from <= k <= |s| ==> !IdRunAt(s, k)
    decreases |s| - from
  {
    if IdRunAt(s, from) then Some(from)
    else if from == |s| then None
    else IdRunFrom(s, from + 1)
  }

  /** `re.search(r"[A-Za-z0-9_-]{11}", s)`, returning the matched text. */
  function FirstIdRun(s: string): (r: Option<string>)
    ensures r.Some? ==> IsVideoId(r.value)
    ensures r.Some? <==> exists k :: 0 <= k <= |s| && IdRunAt(s, k)
    ensures r.Some? ==> exists k :: (0 <= k <= |s| && IdRunAt(s, k) && r.value == s[k..k + IdLength]
      && forall j :: 0 <= j < k ==> !IdRunAt(s, j))
  {
    match IdRunFrom(s, 0)
    case Some(k) => Some(s[k..k + IdLength])
    case None => None
  }

  // ---------------------------------------------------------------------------
  // Python's str.strip(): the characters for which str.isspace() holds

  predicate IsSpace(c: char) {
    c == ' ' || ('\t' <= c <= '\r') || ('\U{1c}' <= c <= '\U{1f}') || c == '\U{85}' || c == '\U{a0}'
    || c == '\U{1680}' || ('\U{2000}' <= c <= '\U{200a}') || c == '\U{2028}' || c == '\U{2029}'
    || c == '\U{202f}' || c == '\U{205f}' || c == '\U{3000}'
  }

  predicate AllSpace(s: string) {
    forall i :: 0 <= i < |s| ==> IsSpace(s[i])
  }

  /** Neither end of `s` is whitespace. */
  predicate Trimmed(s: string) {
    s == [] || (!IsSpace(s[0]) && !IsSpace(s[|s| - 1]))
  }

  /** Index of the first non-whitespace character, or `|s|`. */
  function LeadingSpaces(s: string): (n: nat)
    ensures n <= |s|
    ensures AllSpace(s[..n])
    ensures n < |s| ==> !IsSpace(s[n])
    decreases |s|
  {
    if s == [] || !IsSpace(s[0]) then 0 else 1 + LeadingSpaces(s[1..])
  }

  /** Index where the trailing whitespace run begins. */
  function TrailingStart(s: string): (n: nat)
    ensures n <= |s|
    ensures AllSpace(s[n..])
    ensures n > 0 ==> !IsSpace(s[n - 1])
    decreases |s|
  {
    if s == [] || !IsSpace(s[|s| - 1]) then |s| else
      var n := TrailingStart(s[..|s| - 1]);
      TrailingStep(s, n);
      n
  }

  /** A whitespace character after the trailing run of `s` less its last
      character extends that run. */
  lemma TrailingStep(s: string, n: nat)
    requires s != [] && IsSpace(s[|s| - 1]) && n <= |s| - 1
    requires AllSpace(s[..|s| - 1][n..])
    requires n > 0 ==> !IsSpace(s[..|s| - 1][n - 1])
    ensures AllSpace(s[n..]) && (n > 0 ==> !IsSpace(s[n - 1]))
  {
    assert s[n..] == s[..|s| - 1][n..] + [s[|s| - 1]];
    if n > 0 { assert s[..|s| - 1][n - 1] == s[n - 1]; }
  }

  /** `s.strip()` */
  function Strip(s: string): (r: string)
    ensures Trimmed(r)
    ensures |r| <= |s|
  {
    var i := LeadingSpaces(s);
    if i == |s| then [] else
      var j := TrailingStart(s);
      assert i < j;
      s[i..j]
  }

  lemma AllSpaceConcat(x: string, y: string)
    requires AllSpace(x) && AllSpace(y)
    ensures AllSpace(x + y)
  {
    forall k | 0 <= k < |x + y| ensures IsSpace((x + y)[k]) {
      if k >= |x| { assert (x + y)[k] == y[k - |x|]; }
    }
  }

  /** `strip` returns exactly the trimmed text between two whitespace runs. */
  lemma StripExact(a: string, m: string, b: string)
    requires AllSpace(a) && AllSpace(b) && Trimmed(m)
    ensures Strip(a + m + b) == m
  {
    var s := a + m + b;
    if m == [] {
      assert s == a + b;
      AllSpaceConcat(a, b);
    } else {
      assert s == a + (m + b);
      LeadingOf(a, m + b);
      TrailingOf(a + m, b);
      assert s[|a|..|a| + |m|] == m;
    }
  }

  /** The leading whitespace of `a + r` is `a` when `r` starts otherwise. */
  lemma {:induction false} LeadingOf(a: string, r: string)
    requires AllSpace(a) && r != [] && !IsSpace(r[0])
    ensures LeadingSpaces(a + r) == |a|
    decreases |a|
  {
    if a != [] {
      assert (a + r)[0] == a[0];
      assert (a + r)[1..] == a[1..] + r;
      LeadingOf(a[1..], r);
    } else {
      assert a + r == r;
    }
  }

  /** The trailing whitespace of `l + b` is `b` when `l` ends otherwise. */
  lemma {:induction false} TrailingOf(l: string, b: string)
    requires AllSpace(b) && l != [] && !IsSpace(l[|l| - 1])
    ensures TrailingStart(l + b) == |l|
    decreases |b|
  {
    if b != [] {
      var s := l + b;
      assert s[|s| - 1] == b[|b| - 1];
      assert s[..|s| - 1] == l + b[..|b| - 1];
      TrailingOf(l, b[..|b| - 1]);
    } else {
      assert l + b == l;
    }
  }

  /** Every string is its stripped text between two whitespace runs. */
  lemma StripDecompose(m: string) returns (pre: string, post: string)
    ensures m == pre + Strip(m) + post
    ensures AllSpace(pre) && AllSpace(post)
  {
    var i := LeadingSpaces(m);
    if i == |m| {
      pre, post := m, [];
    } else {
      var j := TrailingStart(m);
      pre, post := m[..i], m[j..];
      assert m == m[..i] + m[i..j] + m[j..];
    }
  }

  lemma Regroup(a: string, p: string, r: string, q: string, b: string)
    ensures a + (p + r + q) + b == (a + p) + r + (q + b)
  {
  }

  /** `strip` ignores surrounding whitespace: the key fact behind every
      "strip, then test for empty" in the tools. */
  lemma {:induction false} StripSurrounded(a: string, m: string, b: string)
    requires AllSpace(a) && AllSpace(b)
    ensures Strip(a + m + b) == Strip(m)
  {
    var pre, post := StripDecompose(m);
    var r := Strip(m);
    AllSpaceConcat(a, pre);
    AllSpaceConcat(post, b);
    Regroup(a, pre, r, post, b);
    StripExact(a + pre, r, post + b);
  }

  /** A trimmed text strips to itself. */
  lemma StripTrimmed(s: string)
    requires Trimmed(s)
    ensures Strip(s) == s
  {
    assert [] + s + [] == s;
    StripExact([], s, []);
  }

  /** `strip` is idempotent. */
  lemma StripIdempotent(s: string)
    ensures Strip(Strip(s)) == Strip(s)
  {
    StripTrimmed(Strip(s));
  }

  // ---------------------------------------------------------------------------
  // str.lower() restricted to ASCII, and Python's code-point string order

  function LowerChar(c: char): char {
    if 'A' <= c <= 'Z' then (c as int + 32) as char else c
  }

  /** `s.lower()` for ASCII letters (other characters are kept). */
  function Lower(s: string): (r: string)
    ensures |r| == |s|
  {
    seq(|s|, i requires 0 <= i < |s| => LowerChar(s[i]))
  }

  /** `a <= b` on Python strings: lexicographic by code point. */
  predicate LessEq(a: string, b: string)
    decreases |a|
  {
    a == [] || (b != [] && (a[0] < b[0] || (a[0] == b[0] && LessEq(a[1..], b[1..]))))
  }

  lemma {:induction false} LessEqTotal(a: string, b: string)
    ensures LessEq(a, b) || LessEq(b, a)
    decreases |a|
  {
    if a != [] && b != [] && a[0] == b[0] {
      LessEqTotal(a[1..], b[1..]);
    }
  }

  lemma {:induction false} LessEqTransitive(a: string, b: string, c: string)
    requires LessEq(a, b) && LessEq(b, c)
    ensures LessEq(a, c)
    decreases |a|
  {
    if a != [] && b != [] && c != [] && a[0] == b[0] && b[0] == c[0] {
      LessEqTransitive(a[1..], b[1..], c[1..]);
    }
  }

  // ---------------------------------------------------------------------------
  // Small string helpers

  predicate StartsWithAt(s: string, p: nat, w: string) {
    p + |w| <= |s| && s[p..p + |w|] == w
  }

  predicate EndsWith(s: string, w: string) {
    |w| <= |s| && s[|s| - |w|..] == w
  }

  /** Index of the first `c` in `s`, or `|s|` when there is none. */
  function IndexOfChar(s: string, c: char): (k: nat)
    ensures k <= |s|
    ensures k < |s| ==> s[k] == c
    ensures forall i :: 0 <= i < k ==> s[i] != c
    decreases |s|
  {
    if s == [] then 0 else if s[0] == c then 0 else 1 + IndexOfChar(s[1..], c)
  }

  /** `s.replace(from, to)` for single characters. */
  function ReplaceChar(s: string, from: char, to: char): (r: string)
    ensures |r| == |s|
  {
    seq(|s|, i requires 0 <= i < |s| => if s[i] == from then to else s[i])
  }

  // ---------------------------------------------------------------------------
  // A left-to-right filter-and-transform, the shape of every "loop over
  // records, skip some, append a converted one" in the tools

  function FilterMap<T, U>(s: seq<T>, f: T -> Option<U>): (r: seq<U>)
    ensures |r| <= |s|
  {
    if s == [] then [] else
      var rest := FilterMap(s[1..], f);
      match f(s[0])
      case Some(u) => [u] + rest
      case None => rest
  }

  /** The output is in input order: each element comes from an input element,
      and an input element that converts is kept. */
  lemma {:induction false} FilterMapMembers<T, U>(s: seq<T>, f: T -> Option<U>, u: U)
    ensures u in FilterMap(s, f) <==> exists i :: 0 <= i < |s| && f(s[i]) == Some(u)
  {
    if s != [] {
      FilterMapMembers(s[1..], f, u);
      if u in FilterMap(s[1..], f) {
        var i :| 0 <= i < |s[1..]| && f(s[1..][i]) == Some(u);
        assert f(s[i + 1]) == Some(u);
      }
      if exists i :: 0 <= i < |s| && f(s[i]) == Some(u) {
        var i :| 0 <= i < |s| && f(s[i]) == Some(u);
        if i > 0 { assert f(s[1..][i - 1]) == Some(u); }
      }
    }
  }

  lemma {:induction false} FilterMapAppend<T, U>(a: seq<T>, b: seq<T>, f: T -> Option<U>)
    ensures FilterMap(a + b, f) == FilterMap(a, f) + FilterMap(b, f)
  {
    if a == [] {
      assert a + b == b;
    } else {
      assert (a + b)[0] == a[0];
      assert (a + b)[1..] == a[1..] + b;
      FilterMapAppend(a[1..], b, f);
    }
  }

  /** One more element of a loop over `s`. */
  lemma FilterMapSnoc<T, U>(s: seq<T>, i: nat, f: T -> Option<U>)
    requires i < |s|
    ensures FilterMap(s[..i + 1], f) == FilterMap(s[..i], f) + (match f(s[i]) case Some(u) => [u] case None => [])
  {
    assert s[..i + 1] == s[..i] + [s[i]];
    FilterMapAppend(s[..i], [s[i]], f);
  }

  /** Nothing is dropped exactly when every element converts. */
  lemma {:induction false} FilterMapLength<T, U>(s: seq<T>, f: T -> Option<U>)
    ensures |FilterMap(s, f)| == |s| <==> forall i :: 0 <= i < |s| ==> f(s[i]).Some?
  {
    if s != [] {
      FilterMapLength(s[1..], f);
      if f(s[0]).Some? && forall i :: 0 <= i < |s[1..]| ==> f(s[1..][i]).Some? {
        forall i | 0 <= i < |s| ensures f(s[i]).Some? {
          if i > 0 { assert s[i] == s[1..][i - 1]; }
        }
      }
      if forall i :: 0 <= i < |s| ==> f(s[i]).Some? {
        assert f(s[0]).Some?;
        forall i | 0 <= i < |s[1..]| ensures f(s[1..][i]).Some? {
          assert s[1..][i] == s[i + 1];
        }
      }
    }
  }

  /** The first conversion that succeeds, scanning `s` in order. */
  function FirstSome<T, U>(s: seq<T>, f: T -> Option<U>): Option<U> {
    if s == [] then None else if f(s[0]).Some? then f(s[0]) else FirstSome(s[1..], f)
  }

  /** Nothing converts exactly when the scan finds nothing. */
  lemma {:induction false} FirstSomeNone<T, U>(s: seq<T>, f: T -> Option<U>)
    ensures FirstSome(s, f).None? <==> forall i :: 0 <= i < |s| ==> f(s[i]).None?
  {
    if s != [] && f(s[0]).None? {
      FirstSomeNone(s[1..], f);
      assert forall j :: 1 <= j < |s| ==> s[j] == s[1..][j - 1];
    }
  }

  /** Where the scan stops: the element found converts to the result, and no
      earlier one converts. */
  lemma {:induction false} FirstSomeAt<T, U>(s: seq<T>, f: T -> Option<U>) returns (i: nat)
    requires FirstSome(s, f).Some?
    ensures i < |s| && f(s[i]) == FirstSome(s, f)
    ensures forall j :: 0 <= j < i ==> f(s[j]).None?
  {
    if f(s[0]).Some? {
      i := 0;
    } else {
      var k := FirstSomeAt(s[1..], f);
      i := k + 1;
      assert s[i] == s[1..][k];
      forall j | 0 < j < i ensures f(s[j]).None? {
        assert s[j] == s[1..][j - 1];
      }
    }
  }

  /** Some element satisfies `p` exactly when one before the last does or
      the last does. */
  lemma ExistsSnoc<T>(s: seq<T>, init: seq<T>, p: T -> bool)
    requires s != [] && init == s[..|s| - 1]
    ensures (exists i :: 0 <= i < |s| && p(s[i])) <==>
      (exists i :: 0 <= i < |init| && p(init[i])) || p(s[|s| - 1])
  {
    assert forall i :: 0 <= i < |init| ==> init[i] == s[i];
  }

  /** The result of a successful scan is a conversion of some element. */
  lemma FirstSomeFrom<T, U>(s: seq<T>, f: T -> Option<U>)
    ensures FirstSome(s, f).Some? ==> exists i :: 0 <= i < |s| && f(s[i]) == FirstSome(s, f)
  {
    if FirstSome(s, f).Some? {
      var i := FirstSomeAt(s, f);
    }
  }

  /** The multiset of outputs depends only on the multiset of inputs: the
      order in which records arrive does not change what is collected. */
  lemma {:induction false} FilterMapPermutation<T, U>(a: seq<T>, b: seq<T>, f: T -> Option<U>)
    requires multiset(a) == multiset(b)
    ensures multiset(FilterMap(a, f)) == multiset(FilterMap(b, f))
    decreases |a|
  {
    if a != [] {
      assert a[0] in multiset(b);
      var k :| 0 <= k < |b| && b[k] == a[0];
      var rest := b[..k] + b[k + 1..];
      MultisetRemove(b, k);
      assert a == [a[0]] + a[1..];
      assert multiset(a[1..]) == multiset(a) - multiset{a[0]};
      FilterMapPermutation(a[1..], rest, f);
      FilterMapRemove(b, k, f);
      FilterMapAppend([a[0]], a[1..], f);
    } else {
      assert b == [];
    }
  }

  /** A sequence is what lies before position `k`, the element there, and
      what follows. */
  lemma SplitAt<T>(b: seq<T>, k: nat)
    requires k < |b|
    ensures b == b[..k] + [b[k]] + b[k + 1..]
  {
    assert b[..k + 1] == b[..k] + [b[k]];
    assert b == b[..k + 1] + b[k + 1..];
  }

  /** Dropping position `k` drops one occurrence of its element. */
  lemma MultisetRemove<T>(b: seq<T>, k: nat)
    requires k < |b|
    ensures multiset(b[..k] + b[k + 1..]) == multiset(b) - multiset{b[k]}
  {
    SplitAt(b, k);
  }

  /** FilterMap of `b` is, as a multiset, that of `b[k]` and that of the rest. */
  lemma FilterMapRemove<T, U>(b: seq<T>, k: nat, f: T -> Option<U>)
    requires k < |b|
    ensures multiset(FilterMap(b, f)) == multiset(FilterMap([b[k]], f)) + multiset(FilterMap(b[..k] + b[k + 1..], f))
  {
    SplitAt(b, k);
    FilterMapMiddle(b[..k], [b[k]], b[k + 1..], f);
  }

  /** FilterMap of `x + y + z` is, as a multiset, that of `y` and that of `x + z`. */
  lemma FilterMapMiddle<T, U>(x: seq<T>, y: seq<T>, z: seq<T>, f: T -> Option<U>)
    ensures multiset(FilterMap(x + y + z, f)) == multiset(FilterMap(y, f)) + multiset(FilterMap(x + z, f))
  {
    FilterMapAppend(x + y, z, f);
    FilterMapAppend(x, y, f);
    FilterMapAppend(x, z, f);
  }

  // ---------------------------------------------------------------------------
  // The playlist file format shared by the converters and the downloader

  const PlaylistKind := "playlist"
  const UnknownTitle := "Unknown Title"
  const WatchPrefix := "https://www.youtube.com/watch?v="
  const MusicWatchPrefix := "https://music.youtube.com/watch?v="

  /** One entry of a playlist file's `tracks` list. */
  datatype TrackRecord = TrackRecord(title: string, url: string, videoId: string, source: string)

  /** `{"type": kind, "name": name, "tracks": tracks}` */
  datatype PlaylistDoc = PlaylistDoc(kind: string, name: string, tracks: seq<TrackRecord>)
}
