/** convert_csv_to_takeout_json.py: a CSV export of a playlist becomes a
    playlist file. A row is what `csv.DictReader` zips for a record: the
    header names in column order, each with its cell (`None` where the
    record is short). The dict it turns that into is modelled by `DictKeys`
    and `RowValue`. Reading the CSV and writing the JSON are left to the
    caller. */
module CsvConvert {
  import opened Common
  import opened Dicts

  type Row = seq<(string, Option<string>)>

  // ---------------------------------------------------------------------------
  // The dict DictReader builds: a repeated header is one key, at its first
  // column, holding the cell of its last column

  /** `row.keys()`: each header once, in the order of its first column. */
  function DictKeys(row: Row): seq<string> {
    if row == [] then [] else
      var ks := DictKeys(row[..|row| - 1]);
      if row[|row| - 1].0 in ks then ks else ks + [row[|row| - 1].0]
  }

  /** The keys are the headers, each listed once. */
  lemma {:induction false} DictKeysMembers(row: Row)
    ensures forall k :: k in DictKeys(row) <==> exists i :: 0 <= i < |row| && row[i].0 == k
    ensures Distinct(DictKeys(row))
  {
    if row != [] {
      var init := row[..|row| - 1];
      DictKeysMembers(init);
      forall k ensures k in DictKeys(row) <==> exists i :: 0 <= i < |row| && row[i].0 == k {
        if k in DictKeys(init) {
          var i :| 0 <= i < |init| && init[i].0 == k;
          assert row[i] == init[i];
        }
        if exists i :: 0 <= i < |row| && row[i].0 == k {
          var i :| 0 <= i < |row| && row[i].0 == k;
          if i < |init| {
            assert init[i] == row[i];
          }
        }
      }
    }
  }

  /** Some column headed `a` comes before every column headed `b`. */
  predicate HeadsEarlier(row: Row, a: string, b: string) {
    exists i :: 0 <= i < |row| && row[i].0 == a && forall j :: 0 <= j <= i ==> row[j].0 != b
  }

  /** A key listed before another first appears in an earlier column. */
  lemma DictKeysOrder(row: Row)
    ensures forall m, n :: 0 <= m < n < |DictKeys(row)| ==> HeadsEarlier(row, DictKeys(row)[m], DictKeys(row)[n])
  {
    forall m, n | 0 <= m < n < |DictKeys(row)|
      ensures HeadsEarlier(row, DictKeys(row)[m], DictKeys(row)[n])
    {
      var i := DictKeysOrderAt(row, m, n);
    }
  }

  /** A column headed by the `m`-th key before any headed by the `n`-th. */
  lemma {:induction false} DictKeysOrderAt(row: Row, m: int, n: int) returns (i: int)
    requires 0 <= m < n < |DictKeys(row)|
    ensures 0 <= i < |row| && row[i].0 == DictKeys(row)[m]
    ensures forall j :: 0 <= j <= i ==> row[j].0 != DictKeys(row)[n]
  {
    var init := row[..|row| - 1];
    var ks := DictKeys(init);
    var last := row[|row| - 1].0;
    DictKeysMembers(init);
    assert DictKeys(row) == if last in ks then ks else ks + [last];
    assert DictKeys(row)[m] == ks[m];
    if n < |ks| {
      assert DictKeys(row)[n] == ks[n];
      i := DictKeysOrderAt(init, m, n);
      assert row[i] == init[i];
      forall j | 0 <= j <= i ensures row[j].0 != ks[n] {
        assert row[j] == init[j];
      }
    } else {
      assert last !in ks && DictKeys(row)[n] == last;
      assert ks[m] in ks;
      i :| 0 <= i < |init| && init[i].0 == ks[m];
      assert row[i] == init[i];
      forall j | 0 <= j <= i ensures row[j].0 != last {
        assert row[j] == init[j];
      }
    }
  }

  /** `row.get(key)`: the cell of the LAST column headed `key` (a later
      column overwrote the earlier ones), `None` when there is none. */
  function RowValue(row: Row, key: string): Option<string> {
    if row == [] then None
    else if row[|row| - 1].0 == key then row[|row| - 1].1
    else RowValue(row[..|row| - 1], key)
  }

  /** The value under a key is the cell of the last column it heads. */
  lemma {:induction false} RowValueAt(row: Row, key: string, i: int)
    requires 0 <= i < |row| && row[i].0 == key && forall j :: i < j < |row| ==> row[j].0 != key
    ensures RowValue(row, key) == row[i].1
  {
    if i < |row| - 1 {
      var init := row[..|row| - 1];
      assert init[i] == row[i];
      forall j | i < j < |init| ensures init[j].0 != key {
        assert init[j] == row[j];
      }
      RowValueAt(init, key, i);
    }
  }

  /** A key that heads no column has no value. */
  lemma {:induction false} RowValueAbsent(row: Row, key: string)
    requires forall i :: 0 <= i < |row| ==> row[i].0 != key
    ensures RowValue(row, key).None?
  {
    if row != [] {
      var init := row[..|row| - 1];
      forall i | 0 <= i < |init| ensures init[i].0 != key {
        assert init[i] == row[i];
      }
      RowValueAbsent(init, key);
    }
  }

  /** `row.values()`: the value of each key, in key order. */
  function Values(row: Row): (r: seq<Option<string>>)
    ensures |r| == |DictKeys(row)|
  {
    var ks := DictKeys(row);
    seq(|ks|, m requires 0 <= m < |ks| => RowValue(row, ks[m]))
  }

  /** The values, position by position. */
  lemma ValuesAt(row: Row, vs: seq<Option<string>>)
    requires vs == Values(row)
    ensures |vs| == |DictKeys(row)| && forall m :: 0 <= m < |vs| ==> vs[m] == RowValue(row, DictKeys(row)[m])
  {
  }

  /** Each value is the cell of the last column headed by its key. */
  lemma ValuesLast(row: Row)
    ensures forall m :: 0 <= m < |Values(row)| ==>
      exists i :: (0 <= i < |row| && row[i].0 == DictKeys(row)[m] && Values(row)[m] == row[i].1
        && forall j :: i < j < |row| ==> row[j].0 != row[i].0)
  {
    DictKeysMembers(row);
    forall m | 0 <= m < |Values(row)|
      ensures exists i :: (0 <= i < |row| && row[i].0 == DictKeys(row)[m] && Values(row)[m] == row[i].1
        && forall j :: i < j < |row| ==> row[j].0 != row[i].0)
    {
      var k := DictKeys(row)[m];
      var i := LastColumn(row, k);
      RowValueAt(row, k, i);
    }
  }

  /** The last column headed by `k`. */
  lemma LastColumn(row: Row, k: string) returns (i: int)
    requires exists i :: 0 <= i < |row| && row[i].0 == k
    ensures 0 <= i < |row| && row[i].0 == k && forall j :: i < j < |row| ==> row[j].0 != k
    decreases |row|
  {
    if row[|row| - 1].0 == k {
      i := |row| - 1;
    } else {
      var init := row[..|row| - 1];
      var i0 :| 0 <= i0 < |row| && row[i0].0 == k;
      assert init[i0] == row[i0];
      i := LastColumn(init, k);
      assert row[i] == init[i];
      forall j | i < j < |row| ensures row[j].0 != k {
        if j < |init| {
          assert row[j] == init[j];
        }
      }
    }
  }

  // ---------------------------------------------------------------------------
  // coerce_str

  /** `strip` leaves nothing exactly when the text is all whitespace. */
  lemma StripBlankIff(s: string)
    ensures Strip(s) == "" <==> AllSpace(s)
  {
    var pre, post := StripDecompose(s);
    if Strip(s) == "" {
      assert s == pre + post;
      AllSpaceConcat(pre, post);
    }
  }

  /** `coerce_str`: missing and blank cells give `None`, anything else its
      stripped, non-empty text. */
  function CoerceStr(value: Option<string>): (r: Option<string>)
    ensures r.None? <==> AllSpace(value.GetOr(""))
    ensures r.Some? ==> r.value != "" && Trimmed(r.value) && |r.value| <= |value.GetOr("")|
  {
    var s := Strip(value.GetOr(""));
    StripBlankIff(value.GetOr(""));
    if s != "" then Some(s) else None
  }

  /** Coercing an already coerced value changes nothing. */
  lemma CoerceIdempotent(value: Option<string>)
    ensures CoerceStr(value).Some? ==> CoerceStr(CoerceStr(value)) == CoerceStr(value)
  {
    StripIdempotent(value.GetOr(""));
  }

  // ---------------------------------------------------------------------------
  // find_key and row_get

  function LoweredName(k: string): Option<string> {
    Some(Lower(k))
  }

  function Itself(k: string): string {
    k
  }

  /** `{k.lower(): k for k in row.keys()}`: a later key overwrites an earlier
      one with the same lower-case form. */
  function LowerKeys(row: Row): map<string, string> {
    LastWins(DictKeys(row), LoweredName, Itself)
  }

  /** The key `find_key` returns: that of the first candidate, in candidate
      order, whose lower-case form is a lowered key. */
  function FoundKey(row: Row, candidates: seq<string>): (r: Option<string>)
    ensures r.Some? ==> exists k :: (0 <= k < |candidates| && Lower(candidates[k]) in LowerKeys(row)
      && r.value == LowerKeys(row)[Lower(candidates[k])]
      && forall j :: 0 <= j < k ==> Lower(candidates[j]) !in LowerKeys(row))
    ensures r.None? <==> forall j :: 0 <= j < |candidates| ==> Lower(candidates[j]) !in LowerKeys(row)
  {
    if candidates == [] then None
    else if Lower(candidates[0]) in LowerKeys(row) then Some(LowerKeys(row)[Lower(candidates[0])])
    else
      var r := FoundKey(row, candidates[1..]);
      assert forall j :: 1 <= j < |candidates| ==> candidates[j] == candidates[1..][j - 1];
      if r.Some? then
        ghost var k :| 0 <= k < |candidates[1..]| && Lower(candidates[1..][k]) in LowerKeys(row)
          && r.value == LowerKeys(row)[Lower(candidates[1..][k])]
          && forall j :: 0 <= j < k ==> Lower(candidates[1..][j]) !in LowerKeys(row);
        assert Lower(candidates[k + 1]) in LowerKeys(row) && r.value == LowerKeys(row)[Lower(candidates[k + 1])];
        r
      else r
  }

  /** The lowered keys are the lower-case forms of the dict's keys, each
      mapping to the LAST key, in key order, with that form. */
  lemma LowerKeysLastWins(row: Row)
    ensures forall c :: c in LowerKeys(row) <==> exists m :: 0 <= m < |DictKeys(row)| && Lower(DictKeys(row)[m]) == c
    ensures forall c :: c in LowerKeys(row) ==>
      exists m :: (0 <= m < |DictKeys(row)| && Lower(DictKeys(row)[m]) == c && LowerKeys(row)[c] == DictKeys(row)[m]
        && forall n :: m < n < |DictKeys(row)| ==> Lower(DictKeys(row)[n]) != c)
  {
    var ks := DictKeys(row);
    LastWinsKeys(ks, LoweredName, Itself);
    LastWinsLast(ks, LoweredName, Itself);
    forall c ensures c in LowerKeys(row) <==> exists m :: 0 <= m < |ks| && Lower(ks[m]) == c {
      if exists m :: 0 <= m < |ks| && Lower(ks[m]) == c {
        var m :| 0 <= m < |ks| && Lower(ks[m]) == c;
        assert LoweredName(ks[m]) == Some(c);
      }
      if c in LowerKeys(row) {
        var m :| 0 <= m < |ks| && LoweredName(ks[m]) == Some(c);
        assert Lower(ks[m]) == c;
      }
    }
  }

  /** What `find_key` returns is a key of the dict matching a candidate
      regardless of case, and no LATER key lowers to the same text (the
      comprehension kept the last); with no candidate matching any header
      of the row it returns `None`. */
  lemma FoundKeyInRow(row: Row, candidates: seq<string>)
    ensures FoundKey(row, candidates).Some? ==>
      exists m :: (0 <= m < |DictKeys(row)| && DictKeys(row)[m] == FoundKey(row, candidates).value
        && (exists k :: 0 <= k < |candidates| && Lower(candidates[k]) == Lower(DictKeys(row)[m]))
        && forall n :: m < n < |DictKeys(row)| ==> Lower(DictKeys(row)[n]) != Lower(DictKeys(row)[m]))
    ensures FoundKey(row, candidates).None? <==>
      forall i, k :: 0 <= i < |row| && 0 <= k < |candidates| ==> Lower(row[i].0) != Lower(candidates[k])
  {
    if FoundKey(row, candidates).Some? {
      FoundKeyMatch(row, candidates);
    }
    FoundKeyAbsent(row, candidates);
  }

  /** The key found is the last of the dict's keys with a candidate's form. */
  lemma FoundKeyMatch(row: Row, candidates: seq<string>)
    requires FoundKey(row, candidates).Some?
    ensures exists m :: (0 <= m < |DictKeys(row)| && DictKeys(row)[m] == FoundKey(row, candidates).value
        && (exists k :: 0 <= k < |candidates| && Lower(candidates[k]) == Lower(DictKeys(row)[m]))
        && forall n :: m < n < |DictKeys(row)| ==> Lower(DictKeys(row)[n]) != Lower(DictKeys(row)[m]))
  {
    var m, k := FoundKeyWitness(row, candidates);
    MatchWitness(DictKeys(row), candidates, m, k, FoundKey(row, candidates).value);
  }

  /** The key position and the candidate FoundKeyMatch names. */
  lemma FoundKeyWitness(row: Row, candidates: seq<string>) returns (m: int, k: int)
    requires FoundKey(row, candidates).Some?
    ensures 0 <= m < |DictKeys(row)| && DictKeys(row)[m] == FoundKey(row, candidates).value
    ensures 0 <= k < |candidates| && Lower(candidates[k]) == Lower(DictKeys(row)[m])
    ensures forall n :: m < n < |DictKeys(row)| ==> Lower(DictKeys(row)[n]) != Lower(DictKeys(row)[m])
  {
    LowerKeysLastWins(row);
    var ks := DictKeys(row);
    var r := FoundKey(row, candidates);
    k :| 0 <= k < |candidates| && Lower(candidates[k]) in LowerKeys(row) && r.value == LowerKeys(row)[Lower(candidates[k])];
    var c := Lower(candidates[k]);
    m :| 0 <= m < |ks| && Lower(ks[m]) == c && LowerKeys(row)[c] == ks[m]
      && forall n :: m < n < |ks| ==> Lower(ks[n]) != c;
  }

  /** Named positions are a witness of FoundKeyMatch's conclusion. */
  lemma MatchWitness(ks: seq<string>, candidates: seq<string>, m: int, k: int, v: string)
    requires 0 <= m < |ks| && ks[m] == v
    requires 0 <= k < |candidates| && Lower(candidates[k]) == Lower(ks[m])
    requires forall n :: m < n < |ks| ==> Lower(ks[n]) != Lower(ks[m])
    ensures exists m :: (0 <= m < |ks| && ks[m] == v
        && (exists k :: 0 <= k < |candidates| && Lower(candidates[k]) == Lower(ks[m]))
        && forall n :: m < n < |ks| ==> Lower(ks[n]) != Lower(ks[m]))
  {
  }

  /** Nothing is found exactly when no header matches any candidate. */
  lemma FoundKeyAbsent(row: Row, candidates: seq<string>)
    ensures FoundKey(row, candidates).None? <==>
      forall i, k :: 0 <= i < |row| && 0 <= k < |candidates| ==> Lower(row[i].0) != Lower(candidates[k])
  {
    LowerKeysLastWins(row);
    DictKeysMembers(row);
    var ks := DictKeys(row);
    if FoundKey(row, candidates).None? {
      forall i, k | 0 <= i < |row| && 0 <= k < |candidates| ensures Lower(row[i].0) != Lower(candidates[k]) {
        assert Lower(candidates[k]) !in LowerKeys(row);
        assert row[i].0 in ks;
      }
    } else {
      var m, k := FoundKeyWitness(row, candidates);
      assert ks[m] in ks;
    }
  }

  /** Repeated headers: "Title,TITLE,Title" gives the dict the keys "Title"
      and "TITLE", in that order, so the comprehension maps "title" to
      "TITLE"; the value under "Title" is the cell of the third column. */
  lemma RepeatedHeaders(row: Row, a: string, b: string, c: string)
    requires row == [("Title", Some(a)), ("TITLE", Some(b)), ("Title", Some(c))]
    ensures DictKeys(row) == ["Title", "TITLE"] && LowerKeys(row) == map["title" := "TITLE"]
    ensures FoundKey(row, ["Title"]) == Some("TITLE")
    ensures RowValue(row, "Title") == Some(c) && Values(row) == [Some(c), Some(b)]
  {
    RepeatedHeaderKeys(row, a, b, c);
    var ks := DictKeys(row);
    assert ks[..1] == ["Title"] && ks[..1][..0] == [];
    assert Lower("TITLE") == "title";
    assert Lower("Title") == "title";
    assert LastWins(ks[..1], LoweredName, Itself) == map["title" := "Title"];
    var vs := Values(row);
    ValuesAt(row, vs);
    RowValueAt(row, "Title", 2);
    RowValueAt(row, "TITLE", 1);
  }

  lemma RepeatedHeaderKeys(row: Row, a: string, b: string, c: string)
    requires row == [("Title", Some(a)), ("TITLE", Some(b)), ("Title", Some(c))]
    ensures DictKeys(row) == ["Title", "TITLE"]
  {
    assert row[..2][..1] == row[..1] && row[..1][..0] == [];
    assert DictKeys(row[..1]) == ["Title"];
    assert "TITLE" != "Title" by { assert "TITLE"[1] != "Title"[1]; }
    assert DictKeys(row[..2]) == ["Title", "TITLE"];
  }

  /** `find_key` as the loop with an early return it is. */
  method FindKey(row: Row, candidates: seq<string>) returns (key: Option<string>)
    ensures key == FoundKey(row, candidates)
  {
    var lowerKeys := LowerKeys(row);
    for i := 0 to |candidates|
      invariant FoundKey(row, candidates) == FoundKey(row, candidates[i..])
    {
      assert candidates[i..][1..] == candidates[i + 1..];
      var c := Lower(candidates[i]);
      if c in lowerKeys {
        return Some(lowerKeys[c]);
      }
    }
    return None;
  }

  /** `row_get`: nothing when no candidate names a column (or the key found
      is empty, hence falsy), else the coerced cell the dict holds under the
      key found. */
  function RowGet(row: Row, candidates: seq<string>): (r: Option<string>)
    ensures !Truthy(FoundKey(row, candidates)) ==> r.None?
    ensures Truthy(FoundKey(row, candidates)) ==> r == CoerceStr(RowValue(row, FoundKey(row, candidates).value))
    ensures r.Some? ==> r.value != "" && Trimmed(r.value)
    ensures r.Some? ==> CoerceStr(r) == r
  {
    var key := FoundKey(row, candidates);
    if Truthy(key) then
      var v := CoerceStr(RowValue(row, key.value));
      CoerceIdempotent(RowValue(row, key.value));
      v
    else None
  }

  /** A value `row_get` finds is the coerced cell of the last column headed
      by the key found. */
  lemma RowGetCell(row: Row, candidates: seq<string>)
    requires RowGet(row, candidates).Some?
    ensures exists i :: (0 <= i < |row| && row[i].0 == FoundKey(row, candidates).value
      && RowGet(row, candidates) == CoerceStr(row[i].1)
      && forall j :: i < j < |row| ==> row[j].0 != row[i].0)
  {
    var key := FoundKey(row, candidates).value;
    var m, k := FoundKeyWitness(row, candidates);
    DictKeysMembers(row);
    assert DictKeys(row)[m] in DictKeys(row);
    var i := LastColumn(row, key);
    RowValueAt(row, key, i);
  }

  // ---------------------------------------------------------------------------
  // extract_video_id

  const IdColumns := ["Video ID", "VideoId", "Id"]
  const UrlColumns := ["Video URL", "URL", "Link"]
  const TitleColumns := ["Video Title", "Title", "Song", "Track", "Name"]

  /** What the fallback finds in one cell: the first id run of its coerced
      text. */
  function CellId(value: Option<string>): (r: Option<string>)
    ensures r.Some? ==> IsVideoId(r.value)
    ensures r.Some? ==> CoerceStr(value).Some? && exists k :: (0 <= k <= |CoerceStr(value).value|
      && IdRunAt(CoerceStr(value).value, k) && r.value == CoerceStr(value).value[k..k + IdLength]
      && forall j :: 0 <= j < k ==> !IdRunAt(CoerceStr(value).value, j))
    ensures r.None? <==> (CoerceStr(value).None?
      || forall k :: 0 <= k <= |CoerceStr(value).value| ==> !IdRunAt(CoerceStr(value).value, k))
  {
    match CoerceStr(value)
    case Some(s) => FirstIdRun(s)
    case None => None
  }

  /** The fallback: the id of the first value, in key order, holding one. */
  function FirstCellId(row: Row): (r: Option<string>)
    ensures r.Some? ==> IsVideoId(r.value)
  {
    FirstSomeFrom(Values(row), CellId);
    FirstSome(Values(row), CellId)
  }

  /** The fallback finds nothing exactly when no value holds an id. */
  lemma FirstCellIdNone(row: Row)
    ensures FirstCellId(row).None? <==> forall m :: 0 <= m < |DictKeys(row)| ==> CellId(RowValue(row, DictKeys(row)[m])).None?
  {
    var vs := Values(row);
    FirstSomeNone(vs, CellId);
    ValuesAt(row, vs);
  }

  /** What the fallback finds is the id of the value under some key, and no
      earlier key's value holds one. */
  lemma FirstCellIdFirst(row: Row)
    requires FirstCellId(row).Some?
    ensures exists m :: (0 <= m < |DictKeys(row)| && CellId(RowValue(row, DictKeys(row)[m])) == FirstCellId(row)
      && forall n :: 0 <= n < m ==> CellId(RowValue(row, DictKeys(row)[n])).None?)
  {
    var vs := Values(row);
    var m := FirstSomeAt(vs, CellId);
    ValuesAt(row, vs);
  }

  /** Two columns under one header are one value to the scan: the second
      cell's, so an id in the first cell alone is not found. */
  lemma RepeatedColumnScan(h: string, a: Option<string>, b: Option<string>)
    ensures FirstCellId([(h, a), (h, b)]) == CellId(b)
  {
    var row := [(h, a), (h, b)];
    assert row[..1][..0] == [];
    assert DictKeys(row[..1]) == [h];
    assert DictKeys(row) == [h];
    var vs := Values(row);
    ValuesAt(row, vs);
    RowValueAt(row, h, 1);
    assert vs == [b] && vs[1..] == [];
    assert FirstCellId(row) == FirstSome(vs, CellId);
    assert FirstSome(vs[1..], CellId) == None;
    assert vs[0] == b;
  }

  /** The id `extract_video_id` finds in a row: an id column holding exactly
      an id wins, otherwise the first id run of any cell is taken. */
  function RowVideoId(row: Row): (r: Option<string>)
    ensures r.Some? ==> IsVideoId(r.value)
    ensures Truthy(RowGet(row, IdColumns)) && IsVideoId(RowGet(row, IdColumns).value) ==> r == RowGet(row, IdColumns)
    ensures !(Truthy(RowGet(row, IdColumns)) && IsVideoId(RowGet(row, IdColumns).value)) ==> r == FirstCellId(row)
  {
    var vid := RowGet(row, IdColumns);
    if Truthy(vid) && IsVideoId(vid.value) then vid else FirstCellId(row)
  }

  /** `extract_video_id` as the loop over the row's cells it is. */
  method ExtractVideoId(row: Row) returns (vid: Option<string>)
    ensures vid == RowVideoId(row)
  {
    var fromColumn := RowGet(row, IdColumns);
    if Truthy(fromColumn) && IsVideoId(fromColumn.value) {
      return fromColumn;
    }
    var values := Values(row);
    for i := 0 to |values|
      invariant FirstCellId(row) == FirstSome(values[i..], CellId)
    {
      assert values[i..][1..] == values[i + 1..];
      var s := CoerceStr(values[i]);
      if s.Some? {
        var m := FirstIdRun(s.value);
        if m.Some? {
          return m;
        }
      }
    }
    return None;
  }

  // ---------------------------------------------------------------------------
  // convert_csv_file

  /** The track a row becomes, or nothing when it has no id. */
  function CsvTrack(row: Row): (r: Option<TrackRecord>)
    ensures r.Some? <==> RowVideoId(row).Some?
    ensures r.Some? ==> r.value.videoId == RowVideoId(row).value && IsVideoId(r.value.videoId) && r.value.source == "csv"
    ensures r.Some? ==> r.value.url == RowGet(row, UrlColumns).GetOr(MusicWatchPrefix + r.value.videoId)
    ensures r.Some? ==> r.value.title != ""
    ensures r.Some? && RowGet(row, TitleColumns).None? ==> r.value.title == UnknownTitle
    ensures r.Some? && RowGet(row, TitleColumns).Some? ==> r.value.title == RowGet(row, TitleColumns).value
  {
    match RowVideoId(row)
    case None => None
    case Some(vid) =>
      var url := RowGet(row, UrlColumns).GetOr(MusicWatchPrefix + vid);
      var title := RowGet(row, TitleColumns).GetOr(UnknownTitle);
      Some(TrackRecord(title, url, vid, "csv"))
  }

  /** A record as DictReader yields it: the zipped (header, cell) row, and
      whether the record had more cells than the header, which DictReader
      then stores under the extra key `None`. */
  datatype CsvRecord = CsvRecord(cells: Row, long: bool)

  /** The track a record becomes. */
  function RecordTrack(rec: CsvRecord): Option<TrackRecord> {
    CsvTrack(rec.cells)
  }

  /** Some record had more cells than the header. */
  predicate HasLong(records: seq<CsvRecord>) {
    exists i :: 0 <= i < |records| && records[i].long
  }

  /** Records without an id are skipped and the others keep their order: a
      track is in the output exactly when some record converts to it, and no
      record is lost exactly when every record has an id. */
  lemma CsvTracksFromRows(records: seq<CsvRecord>, t: TrackRecord)
    ensures t in FilterMap(records, RecordTrack) <==> exists i :: 0 <= i < |records| && CsvTrack(records[i].cells) == Some(t)
    ensures |FilterMap(records, RecordTrack)| == |records| <==>
      forall i :: 0 <= i < |records| ==> RowVideoId(records[i].cells).Some?
  {
    FilterMapMembers(records, RecordTrack, t);
    FilterMapLength(records, RecordTrack);
  }

  const VideosSuffix := "-videos"

  /** The playlist name: the file stem, with a trailing "-videos" (in any
      case) and the whitespace before it removed when asked to. */
  function CsvPlaylistName(stem: string, removeSuffix: bool): (r: string)
    ensures !(removeSuffix && EndsWith(Lower(stem), VideosSuffix)) ==> r == stem
    ensures removeSuffix && EndsWith(Lower(stem), VideosSuffix) ==> Trimmed(r) && |r| <= |stem| - 7
  {
    if removeSuffix && EndsWith(Lower(stem), VideosSuffix) then Strip(stem[..|stem| - 7]) else stem
  }

  /** A stripped name followed by "-videos", in any case, gives back the
      name. */
  lemma CsvNameDropsSuffix(base: string, suffix: string)
    requires Trimmed(base) && Lower(suffix) == VideosSuffix
    ensures CsvPlaylistName(base + suffix, true) == base
  {
    var stem := base + suffix;
    LowerEndsWith(base, suffix);
    assert stem[..|stem| - 7] == base;
    StripTrimmed(base);
  }

  /** Lowering `base + suffix` ends in the lowered suffix. */
  lemma LowerEndsWith(base: string, suffix: string)
    ensures EndsWith(Lower(base + suffix), Lower(suffix))
  {
    var stem := base + suffix;
    forall k | 0 <= k < |suffix| ensures Lower(stem)[|base|..][k] == Lower(suffix)[k] {
      assert stem[|base| + k] == suffix[k];
    }
  }

  /** The body of the row loop of `convert_csv_file`: the track a record
      becomes, or nothing when no id is found. A long record raises instead:
      the first `find_key` of `extract_video_id` lowers every key, and the
      key `None` has no `lower`. */
  method ConvertRow(rec: CsvRecord) returns (t: Option<TrackRecord>, raised: bool)
    ensures raised <==> rec.long
    ensures !raised ==> t == RecordTrack(rec)
  {
    if rec.long {
      return None, true;
    }
    raised := false;
    var row := rec.cells;
    var vid := ExtractVideoId(row);
    if !Truthy(vid) {
      return None, false;
    }
    var url := RowGet(row, UrlColumns).GetOr(MusicWatchPrefix + vid.value);
    var title := RowGet(row, TitleColumns);
    t := Some(TrackRecord(title.GetOr(UnknownTitle), url, vid.value, "csv"));
  }

  /** The loop of `convert_csv_file` over the records: `raised` when a long
      record is reached, else the tracks of the records. */
  method CollectCsvTracks(records: seq<CsvRecord>) returns (tracks: seq<TrackRecord>, raised: bool)
    ensures raised <==> HasLong(records)
    ensures !raised ==> tracks == FilterMap(records, RecordTrack)
  {
    tracks := [];
    var i := 0;
    while i < |records|
      invariant 0 <= i <= |records|
      invariant tracks == FilterMap(records[..i], RecordTrack)
      invariant !HasLong(records[..i])
    {
      var t, r := ConvertRow(records[i]);
      if r {
        assert HasLong(records) by {
          assert records[i].long;
        }
        return tracks, true;
      }
      ShortExtend(records, i);
      FilterMapSnoc(records, i, RecordTrack);
      if t.Some? {
        tracks := tracks + [t.value];
      }
      i := i + 1;
    }
    assert records[..i] == records;
    raised := false;
  }

  /** A short record after a prefix of short records extends it. */
  lemma ShortExtend(records: seq<CsvRecord>, i: int)
    requires 0 <= i < |records| && !HasLong(records[..i]) && !records[i].long
    ensures !HasLong(records[..i + 1])
  {
    var p := records[..i + 1];
    forall j | 0 <= j < |p| ensures !p[j].long {
      if j < i {
        assert p[j] == records[..i][j];
      }
    }
  }

  /** `convert_csv_file` on the records the reader produced (`None` when
      reading raised): nothing for no records or no tracks, else the playlist
      object to write. `raised` says that a long record made the row loop
      raise; that exception leaves `convert_csv_file`. */
  method ConvertCsvFile(read: Option<seq<CsvRecord>>, stem: string, removeSuffix: bool)
    returns (doc: Option<PlaylistDoc>, raised: bool)
    ensures raised <==> read.Some? && read.value != [] && HasLong(read.value)
    ensures read.None? || read.value == [] || raised ==> doc.None?
    ensures read.Some? && read.value != [] && !raised ==>
      doc == (if FilterMap(read.value, RecordTrack) == [] then None
              else Some(PlaylistDoc(PlaylistKind, CsvPlaylistName(stem, removeSuffix), FilterMap(read.value, RecordTrack))))
  {
    if read.None? {
      return None, false;
    }
    var records := read.value;
    if records == [] {
      return None, false;
    }
    var tracks;
    tracks, raised := CollectCsvTracks(records);
    if raised {
      return None, true;
    }
    if tracks == [] {
      return None, false;
    }
    var name := stem;
    if removeSuffix && EndsWith(Lower(name), VideosSuffix) {
      name := Strip(name[..|name| - 7]);
    }
    doc := Some(PlaylistDoc(PlaylistKind, name, tracks));
  }
}
