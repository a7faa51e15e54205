/** Pure POSIX paths the way Python's pathlib holds them: an anchor and a list
    of parts. Only the operations the tools use are modelled: parsing a string,
    `str()`, `.name`, `.relative_to()` and the `/` operator. */
module Paths {
  import opened Common

  /** No anchor, the root "/", or the "//" root POSIX keeps distinct. */
  datatype Anchor = Relative | Root | DoubleRoot

  datatype Path = Path(anchor: Anchor, parts: seq<string>)

  /** A part pathlib keeps after splitting on "/": not empty, not ".". */
  predicate ValidPart(p: string) {
    p != "" && p != "." && '/' !in p
  }

  predicate ValidPath(p: Path) {
    forall i :: 0 <= i < |p.parts| ==> ValidPart(p.parts[i])
  }

  /** `s.split("/")` keeping the parts that are neither empty nor ".". */
  function Parts(s: string): (r: seq<string>)
    ensures forall i :: 0 <= i < |r| ==> ValidPart(r[i])
    decreases |s|
  {
    if s == [] then [] else
      var k := IndexOfChar(s, '/');
      var seg := s[..k];
      assert '/' !in seg by {
        forall i | 0 <= i < |seg| ensures seg[i] != '/' { assert seg[i] == s[i]; }
      }
      var rest := if k < |s| then Parts(s[k + 1..]) else [];
      if seg == "" || seg == "." then rest else [seg] + rest
  }

  /** `PurePosixPath(s)` */
  function ParsePath(s: string): (p: Path)
    ensures ValidPath(p)
  {
    if s == [] || s[0] != '/' then Path(Relative, Parts(s))
    else if |s| >= 2 && s[1] == '/' && (|s| == 2 || s[2] != '/') then Path(DoubleRoot, Parts(s[2..]))
    else Path(Root, Parts(s))
  }

  function JoinParts(ps: seq<string>): string
  {
    if ps == [] then "" else if |ps| == 1 then ps[0] else ps[0] + "/" + JoinParts(ps[1..])
  }

  function AnchorText(a: Anchor): string {
    match a
    case Relative => ""
    case Root => "/"
    case DoubleRoot => "//"
  }

  /** `str(p)`: the anchor, then the parts joined by "/", or "." for an empty
      relative path. */
  function PathString(p: Path): string {
    if p.anchor == Relative && p.parts == [] then "." else AnchorText(p.anchor) + JoinParts(p.parts)
  }

  /** `p.name`: the last part, or "" when there is none. */
  function Name(p: Path): string {
    if p.parts == [] then "" else p.parts[|p.parts| - 1]
  }

  /** `p.relative_to(root)`; `None` where pathlib raises ValueError. */
  function RelativeTo(p: Path, root: Path): (r: Option<Path>)
    ensures r.Some? <==> p.anchor == root.anchor && root.parts <= p.parts
    ensures r.Some? ==> r.value.anchor == Relative && root.parts + r.value.parts == p.parts
  {
    if p.anchor == root.anchor && root.parts <= p.parts then
      var rest := p.parts[|root.parts|..];
      assert root.parts + rest == p.parts;
      Some(Path(Relative, rest))
    else None
  }

  /** `p / s`: an absolute `s` replaces `p`, a relative one appends its parts. */
  function JoinPath(p: Path, s: string): Path {
    if s != [] && s[0] == '/' then ParsePath(s) else Path(p.anchor, p.parts + Parts(s))
  }

  lemma SinglePart(x: string)
    requires ValidPart(x)
    ensures Parts(x) == [x]
  {
    var k := IndexOfChar(x, '/');
    assert x[..k] == x;
  }

  /** Appending one valid part adds exactly that part. */
  lemma JoinChild(p: Path, x: string)
    requires ValidPart(x)
    ensures JoinPath(p, x) == Path(p.anchor, p.parts + [x])
  {
    SinglePart(x);
  }

  /** Appending two valid parts in turn adds exactly those two parts. */
  lemma JoinTwo(p: Path, x: string, y: string)
    requires ValidPart(x) && ValidPart(y)
    ensures JoinPath(JoinPath(p, x), y) == Path(p.anchor, p.parts + [x, y])
  {
    JoinChild(p, x);
    JoinChild(Path(p.anchor, p.parts + [x]), y);
    assert p.parts + [x] + [y] == p.parts + [x, y];
  }

  lemma {:induction false} PartsOfJoin(ps: seq<string>)
    requires forall i :: 0 <= i < |ps| ==> ValidPart(ps[i])
    ensures Parts(JoinParts(ps)) == ps
    ensures ps != [] ==> JoinParts(ps) != [] && JoinParts(ps)[0] != '/'
  {
    if |ps| == 1 {
      SinglePart(ps[0]);
    } else if |ps| > 1 {
      var s := JoinParts(ps);
      var rest := JoinParts(ps[1..]);
      assert s == ps[0] + ("/" + rest);
      assert forall i :: 0 <= i < |ps[0]| ==> s[i] == ps[0][i] && s[i] != '/';
      assert s[|ps[0]|] == '/';
      assert IndexOfChar(s, '/') == |ps[0]|;
      assert s[..|ps[0]|] == ps[0];
      assert s[|ps[0]| + 1..] == rest;
      PartsOfJoin(ps[1..]);
      assert s[0] == ps[0][0];
    }
  }

  /** Printing a path and parsing the text back gives the same path. */
  lemma ParsePrintRoundTrip(p: Path)
    requires ValidPath(p)
    ensures ParsePath(PathString(p)) == p
  {
    PartsOfJoin(p.parts);
    match p.anchor
    case Relative => RelativeRoundTrip(p.parts);
    case Root => RootRoundTrip(p.parts);
    case DoubleRoot => DoubleRootRoundTrip(p.parts);
  }

  /** A relative path prints as its joined parts, or "." when empty. */
  lemma RelativeRoundTrip(ps: seq<string>)
    requires Parts(JoinParts(ps)) == ps
    requires ps != [] ==> JoinParts(ps) != [] && JoinParts(ps)[0] != '/'
    ensures ParsePath(PathString(Path(Relative, ps))) == Path(Relative, ps)
  {
    var s := PathString(Path(Relative, ps));
    if ps == [] {
      assert s == ".";
      assert IndexOfChar(s, '/') == 1;
      assert s[..1] == ".";
    } else {
      assert s == JoinParts(ps);
    }
  }

  /** A rooted path prints as "/" before its joined parts. */
  lemma RootRoundTrip(ps: seq<string>)
    requires Parts(JoinParts(ps)) == ps
    requires ps != [] ==> JoinParts(ps) != [] && JoinParts(ps)[0] != '/'
    ensures ParsePath(PathString(Path(Root, ps))) == Path(Root, ps)
  {
    var j := JoinParts(ps);
    var s := PathString(Path(Root, ps));
    assert s == "/" + j;
    assert IndexOfChar(s, '/') == 0;
    assert s[1..] == j;
    assert s[..0] == "";
  }

  /** A "//" path prints as "//" before its joined parts. */
  lemma DoubleRootRoundTrip(ps: seq<string>)
    requires Parts(JoinParts(ps)) == ps
    requires ps != [] ==> JoinParts(ps) != [] && JoinParts(ps)[0] != '/'
    ensures ParsePath(PathString(Path(DoubleRoot, ps))) == Path(DoubleRoot, ps)
  {
    var j := JoinParts(ps);
    var s := PathString(Path(DoubleRoot, ps));
    assert s == "//" + j;
    assert s[2..] == j;
  }
}
