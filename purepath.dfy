/**
 * The part of `pathlib.PurePosixPath` the script relies on: parsing a string into a path,
 * `parent`, `name`, `stem`, `suffix`, the `/` operator and `str()`.
 *
 * A path is a flag for a leading `/` and a list of components. Parsing splits the text at every
 * `/` and drops the empty components and the `.` components, as pathlib does; `..` is kept.
 */
module PurePath {

  datatype Path = Path(absolute: bool, parts: seq<string>)

  /** A component as pathlib keeps it: not empty, not `.`, no `/` inside. */
  predicate IsComponent(c: string) {
    c != "" && c != "." && '/' !in c
  }

  predicate Valid(p: Path) {
    forall i :: 0 <= i < |p.parts| ==> IsComponent(p.parts[i])
  }

  predicate EndsWith(s: string, e: string) {
    |e| <= |s| && s[|s| - |e|..] == e
  }

  /** `s.split("/")`: the pieces between the slashes, empty ones included. */
  function Segments(s: string): (r: seq<string>)
    ensures |r| >= 1
    ensures forall i :: 0 <= i < |r| ==> '/' !in r[i]
    decreases |s|
  {
    if s == [] then [""]
    else
      var rest := Segments(s[1..]);
      if s[0] == '/' then [""] + rest
      else [[s[0]] + rest[0]] + rest[1..]
  }

  /** The segments that survive as components: the empty ones and the `.` ones are dropped. */
  function Keep(segments: seq<string>): (r: seq<string>)
    ensures forall i :: 0 <= i < |r| ==> IsComponent(r[i])
    ensures |r| <= |segments|
  {
    if segments == [] then []
    else (if IsComponent(segments[0]) then [segments[0]] else []) + Keep(segments[1..])
  }

  /** `PurePosixPath(s)`. */
  function Parse(s: string): (p: Path)
    ensures Valid(p)
    ensures p.absolute <==> s != [] && s[0] == '/'
  {
    Path(s != [] && s[0] == '/', Keep(Segments(s)))
  }

  /** `p.name`: the last component, or `""` when there is none. */
  function Name(p: Path): (r: string)
    ensures Valid(p) && p.parts != [] ==> IsComponent(r)
    ensures p.parts == [] ==> r == ""
  {
    if p.parts == [] then "" else p.parts[|p.parts| - 1]
  }

  /** `p.parent`: the path without its last component; a path without components is its own parent. */
  function Parent(p: Path): (r: Path)
    ensures Valid(p) ==> Valid(r)
    ensures r.absolute == p.absolute
  {
    if p.parts == [] then p else Path(p.absolute, p.parts[..|p.parts| - 1])
  }

  /**
   * `p / s`: the text `s` is parsed as a path and appended; when it is absolute it replaces `p`
   * altogether.
   */
  function Join(p: Path, s: string): (r: Path)
    ensures Valid(p) ==> Valid(r)
  {
    var q := Parse(s);
    if q.absolute then q else Path(p.absolute, p.parts + q.parts)
  }

  /** `s.rfind(c)`: the last index holding `c`, or -1. */
  function LastIndexOf(s: string, c: char): (i: int)
    ensures -1 <= i < |s|
    ensures i >= 0 ==> s[i] == c
    ensures forall j :: i < j < |s| ==> s[j] != c
    decreases |s|
  {
    if s == [] then -1
    else if s[|s| - 1] == c then |s| - 1
    else LastIndexOf(s[..|s| - 1], c)
  }

  /**
   * The index of the dot that starts the suffix: pathlib up to Python 3.13 ignores a leading or a
   * trailing dot (from 3.14 on, a trailing dot is a suffix).
   */
  predicate HasSuffixDot(name: string, i: int) {
    0 < i < |name| - 1
  }

  /** `p.suffix` on a name, as in Python 3.13: from its last dot on, unless that dot is first or last. */
  function Suffix(name: string): (r: string)
    ensures r == "" || (|r| >= 2 && r[0] == '.' && '.' !in r[1..])
    ensures EndsWith(name, r)
    ensures |r| < |name| || r == ""
  {
    var i := LastIndexOf(name, '.');
    if HasSuffixDot(name, i) then
      assert name[i..][1..] == name[i + 1..];
      assert name[|name| - |name[i..]|..] == name[i..];
      name[i..]
    else ""
  }

  /** `p.stem` on a name: the name without its suffix. */
  function Stem(name: string): (r: string)
    ensures |r| <= |name| && r == name[..|r|]
    ensures name != "" ==> r != ""
  {
    var i := LastIndexOf(name, '.');
    if HasSuffixDot(name, i) then name[..i] else name
  }

  /** The components joined with `/`. */
  function JoinSlash(parts: seq<string>): string
    decreases |parts|
  {
    if parts == [] then ""
    else if |parts| == 1 then parts[0]
    else parts[0] + "/" + JoinSlash(parts[1..])
  }

  /** `str(p)`: `"."` for the empty relative path. */
  function Render(p: Path): string {
    if p.absolute then "/" + JoinSlash(p.parts)
    else if p.parts == [] then "."
    else JoinSlash(p.parts)
  }

  // ----- Lemmas -----

  /**
   * A name made of a non-empty stem and a dot-started extension with no further dot splits back
   * into that stem and that suffix.
   */
  lemma SplitName(stem: string, ext: string)
    requires stem != "" && |ext| >= 2 && ext[0] == '.' && '.' !in ext[1..]
    ensures Suffix(stem + ext) == ext && Stem(stem + ext) == stem
  {
    var name := stem + ext;
    var i := LastIndexOf(name, '.');
    assert name[|stem|] == '.';
    assert name[|stem| + 1..] == ext[1..];
    assert i == |stem|;
    assert name[i..] == ext && name[..i] == stem;
  }

  /**
   * A component followed by an extension is a single component, parsed as itself, whose stem and
   * suffix are the two parts.
   */
  lemma ComponentWithExtension(stem: string, ext: string)
    requires IsComponent(stem) && |ext| >= 2 && ext[0] == '.' && '.' !in ext[1..] && '/' !in ext
    ensures IsComponent(stem + ext)
    ensures Parse(stem + ext) == Path(false, [stem + ext])
    ensures Stem(stem + ext) == stem && Suffix(stem + ext) == ext
  {
    assert forall i :: 0 <= i < |stem + ext| ==> (stem + ext)[i] in stem || (stem + ext)[i] in ext;
    ParseComponent(stem + ext);
    SplitName(stem, ext);
  }

  /** A name is its stem followed by its suffix. */
  lemma StemSuffix(name: string)
    ensures Stem(name) + Suffix(name) == name
  {
  }

  /** Text without a slash is a single segment. */
  lemma {:induction false} SegmentsNoSlash(s: string)
    requires '/' !in s
    ensures Segments(s) == [s]
    decreases |s|
  {
    if s != [] {
      SegmentsNoSlash(s[1..]);
      assert [s[0]] + s[1..] == s;
    }
  }

  /** A single component parses to the relative path holding just that component. */
  lemma ParseComponent(c: string)
    requires IsComponent(c)
    ensures Parse(c) == Path(false, [c])
  {
    SegmentsNoSlash(c);
  }

  /** Joining a component appends it: the result's parent is the base and its name the component. */
  lemma JoinComponent(p: Path, c: string)
    requires IsComponent(c)
    ensures Join(p, c) == Path(p.absolute, p.parts + [c])
    ensures Parent(Join(p, c)) == p && Name(Join(p, c)) == c
  {
    ParseComponent(c);
    assert (p.parts + [c])[..|p.parts|] == p.parts;
  }

  /** `p.parent / p.name == p` for every path. */
  lemma JoinParentName(p: Path)
    requires Valid(p)
    ensures Join(Parent(p), Name(p)) == p
  {
    if p.parts == [] {
      assert Segments("") == [""];
    } else {
      var last := p.parts[|p.parts| - 1];
      JoinComponent(Parent(p), last);
      assert Parent(p).parts + [last] == p.parts;
    }
  }

  lemma {:induction false} KeepAppend(a: seq<string>, b: seq<string>)
    ensures Keep(a + b) == Keep(a) + Keep(b)
    decreases |a|
  {
    if a != [] {
      assert (a + b)[1..] == a[1..] + b;
      KeepAppend(a[1..], b);
    } else {
      assert a + b == b;
    }
  }

  /** Putting an empty segment in front commutes with extending the last segment. */
  lemma PrependExtendsLast(r: seq<string>, e: string)
    requires |r| >= 1
    ensures var s := [""] + r;
      [""] + (r[..|r| - 1] + [r[|r| - 1] + e]) == s[..|s| - 1] + [s[|s| - 1] + e]
  {
    var s := [""] + r;
    assert s[..|s| - 1] == [""] + r[..|r| - 1];
  }

  /** Growing the first segment at its front commutes with extending the last segment. */
  lemma GrowFirstExtendsLast(c: char, r: seq<string>, e: string)
    requires |r| >= 1
    ensures var re := r[..|r| - 1] + [r[|r| - 1] + e]; var s := [[c] + r[0]] + r[1..];
      [[c] + re[0]] + re[1..] == s[..|s| - 1] + [s[|s| - 1] + e]
  {
    var re := r[..|r| - 1] + [r[|r| - 1] + e];
    var s := [[c] + r[0]] + r[1..];
    if |r| == 1 {
      assert re == [r[0] + e];
      assert [c] + (r[0] + e) == ([c] + r[0]) + e;
    } else {
      assert re[0] == r[0] && re[1..] == r[1..|r| - 1] + [r[|r| - 1] + e];
      assert s[..|s| - 1] == [[c] + r[0]] + r[1..|r| - 1];
    }
  }

  /** Appending slash-free text to a string extends its last segment and leaves the others alone. */
  lemma {:induction false} SegmentsAppend(x: string, e: string)
    requires '/' !in e
    ensures var sx := Segments(x);
      Segments(x + e) == sx[..|sx| - 1] + [sx[|sx| - 1] + e]
    decreases |x|
  {
    if x == [] {
      SegmentsNoSlash(e);
      assert x + e == e;
    } else {
      assert (x + e)[1..] == x[1..] + e;
      assert (x + e)[0] == x[0];
      SegmentsAppend(x[1..], e);
      var r := Segments(x[1..]);
      if x[0] == '/' {
        PrependExtendsLast(r, e);
      } else {
        GrowFirstExtendsLast(x[0], r, e);
      }
    }
  }

  /**
   * Joining text that ends in a component `e` gives a path whose name ends in `e`: the last
   * segment of the text becomes the last component, whether or not the text is absolute.
   */
  lemma JoinNameEndsWith(p: Path, x: string, e: string)
    requires IsComponent(e)
    ensures EndsWith(Name(Join(p, x + e)), e)
  {
    SegmentsAppend(x, e);
    var sx := Segments(x);
    var last := sx[|sx| - 1] + e;
    var init := sx[..|sx| - 1];
    assert IsComponent(last) by {
      assert forall i :: 0 <= i < |last| ==> last[i] in sx[|sx| - 1] || last[i] in e;
      assert |last| >= |e| >= 1 && last != ".";
    }
    KeepAppend(init, [last]);
    assert Keep([last]) == [last];
    assert Parse(x + e).parts == Keep(init) + [last];
    JoinName(p, x + e);
    assert last[|last| - |e|..] == e;
  }

  /** Joining text that has a name gives a path with that name. */
  lemma JoinName(p: Path, s: string)
    requires Parse(s).parts != []
    ensures Name(Join(p, s)) == Name(Parse(s))
  {
    var q := Parse(s);
    if !q.absolute {
      assert (p.parts + q.parts)[|p.parts + q.parts| - 1] == q.parts[|q.parts| - 1];
    }
  }

  lemma {:induction false} SegmentsSlash(c: string, t: string)
    requires '/' !in c
    ensures Segments(c + "/" + t) == [c] + Segments(t)
    decreases |c|
  {
    if c == [] {
      assert c + "/" + t == "/" + t;
      assert ("/" + t)[1..] == t;
    } else {
      assert (c + "/" + t)[1..] == c[1..] + "/" + t;
      SegmentsSlash(c[1..], t);
      assert [c[0]] + c[1..] == c;
    }
  }

  lemma {:induction false} SegmentsJoinSlash(parts: seq<string>)
    requires parts != []
    requires forall i :: 0 <= i < |parts| ==> IsComponent(parts[i])
    ensures Segments(JoinSlash(parts)) == parts
    decreases |parts|
  {
    if |parts| == 1 {
      SegmentsNoSlash(parts[0]);
    } else {
      SegmentsSlash(parts[0], JoinSlash(parts[1..]));
      SegmentsJoinSlash(parts[1..]);
      assert [parts[0]] + parts[1..] == parts;
    }
  }

  lemma {:induction false} KeepComponents(parts: seq<string>)
    requires forall i :: 0 <= i < |parts| ==> IsComponent(parts[i])
    ensures Keep(parts) == parts
    decreases |parts|
  {
    if parts != [] {
      KeepComponents(parts[1..]);
      assert [parts[0]] + parts[1..] == parts;
    }
  }

  /** `PurePosixPath(str(p)) == p`: rendering a path and parsing it back gives the same path. */
  lemma RenderRoundTrip(p: Path)
    requires Valid(p)
    ensures Parse(Render(p)) == p
  {
    KeepComponents(p.parts);
    if p.parts == [] {
      if p.absolute {
        assert Render(p) == "/";
        assert "/"[1..] == "";
        assert Segments("/") == ["", ""];
        assert Keep(["", ""]) == [];
      } else {
        SegmentsNoSlash(".");
      }
    } else {
      SegmentsJoinSlash(p.parts);
      var j := JoinSlash(p.parts);
      if p.absolute {
        assert ("/" + j)[1..] == j;
        assert Segments("/" + j) == [""] + p.parts;
        assert ([""] + p.parts)[1..] == p.parts;
      } else {
        JoinSlashStart(p.parts);
      }
    }
  }

  lemma JoinSlashStart(parts: seq<string>)
    requires parts != [] && IsComponent(parts[0])
    ensures JoinSlash(parts) != [] && JoinSlash(parts)[0] == parts[0][0]
  {
  }
}
