/** POSIX file-system paths as `pathlib.PurePosixPath` sees them.

    A path is its `parts` tuple: an absolute path starts with its root part (`"/"`, or `"//"`
    for a path written with exactly two leading slashes), and every other part is a non-empty
    name without `/` that is not `"."`. Equality of paths is equality of parts. */
module Paths {
  import opened Text
  import Ordering

  type Path = seq<string>

  predicate IsRoot(part: string) { part == "/" || part == "//" }

  /** A parts tuple `pathlib` can produce. */
  predicate WellFormed(p: Path) {
    forall k :: 0 <= k < |p| ==>
      if k == 0 && IsRoot(p[k]) then true else p[k] != "" && p[k] != "." && '/' !in p[k]
  }

  predicate IsAbsolute(p: Path) { |p| > 0 && IsRoot(p[0]) }

  /** Only the root (or nothing) is left: `name` is empty and `parent` is the path itself. */
  predicate IsAnchorOnly(p: Path) { |p| == 0 || (|p| == 1 && IsRoot(p[0])) }

  /** `p.name`: the last part, or `""` for the root and the empty path. */
  function Name(p: Path): (r: string)
    ensures !IsAnchorOnly(p) ==> r == p[|p| - 1]
    ensures IsAnchorOnly(p) ==> r == ""
  {
    if IsAnchorOnly(p) then "" else p[|p| - 1]
  }

  /** `p.parent`: the path without its last part. */
  function Parent(p: Path): (r: Path)
    ensures r <= p
    ensures !IsAnchorOnly(p) ==> r + [Name(p)] == p
    ensures IsAnchorOnly(p) ==> r == p
  {
    if IsAnchorOnly(p) then p else p[..|p| - 1]
  }

  /** `p.is_relative_to(q)`: `q`'s parts begin `p`'s, and the empty path `.` is only an
      ancestor of relative paths. */
  predicate IsRelativeTo(p: Path, q: Path) {
    q <= p && (|q| == 0 ==> !IsAbsolute(p))
  }

  /** Position of the last dot in `s`, or -1: `str.rfind(".")`. */
  function LastDot(s: string): (i: int)
    ensures -1 <= i < |s|
    ensures i >= 0 ==> s[i] == '.' && forall j :: i < j < |s| ==> s[j] != '.'
    ensures i == -1 ==> forall j :: 0 <= j < |s| ==> s[j] != '.'
  {
    if |s| == 0 then -1 else if s[|s| - 1] == '.' then |s| - 1 else LastDot(s[..|s| - 1])
  }

  /** The name has an extension: a last dot that neither starts nor ends it. */
  predicate HasSuffix(p: Path) {
    var name := Name(p);
    var i := LastDot(name);
    0 < i < |name| - 1
  }

  /** `p.suffix`: from the last dot on, or `""`. */
  function Suffix(p: Path): (r: string)
    ensures HasSuffix(p) ==> |r| > 1 && r[0] == '.' && '.' !in r[1..]
    ensures !HasSuffix(p) ==> r == ""
  {
    var name := Name(p);
    if HasSuffix(p) then
      var r := name[LastDot(name)..];
      assert forall j :: 1 <= j < |r| ==> r[j] != '.';
      r
    else ""
  }

  /** `p.stem`: the name without its suffix. */
  function Stem(p: Path): (r: string)
    ensures HasSuffix(p) ==> |r| > 0
  {
    var name := Name(p);
    if HasSuffix(p) then name[..LastDot(name)] else name
  }

  lemma StemAndSuffix(p: Path)
    ensures Stem(p) + Suffix(p) == Name(p)
  {
    var name := Name(p);
    if HasSuffix(p) {
      assert name == name[..LastDot(name)] + name[LastDot(name)..];
    }
  }

  /** `str(p)`: the parts joined by `/`, after the root; `"."` for the empty path. */
  function Str(p: Path): (r: string)
  {
    if |p| == 0 then "."
    else if IsRoot(p[0]) then p[0] + Join(p[1..], "/")
    else Join(p, "/")
  }

  /** The root of a path string: `//` for exactly two leading slashes, `/` for any other
      number, nothing for a relative path. */
  function RootOf(s: string): (r: string)
    ensures r == "" || IsRoot(r)
  {
    if |s| >= 2 && s[..2] == "//" && (|s| == 2 || s[2] != '/') then "//"
    else if |s| >= 1 && s[0] == '/' then "/"
    else ""
  }

  /** The parts between slashes, without the empty and `.` ones. */
  function NameParts(pieces: seq<string>): (r: Path)
    ensures forall k :: 0 <= k < |r| ==> r[k] in pieces && r[k] != "" && r[k] != "."
    decreases |pieces|
  {
    if |pieces| == 0 then []
    else if pieces[0] == "" || pieces[0] == "." then NameParts(pieces[1..])
    else [pieces[0]] + NameParts(pieces[1..])
  }

  /** `PurePosixPath(s).parts`. */
  function Parse(s: string): (r: Path)
    ensures WellFormed(r)
    ensures IsAbsolute(r) <==> |s| > 0 && s[0] == '/'
  {
    var root := RootOf(s);
    var names := NameParts(Split(s, '/'));
    if root == "" then names else [root] + names
  }

  lemma {:induction false} NamePartsOfNames(names: seq<string>)
    requires forall k :: 0 <= k < |names| ==> names[k] != "" && names[k] != "."
    ensures NameParts(names) == names
    decreases |names|
  {
    if |names| > 0 {
      NamePartsOfNames(names[1..]);
      assert names == [names[0]] + names[1..];
    }
  }

  lemma SplitAfterSeparator(t: string)
    ensures Split("/" + t, '/') == [""] + Split(t, '/')
  {
    Text.FirstIndexAfter("", '/', t);
    assert ("" + "/" + t) == "/" + t;
    assert ("/" + t)[1..] == t;
  }

  lemma ParseStrRelative(p: Path)
    requires WellFormed(p) && |p| > 0 && !IsRoot(p[0])
    ensures Parse(Str(p)) == p
  {
    var s := Join(p, "/");
    JoinStartsWithFirst(p, "/");
    assert '/' !in p[0];
    assert RootOf(s) == "";
    Text.SplitJoin(p, '/');
    NamePartsOfNames(p);
  }

  lemma ParseStrRoot(root: string)
    requires IsRoot(root)
    ensures Parse(Str([root])) == [root]
  {
    assert Str([root]) == root + Join([], "/") == root;
    SplitAfterSeparator("");
    assert Split("", '/') == [""];
    if root == "//" {
      SplitAfterSeparator("/");
      assert "/" + "/" == root;
    }
  }

  /** The parts after the root, joined: non-empty and not starting with a slash. */
  lemma JoinedNames(rest: Path)
    requires |rest| > 0 && forall k :: 0 <= k < |rest| ==> rest[k] != "" && rest[k] != "." && '/' !in rest[k]
    ensures NameParts(Split(Join(rest, "/"), '/')) == rest
    ensures |Join(rest, "/")| > 0 && Join(rest, "/")[0] != '/'
  {
    JoinStartsWithFirst(rest, "/");
    assert '/' !in rest[0];
    Text.SplitJoin(rest, '/');
    NamePartsOfNames(rest);
  }

  lemma NamePartsSkipsEmpty(t: seq<string>)
    ensures NameParts([""] + t) == NameParts(t)
  {
    assert ([""] + t)[1..] == t;
  }

  lemma RootOfRooted(root: string, j: string)
    requires IsRoot(root) && |j| > 0 && j[0] != '/'
    ensures RootOf(root + j) == root
  {
    var s := root + j;
    if root == "/" {
      assert s[..2] == ['/', j[0]];
    } else {
      assert s[..2] == "//" && s[2] == j[0];
    }
  }

  lemma ParseSlashRooted(j: string)
    requires |j| > 0 && j[0] != '/'
    ensures Parse("/" + j) == ["/"] + NameParts(Split(j, '/'))
  {
    RootOfRooted("/", j);
    SplitAfterSeparator(j);
    NamePartsSkipsEmpty(Split(j, '/'));
  }

  lemma ParseDoubleSlashRooted(j: string)
    requires |j| > 0 && j[0] != '/'
    ensures Parse("//" + j) == ["//"] + NameParts(Split(j, '/'))
  {
    RootOfRooted("//", j);
    assert "//" + j == "/" + ("/" + j);
    SplitAfterSeparator(j);
    SplitAfterSeparator("/" + j);
    NamePartsSkipsEmpty([""] + Split(j, '/'));
    NamePartsSkipsEmpty(Split(j, '/'));
  }

  lemma ParseRooted(root: string, j: string)
    requires IsRoot(root) && |j| > 0 && j[0] != '/'
    ensures Parse(root + j) == [root] + NameParts(Split(j, '/'))
  {
    if root == "/" {
      ParseSlashRooted(j);
    } else {
      ParseDoubleSlashRooted(j);
    }
  }

  lemma ParseStrAbsolute(p: Path)
    requires WellFormed(p) && |p| > 1 && IsRoot(p[0])
    ensures Parse(Str(p)) == p
  {
    var rest := p[1..];
    assert forall k :: 0 <= k < |rest| ==> rest[k] == p[k + 1];
    JoinedNames(rest);
    ParseRooted(p[0], Join(rest, "/"));
    assert p == [p[0]] + rest;
  }

  /** Parsing the string of a path gives the path back. */
  lemma ParseStr(p: Path)
    requires WellFormed(p)
    ensures Parse(Str(p)) == p
  {
    if |p| == 0 {
      assert Split(".", '/') == ["."];
    } else if !IsRoot(p[0]) {
      ParseStrRelative(p);
    } else if |p| == 1 {
      ParseStrRoot(p[0]);
    } else {
      ParseStrAbsolute(p);
    }
  }

  /** Order of paths: lexicographic over the parts, names compared as strings. */
  predicate PathLt(p: Path, q: Path) {
    Ordering.LexLt(p, q, Ordering.StrLt)
  }

  lemma PathLtIsStrictTotalOrder()
    ensures Ordering.IsStrictTotalOrder(PathLt)
  {
    Ordering.StrLtIsStrictTotalOrder();
    Ordering.LexIsStrictTotalOrder(Ordering.StrLt);
    var lex := (a: seq<string>, b: seq<string>) => Ordering.LexLt(a, b, Ordering.StrLt);
    forall p: Path, q: Path ensures PathLt(p, q) == lex(p, q) {
    }
    forall p: Path, q: Path, r: Path ensures Ordering.TransitiveAt(p, q, r, PathLt) {
      assert Ordering.TransitiveAt(p, q, r, lex);
    }
  }
}
