/** POSIX paths as Python's `pathlib` handles them: a path is parsed into a
    root and a list of parts, `/` joins a segment onto a path, and `str()`
    writes the result back out. Both worker scripts build their storage
    destinations this way. */
module PurePaths {
  import opened Text

  /** A parsed path: its root ("", "/" or "//") and its parts, none of
      which is empty, "." or holds a '/'. */
  datatype PurePath = PurePath(root: string, parts: seq<string>)

  /** A piece of a path that pathlib keeps: empty pieces (from repeated or
      trailing slashes) and "." are dropped. */
  predicate KeptPart(x: string) { x != "" && x != "." }

  /** A segment that joins as exactly one new part. */
  predicate PlainName(x: string) { KeptPart(x) && '/' !in x }

  /** The root of a path: none for a relative path, "//" for precisely two
      leading slashes, and "/" for one or three or more. */
  function RootOf(s: string): (r: string)
    ensures r == "" <==> s == [] || s[0] != '/'
  {
    if s == [] || s[0] != '/' then ""
    else if |s| >= 2 && s[1] == '/' && !(|s| >= 3 && s[2] == '/') then "//"
    else "/"
  }

  function KeptParts(xs: seq<string>): (r: seq<string>)
    ensures forall k :: 0 <= k < |r| ==> KeptPart(r[k]) && r[k] in xs
    ensures |r| <= |xs|
  {
    if xs == [] then []
    else
      var tail := KeptParts(xs[1..]);
      if KeptPart(xs[0]) then [xs[0]] + tail else tail
  }

  lemma {:induction false} KeptPartsAppend(xs: seq<string>, ys: seq<string>)
    ensures KeptParts(xs + ys) == KeptParts(xs) + KeptParts(ys)
    decreases |xs|
  {
    if xs == [] {
      assert xs + ys == ys;
    } else {
      assert (xs + ys)[1..] == xs[1..] + ys;
      KeptPartsAppend(xs[1..], ys);
    }
  }

  /** `PurePosixPath(s)`. */
  function Parse(s: string): (p: PurePath)
    ensures forall k :: 0 <= k < |p.parts| ==> PlainName(p.parts[k])
  {
    PurePath(RootOf(s), KeptParts(Split(s, '/')))
  }

  /** `p / segment`: an absolute segment replaces the path; a relative one
      appends its parts. */
  function JoinPath(p: PurePath, segment: string): PurePath {
    var q := Parse(segment);
    if q.root != "" then q else PurePath(p.root, p.parts + q.parts)
  }

  /** `str(p)`: the root, then the parts separated by '/', or "." for the
      empty relative path. */
  function PathString(p: PurePath): string {
    if p.root == "" && p.parts == [] then "." else p.root + Join(p.parts, "/")
  }

  /** The text a new part is written after: the root alone while there are
      no parts, else the path and one '/'. */
  function Dir(p: PurePath): string {
    if p.parts == [] then p.root else PathString(p) + "/"
  }

  /** A plain name joins as one part, written after Dir. */
  lemma JoinName(p: PurePath, x: string)
    requires PlainName(x)
    ensures JoinPath(p, x) == PurePath(p.root, p.parts + [x])
    ensures PathString(JoinPath(p, x)) == Dir(p) + x
  {
    assert Split(x, '/') == [x];
    assert KeptParts([x]) == [x];
    JoinSnoc(p.parts, x, "/");
  }

  /** An empty segment and "." add nothing. */
  lemma JoinSkipped(p: PurePath, segment: string)
    requires segment == "" || segment == "."
    ensures JoinPath(p, segment) == p
  {
    assert Split(segment, '/') == [segment];
    assert KeptParts([segment]) == [];
    assert p.parts + [] == p.parts;
  }

  /** An absolute segment discards the path it is joined to. */
  lemma JoinAbsolute(p: PurePath, p': PurePath, segment: string)
    requires segment != [] && segment[0] == '/'
    ensures JoinPath(p, segment) == JoinPath(p', segment) == Parse(segment)
  {
  }

  /** A trailing '/' changes neither the root nor the parts, unless the
      path is nothing but slashes. */
  lemma ParseTrailingSlash(s: string)
    requires exists i :: 0 <= i < |s| && s[i] != '/'
    ensures Parse(s + "/") == Parse(s)
  {
    var i :| 0 <= i < |s| && s[i] != '/';
    var t := s + "/";
    assert s + [ '/' ] + "" == t;
    SplitAppend(s, "", '/');
    KeptPartsAppend(Split(s, '/'), [""]);
    assert KeptParts([""]) == [];
    assert KeptParts(Split(s, '/')) + [] == KeptParts(Split(s, '/'));
    if |s| < 3 {
      assert s[0] != '/' || (|s| >= 2 && s[1] != '/') by {
        if s[0] == '/' { assert i >= 1; }
      }
    }
    assert RootOf(t) == RootOf(s) by {
      if |s| >= 3 { assert t[0] == s[0] && t[1] == s[1] && t[2] == s[2]; }
      else if |s| >= 1 { assert t[0] == s[0]; if |s| == 2 { assert t[1] == s[1]; } }
    }
  }

  /** A leading "./" changes nothing in a path that is then relative. */
  lemma ParseDotPrefix(s: string)
    requires s == [] || s[0] != '/'
    ensures Parse("./" + s) == Parse(s)
  {
    assert "./" + s == "." + ['/'] + s;
    SplitAppend(".", s, '/');
    assert Split(".", '/') == ["."];
    KeptPartsAppend(["."], Split(s, '/'));
    assert KeptParts(["."]) == [];
    assert [] + KeptParts(Split(s, '/')) == KeptParts(Split(s, '/'));
  }
}
