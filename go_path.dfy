/**
 * Go's slash-separated `path` package (Clean, Join, Base, Dir), which the
 * generator uses to derive package names, aliases and output locations.
 */
module GoPath {

  /** strings.Split(s, string(c)): the pieces between occurrences of `c`, empty pieces included. */
  function SplitOn(s: string, c: char): (r: seq<string>)
    ensures |r| >= 1
    decreases |s|
  {
    if |s| == 0 then [""]
    else
      var rest := SplitOn(s[1..], c);
      if s[0] == c then [""] + rest else [[s[0]] + rest[0]] + rest[1..]
  }

  /** strings.Join(parts, sep) */
  function JoinWith(parts: seq<string>, sep: string): string
    decreases |parts|
  {
    if |parts| == 0 then ""
    else if |parts| == 1 then parts[0]
    else parts[0] + sep + JoinWith(parts[1..], sep)
  }

  /** The element-by-element rewriting of path.Clean: drop empty and `.` elements, let `..` cancel the element before it. */
  function CleanElements(elems: seq<string>, rooted: bool, acc: seq<string>): seq<string>
    decreases |elems|
  {
    if |elems| == 0 then acc
    else
      var e := elems[0];
      var acc' :=
        if e == "" || e == "." then acc
        else if e == ".." then
          (if |acc| > 0 && acc[|acc| - 1] != ".." then acc[..|acc| - 1]
           else if rooted then acc
           else acc + [".."])
        else acc + [e];
      CleanElements(elems[1..], rooted, acc')
  }

  /** path.Clean */
  function Clean(p: string): string {
    var rooted := |p| > 0 && p[0] == '/';
    var elems := CleanElements(SplitOn(p, '/'), rooted, []);
    if rooted then "/" + JoinWith(elems, "/")
    else if |elems| == 0 then "."
    else JoinWith(elems, "/")
  }

  function NonEmpty(parts: seq<string>): seq<string>
    decreases |parts|
  {
    if |parts| == 0 then []
    else if parts[0] == "" then NonEmpty(parts[1..])
    else [parts[0]] + NonEmpty(parts[1..])
  }

  /** path.Join: empty elements are ignored, the result is cleaned, and all-empty input gives "". */
  function Join(parts: seq<string>): string {
    var ne := NonEmpty(parts);
    if |ne| == 0 then "" else Clean(JoinWith(ne, "/"))
  }

  /** Index of the last `/` in `p`, or -1. */
  function LastSlash(p: string): (r: int)
    ensures -1 <= r < |p|
    ensures r >= 0 ==> p[r] == '/'
    ensures forall i :: r < i < |p| ==> p[i] != '/'
    decreases |p|
  {
    if |p| == 0 then -1
    else if p[|p| - 1] == '/' then |p| - 1
    else LastSlash(p[..|p| - 1])
  }

  function TrimTrailingSlashes(p: string): string
    decreases |p|
  {
    if |p| > 0 && p[|p| - 1] == '/' then TrimTrailingSlashes(p[..|p| - 1]) else p
  }

  /** path.Base: the last element, "." for the empty path and "/" for a path of slashes only. */
  function Base(p: string): string {
    if p == "" then "."
    else
      var q := TrimTrailingSlashes(p);
      if q == "" then "/" else q[LastSlash(q) + 1..]
  }

  /** path.Dir: everything before the last element, cleaned. */
  function Dir(p: string): string {
    Clean(p[..LastSlash(p) + 1])
  }

  // ---------------------------------------------------------------------
  // Clean relative paths
  // ---------------------------------------------------------------------

  /** A path element that Clean keeps as it is. */
  predicate CleanElement(e: string) {
    e != "" && e != "." && e != ".." && '/' !in e
  }

  /** A relative path whose every element Clean keeps: `k8s.io/api/apps`. */
  predicate IsCleanRelative(p: string) {
    forall e :: e in SplitOn(p, '/') ==> CleanElement(e)
  }

  /** Splitting at the separators and joining with it gives the text back. */
  lemma {:induction false} SplitJoin(s: string, c: char)
    ensures JoinWith(SplitOn(s, c), [c]) == s
    decreases |s|
  {
    if |s| > 0 {
      var rest := SplitOn(s[1..], c);
      SplitJoin(s[1..], c);
      if s[0] == c {
        assert SplitOn(s, c) == [""] + rest;
        assert ([""] + rest)[1..] == rest;
      } else if |rest| == 1 {
        assert SplitOn(s, c) == [[s[0]] + rest[0]];
      } else {
        var r := SplitOn(s, c);
        assert r == [[s[0]] + rest[0]] + rest[1..];
        assert r[1..] == rest[1..];
        assert JoinWith(rest, [c]) == rest[0] + [c] + JoinWith(rest[1..], [c]);
      }
    }
  }

  /** Text without the separator is one piece. */
  lemma {:induction false} SplitOnNoSep(s: string, c: char)
    requires c !in s
    ensures SplitOn(s, c) == [s]
    decreases |s|
  {
    if |s| > 0 {
      SplitOnNoSep(s[1..], c);
      assert [s[0]] + s[1..] == s;
    }
  }

  /** Splitting across a separator splits both sides. */
  lemma {:induction false} SplitOnConcat(a: string, b: string, c: char)
    ensures SplitOn(a + [c] + b, c) == SplitOn(a, c) + SplitOn(b, c)
    decreases |a|
  {
    if |a| == 0 {
      assert a + [c] + b == [c] + b;
      assert ([c] + b)[1..] == b;
    } else {
      assert (a + [c] + b)[1..] == a[1..] + [c] + b;
      SplitOnConcat(a[1..], b, c);
    }
  }

  /** Clean rewrites the elements one after another. */
  lemma {:induction false} CleanElementsConcat(x: seq<string>, y: seq<string>, rooted: bool, acc: seq<string>)
    ensures CleanElements(x + y, rooted, acc) == CleanElements(y, rooted, CleanElements(x, rooted, acc))
    decreases |x|
  {
    if |x| > 0 {
      assert (x + y)[0] == x[0];
      assert (x + y)[1..] == x[1..] + y;
      var e := x[0];
      var acc' :=
        if e == "" || e == "." then acc
        else if e == ".." then
          (if |acc| > 0 && acc[|acc| - 1] != ".." then acc[..|acc| - 1]
           else if rooted then acc
           else acc + [".."])
        else acc + [e];
      CleanElementsConcat(x[1..], y, rooted, acc');
    } else {
      assert x + y == y;
    }
  }

  /** Elements Clean keeps are appended as they are. */
  lemma {:induction false} CleanElementsKeep(elems: seq<string>, rooted: bool, acc: seq<string>)
    requires forall e :: e in elems ==> CleanElement(e)
    ensures CleanElements(elems, rooted, acc) == acc + elems
    decreases |elems|
  {
    if |elems| > 0 {
      assert elems[0] in elems;
      assert forall e :: e in elems[1..] ==> e in elems;
      CleanElementsKeep(elems[1..], rooted, acc + [elems[0]]);
      assert acc + [elems[0]] + elems[1..] == acc + elems;
    }
  }

  /** Clean leaves a clean relative path alone. */
  lemma CleanKeepsClean(p: string)
    requires IsCleanRelative(p)
    ensures Clean(p) == p
  {
    var parts := SplitOn(p, '/');
    CleanElementsKeep(parts, false, []);
    assert [] + parts == parts;
    SplitJoin(p, '/');
    CleanRelativeShape(p);
  }

  /** The first piece of a split: the whole of "", and empty when the text starts with the separator. */
  lemma SplitOnFirst(s: string, c: char)
    ensures |s| == 0 ==> SplitOn(s, c) == [""]
    ensures |s| > 0 && s[0] == c ==> SplitOn(s, c)[0] == ""
  {
  }

  /** A clean relative path is not empty and does not start with a slash. */
  lemma CleanRelativeShape(p: string)
    requires IsCleanRelative(p)
    ensures |p| > 0 && p[0] != '/'
  {
    SplitOnFirst(p, '/');
    assert SplitOn(p, '/')[0] in SplitOn(p, '/');
  }

  /** An element on its own is a clean relative path. */
  lemma ElementIsClean(e: string)
    requires CleanElement(e)
    ensures IsCleanRelative(e)
  {
    SplitOnNoSep(e, '/');
  }

  /** Clean relative paths joined by a slash are a clean relative path. */
  lemma CleanConcat(a: string, b: string)
    requires IsCleanRelative(a) && IsCleanRelative(b)
    ensures IsCleanRelative(a + "/" + b)
  {
    SplitOnConcat(a, b, '/');
  }

  /** path.Join of two clean relative paths puts one slash between them. */
  lemma JoinTwo(a: string, b: string)
    requires IsCleanRelative(a) && IsCleanRelative(b)
    ensures Join([a, b]) == a + "/" + b
  {
    CleanRelativeShape(a);
    CleanRelativeShape(b);
    assert [a, b][1..] == [b] && [b][1..] == [];
    assert NonEmpty([b]) == [b];
    assert NonEmpty([a, b]) == [a, b];
    assert JoinWith([a, b], "/") == a + "/" + JoinWith([b], "/");
    CleanConcat(a, b);
    CleanKeepsClean(a + "/" + b);
  }

  /** The directory and the last element of `d/v`, for a clean `d` and a single element `v`. */
  lemma DirBase(d: string, v: string)
    requires IsCleanRelative(d) && CleanElement(v)
    ensures Dir(d + "/" + v) == d && Base(d + "/" + v) == v
  {
    var p := d + "/" + v;
    var r := LastSlash(p);
    assert p[|d|] == '/';
    forall i | |d| < i < |p| ensures p[i] != '/' {
      assert p[i] == v[i - |d| - 1];
    }
    assert r == |d|;
    assert p[..r + 1] == d + "/" + "";
    SplitOnConcat(d, "", '/');
    CleanElementsConcat(SplitOn(d, '/'), [""], false, []);
    CleanElementsKeep(SplitOn(d, '/'), false, []);
    assert [] + SplitOn(d, '/') == SplitOn(d, '/');
    SplitJoin(d, '/');
    CleanRelativeShape(d);
    assert d + "/" + "" == d + "/";
    assert (d + "/")[0] == d[0];
    assert p[|p| - 1] == v[|v| - 1];
    assert p[r + 1..] == v;
  }
}
