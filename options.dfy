/**
 * The generate command's options (pkg/cli/options.go): the API version
 * grammar, the discovery of group versions under the APIs directory, the
 * selection of input packages, the completion of defaults and the
 * validation of the options.
 */
module CliOptions {
  import opened GoStrings
  import GoPath
  import opened Wrappers
  import opened Lists
  import opened GoSet

  // ---------------------------------------------------------------------
  // The version grammar ^v(0|[1-9][0-9]*)((alpha|beta)(0|[1-9][0-9]*))?$
  // ---------------------------------------------------------------------

  /** The number of leading decimal digits of `s`. */
  function DigitRun(s: string): (n: nat)
    ensures n <= |s| && AllDigits(s[..n])
    ensures n < |s| ==> !IsDigit(s[n])
    decreases |s|
  {
    if |s| == 0 || !IsDigit(s[0]) then 0
    else
      var k := DigitRun(s[1..]);
      assert s[..1 + k] == [s[0]] + s[1..][..k];
      1 + k
  }

  /** What may follow the major number: nothing, or `alpha`/`beta` and a numeral. */
  predicate LevelSuffix(s: string) {
    s == "" ||
    (HasPrefix(s, "alpha") && CanonicalNumeral(s[5..])) ||
    (HasPrefix(s, "beta") && CanonicalNumeral(s[4..]))
  }

  /**
   * versionRegexp, as a recognizer: `v`, a numeral, and an optional level.
   * The major number is the whole run of digits after `v`, because what
   * follows it is either the end or a letter.
   */
  predicate IsVersion(s: string) {
    |s| >= 2 && s[0] == 'v' &&
    var rest := s[1..];
    var n := DigitRun(rest);
    CanonicalNumeral(rest[..n]) && LevelSuffix(rest[n..])
  }

  /** The structure the grammar describes, as a value. */
  datatype Stability = Alpha | Beta
  datatype Level = Level(stability: Stability, n: nat)
  datatype Version = Version(major: nat, level: Option<Level>)

  function StabilityText(st: Stability): string {
    match st
    case Alpha => "alpha"
    case Beta => "beta"
  }

  function LevelText(level: Option<Level>): string {
    match level
    case None => ""
    case Some(Level(st, n)) => StabilityText(st) + Decimal(n)
  }

  /** How a version is written: `v1`, `v2beta3`. */
  function VersionText(v: Version): string {
    "v" + Decimal(v.major) + LevelText(v.level)
  }

  /** The digit run of a numeral followed by text that does not start with a digit is the numeral. */
  lemma {:induction false} DigitRunOf(a: string, b: string)
    requires AllDigits(a)
    requires |b| == 0 || !IsDigit(b[0])
    ensures DigitRun(a + b) == |a|
    decreases |a|
  {
    if |a| > 0 {
      assert (a + b)[1..] == a[1..] + b;
      DigitRunOf(a[1..], b);
    } else {
      assert a + b == b;
    }
  }

  /** How `v`, digits and a suffix that does not start with a digit are read by the grammar. */
  lemma Decompose(d: string, suffix: string)
    requires AllDigits(d)
    requires |suffix| == 0 || !IsDigit(suffix[0])
    ensures var s := "v" + d + suffix;
      |s| >= 1 && s[0] == 'v' && s[1..] == d + suffix &&
      DigitRun(s[1..]) == |d| && s[1..][..|d|] == d && s[1..][|d|..] == suffix
    ensures IsVersion("v" + d + suffix) <==> CanonicalNumeral(d) && LevelSuffix(suffix)
  {
    var s := "v" + d + suffix;
    assert s[1..] == d + suffix;
    DigitRunOf(d, suffix);
    assert (d + suffix)[..|d|] == d && (d + suffix)[|d|..] == suffix;
  }

  lemma LevelTextShape(level: Option<Level>)
    ensures LevelSuffix(LevelText(level))
    ensures |LevelText(level)| == 0 || !IsDigit(LevelText(level)[0])
  {
    match level
    case None =>
    case Some(Level(st, n)) =>
      DecimalRoundTrip(n);
      var w := StabilityText(st);
      var t := LevelText(level);
      assert t[..|w|] == w && t[|w|..] == Decimal(n);
  }

  /** Every version written out is accepted by the grammar. */
  lemma VersionTextAccepted(v: Version)
    ensures IsVersion(VersionText(v))
  {
    DecimalRoundTrip(v.major);
    LevelTextShape(v.level);
    Decompose(Decimal(v.major), LevelText(v.level));
  }

  /** Reads a level suffix back into its structure. */
  function ParseLevel(suffix: string): (level: Option<Level>)
    requires LevelSuffix(suffix)
    ensures level.None? <==> suffix == ""
  {
    if suffix == "" then None
    else if HasPrefix(suffix, "alpha") then Some(Level(Alpha, NumeralValue(suffix[5..])))
    else Some(Level(Beta, NumeralValue(suffix[4..])))
  }

  /** Reads an accepted version back into its structure. */
  function ParseVersion(s: string): (v: Version)
    requires IsVersion(s)
    ensures v.level.None? <==> DigitRun(s[1..]) == |s| - 1
  {
    var rest := s[1..];
    var n := DigitRun(rest);
    Version(NumeralValue(rest[..n]), ParseLevel(rest[n..]))
  }

  /** Every accepted level suffix is the writing of the level read from it. */
  lemma ParseLevelRoundTrip(suffix: string)
    requires LevelSuffix(suffix)
    ensures LevelText(ParseLevel(suffix)) == suffix
  {
    if suffix != "" {
      if HasPrefix(suffix, "alpha") {
        CanonicalNumeralIsDecimal(suffix[5..]);
        assert suffix == "alpha" + suffix[5..];
      } else {
        CanonicalNumeralIsDecimal(suffix[4..]);
        assert suffix == "beta" + suffix[4..];
      }
    }
  }

  /** Every accepted text is the writing of the version read from it. */
  lemma ParseVersionRoundTrip(s: string)
    requires IsVersion(s)
    ensures VersionText(ParseVersion(s)) == s
  {
    var rest := s[1..];
    var n := DigitRun(rest);
    CanonicalNumeralIsDecimal(rest[..n]);
    ParseLevelRoundTrip(rest[n..]);
    assert s == "v" + rest[..n] + rest[n..];
  }

  /** Writing a level and reading it back gives the same level. */
  lemma LevelRoundTrip(level: Option<Level>)
    ensures LevelSuffix(LevelText(level)) && ParseLevel(LevelText(level)) == level
  {
    LevelTextShape(level);
    match level
    case None =>
    case Some(Level(st, n)) =>
      DecimalRoundTrip(n);
      var t := LevelText(level);
      if st == Alpha {
        assert t[5..] == Decimal(n);
      } else {
        assert t[4..] == Decimal(n);
        assert t[0] == 'b';
      }
  }

  /** Writing a version and reading it back gives the same version. */
  lemma VersionRoundTrip(v: Version)
    ensures IsVersion(VersionText(v)) && ParseVersion(VersionText(v)) == v
  {
    var d := Decimal(v.major);
    var suffix := LevelText(v.level);
    DecimalRoundTrip(v.major);
    LevelRoundTrip(v.level);
    LevelTextShape(v.level);
    Decompose(d, suffix);
  }

  /** `v0` and `v1` are versions. */
  lemma AcceptedPlain()
    ensures IsVersion("v0") && IsVersion("v1")
  {
    VersionTextAccepted(Version(0, None));
    VersionTextAccepted(Version(1, None));
  }

  /** `v1alpha1` and `v2beta0` are versions. */
  lemma AcceptedLevels()
    ensures IsVersion("v1alpha1") && IsVersion("v2beta0")
  {
    Decompose("1", "alpha1");
    assert "v1alpha1" == "v" + "1" + "alpha1";
    assert "alpha1"[5..] == "1";
    Decompose("2", "beta0");
    assert "v2beta0" == "v" + "2" + "beta0";
    assert "beta0"[4..] == "0";
  }

  /** `v10beta3` is a version: the major number may have several digits. */
  lemma AcceptedLongMajor()
    ensures IsVersion("v10beta3")
  {
    Decompose("10", "beta3");
    assert "v10beta3" == "v" + "10" + "beta3";
    assert "beta3"[4..] == "3";
  }

  /** A major number with a leading zero is rejected. */
  lemma RejectedLeadingZero()
    ensures !IsVersion("v01")
  {
    Decompose("01", "");
    assert "v01" == "v" + "01" + "";
  }

  /** A level without a number, or another level name, is rejected. */
  lemma RejectedAlpha()
    ensures !IsVersion("v1alpha")
  {
    Decompose("1", "alpha");
    assert "v1alpha" == "v" + "1" + "alpha";
  }

  /** A level with no number after it is rejected. */
  lemma RejectedBeta()
    ensures !IsVersion("v1beta")
  {
    Decompose("1", "beta");
    assert "v1beta" == "v" + "1" + "beta";
  }

  /** Only `alpha` and `beta` are stability levels. */
  lemma RejectedGamma()
    ensures !IsVersion("v1gamma1")
  {
    Decompose("1", "gamma1");
    assert "v1gamma1" == "v" + "1" + "gamma1";
  }

  /** A level number with a leading zero is rejected. */
  lemma RejectedLevelLeadingZero()
    ensures !IsVersion("v1alpha01")
  {
    Decompose("1", "alpha01");
    assert "v1alpha01" == "v" + "1" + "alpha01";
    assert "alpha01"[5..] == "01";
  }

  /** A missing `v` or a missing major number is rejected. */
  lemma RejectedShapes()
    ensures !IsVersion("1") && !IsVersion("v") && !IsVersion("vbeta1")
  {
    Decompose("", "beta1");
    assert "vbeta1" == "v" + "" + "beta1";
  }

  // ---------------------------------------------------------------------
  // Discovery of group versions under the APIs directory
  // ---------------------------------------------------------------------

  /**
   * A directory tree as the walk sees it. A directory's children are in the
   * order the walk reads them (by name), and a name never contains `/`.
   */
  datatype Node = File(name: string) | Dir(name: string, children: seq<Node>)

  /** What findGroupVersion reports: `group/version` paths and the groups with Go files of their own. */
  datatype Discovered = Discovered(groupVersions: seq<string>, internal: seq<string>)

  /** The `group/version` paths of the version directories of group `g`, in walk order. */
  function VersionsIn(g: string, cs: seq<Node>): seq<string>
    decreases |cs|
  {
    if |cs| == 0 then []
    else
      var c := cs[|cs| - 1];
      VersionsIn(g, cs[..|cs| - 1]) + (if c.Dir? && IsVersion(c.name) then [g + "/" + c.name] else [])
  }

  /** The `group/version` paths under the group directories `cs`, in walk order. */
  function GroupVersionsIn(cs: seq<Node>): seq<string>
    decreases |cs|
  {
    if |cs| == 0 then []
    else
      var c := cs[|cs| - 1];
      GroupVersionsIn(cs[..|cs| - 1]) + (if c.Dir? then VersionsIn(c.name, c.children) else [])
  }

  /** The groups among `cs` that have at least one version directory. */
  function GroupsIn(cs: seq<Node>): set<string>
    decreases |cs|
  {
    if |cs| == 0 then {}
    else
      var c := cs[|cs| - 1];
      GroupsIn(cs[..|cs| - 1]) + (if c.Dir? && |VersionsIn(c.name, c.children)| > 0 then {c.name} else {})
  }

  /** The entry named `name` among `cs`, as a lookup of `root/name` finds it. */
  function Lookup(cs: seq<Node>, name: string): (r: Option<Node>)
    ensures r.Some? ==> r.value in cs && r.value.name == name
    ensures r.None? <==> forall c :: c in cs ==> c.name != name
  {
    if |cs| == 0 then None
    else if cs[0].name == name then Some(cs[0])
    else Lookup(cs[1..], name)
  }

  /** A file whose name ends in `.go`. */
  predicate GoSource(c: Node) {
    c.File? && HasSuffix(c.name, ".go")
  }

  /** A directory holding a Go file directly (files in its subdirectories do not count). */
  predicate HasGoFile(n: Node) {
    n.Dir? && exists i :: 0 <= i < |n.children| && GoSource(n.children[i])
  }

  /** Whether the entry for group `g` holds a Go file directly. */
  predicate GroupHasGoFile(cs: seq<Node>, g: string) {
    match Lookup(cs, g)
    case None => false
    case Some(n) => HasGoFile(n)
  }

  function GroupVersions(root: Node): seq<string> {
    if root.Dir? then GroupVersionsIn(root.children) else []
  }

  /** The groups with a version directory and a Go file of their own: the internal versions. */
  function InternalGroups(root: Node): set<string> {
    if root.Dir? then set g | g in GroupsIn(root.children) && GroupHasGoFile(root.children, g) else {}
  }

  /**
   * goFileExists: walks `n` without descending into subdirectories and
   * stops at the first file whose name ends in `.go`. A walk rooted at a
   * file finds nothing.
   */
  method GoFileExists(n: Node) returns (got: bool)
    ensures got == HasGoFile(n)
  {
    if n.File? {
      return false;
    }
    var cs := n.children;
    var i := 0;
    while i < |cs|
      invariant 0 <= i <= |cs|
      invariant forall k :: 0 <= k < i ==> !GoSource(cs[k])
    {
      if cs[i].Dir? {
        // SkipDir: the directory's contents are not visited
        i := i + 1;
        continue;
      }
      if HasSuffix(cs[i].name, ".go") {
        // SkipAll: the walk ends here
        return true;
      }
      i := i + 1;
    }
    return false;
  }

  lemma GroupsHaveEntries(cs: seq<Node>, g: string)
    requires g in GroupsIn(cs)
    ensures Lookup(cs, g).Some?
    decreases |cs|
  {
    var c := cs[|cs| - 1];
    if g in GroupsIn(cs[..|cs| - 1]) {
      GroupsHaveEntries(cs[..|cs| - 1], g);
    } else {
      assert c.name == g;
    }
  }

  /**
   * The walk inside group directory `g`: each version directory is recorded
   * as `g/version` and skipped; other entries are passed over.
   */
  method ScanVersions(g: string, vs: seq<Node>) returns (found: seq<string>)
    ensures found == VersionsIn(g, vs)
  {
    found := [];
    var j := 0;
    while j < |vs|
      invariant 0 <= j <= |vs|
      invariant found == VersionsIn(g, vs[..j])
    {
      assert vs[..j + 1][..j] == vs[..j];
      if vs[j].Dir? && IsVersion(vs[j].name) {
        found := found + [g + "/" + vs[j].name];
      }
      j := j + 1;
    }
    assert vs[..j] == vs;
  }

  /** The range over the groups found: those whose directory holds a Go file, in the set's order. */
  method InternalOf(cs: seq<Node>, groups: set<string>) returns (internal: seq<string>)
    requires groups <= GroupsIn(cs)
    ensures Elems(internal) == set g | g in groups && GroupHasGoFile(cs, g)
    ensures Distinct(internal)
  {
    var gs := ToStrings(groups);
    internal := [];
    var k := 0;
    while k < |gs|
      invariant 0 <= k <= |gs|
      invariant Elems(internal) == WithGoFile(cs, gs[..k])
      invariant Distinct(internal)
    {
      GroupsHaveEntries(cs, gs[k]);
      var has := GoFileExists(Lookup(cs, gs[k]).value);
      WithGoFileSnoc(cs, gs, k);
      if has {
        assert gs[k] !in Elems(internal) by {
          assert gs[k] !in gs[..k];
        }
        AppendFresh(internal, gs[k]);
        internal := internal + [gs[k]];
      }
      k := k + 1;
    }
    assert gs[..k] == gs;
  }

  /** The groups among `xs` whose directory holds a Go file. */
  function WithGoFile(cs: seq<Node>, xs: seq<string>): set<string> {
    set g | g in xs && GroupHasGoFile(cs, g)
  }

  lemma WithGoFileSnoc(cs: seq<Node>, xs: seq<string>, k: nat)
    requires k < |xs|
    ensures WithGoFile(cs, xs[..k + 1]) ==
      WithGoFile(cs, xs[..k]) + (if GroupHasGoFile(cs, xs[k]) then {xs[k]} else {})
  {
    assert xs[..k + 1] == xs[..k] + [xs[k]];
  }

  /**
   * findGroupVersion: a missing root is an error; otherwise the version
   * directories two levels below the root, in walk order, and the groups
   * among them holding Go files of their own, in no particular order.
   */
  method FindGroupVersion(root: Option<Node>) returns (r: Result<Discovered>)
    ensures root.None? <==> r.Err?
    ensures r.Ok? ==> r.value.groupVersions == GroupVersions(root.value)
    ensures r.Ok? ==> Elems(r.value.internal) == InternalGroups(root.value) && Distinct(r.value.internal)
  {
    if root.None? {
      return Err("no such file or directory");
    }
    if root.value.File? {
      return Ok(Discovered([], []));
    }
    var cs := root.value.children;
    var groupVersions: seq<string> := [];
    var groups: set<string> := {};
    var i := 0;
    while i < |cs|
      invariant 0 <= i <= |cs|
      invariant groupVersions == GroupVersionsIn(cs[..i])
      invariant groups == GroupsIn(cs[..i])
    {
      var c := cs[i];
      assert cs[..i + 1][..i] == cs[..i];
      if c.Dir? {
        // a group directory: the walk descends into it
        var found := ScanVersions(c.name, c.children);
        groupVersions := groupVersions + found;
        if |found| > 0 {
          groups := groups + {c.name};
        }
      }
      i := i + 1;
    }
    assert cs[..i] == cs;
    var internal := InternalOf(cs, groups);
    return Ok(Discovered(groupVersions, internal));
  }

  /** Entry `j` of group directory `i` is a version directory. */
  predicate VersionDirAt(cs: seq<Node>, i: int, j: int) {
    0 <= i < |cs| && cs[i].Dir? && 0 <= j < |cs[i].children| &&
    cs[i].children[j].Dir? && IsVersion(cs[i].children[j].name)
  }

  lemma {:induction false} VersionsComplete(g: string, vs: seq<Node>, j: int)
    requires 0 <= j < |vs| && vs[j].Dir? && IsVersion(vs[j].name)
    ensures g + "/" + vs[j].name in VersionsIn(g, vs)
    decreases |vs|
  {
    if j < |vs| - 1 {
      VersionsComplete(g, vs[..|vs| - 1], j);
    }
  }

  lemma {:induction false} VersionsSound(g: string, vs: seq<Node>, x: string)
    requires x in VersionsIn(g, vs)
    ensures exists j :: 0 <= j < |vs| && vs[j].Dir? && IsVersion(vs[j].name) && x == g + "/" + vs[j].name
    decreases |vs|
  {
    var front := vs[..|vs| - 1];
    if x in VersionsIn(g, front) {
      VersionsSound(g, front, x);
      var j :| 0 <= j < |front| && front[j].Dir? && IsVersion(front[j].name) && x == g + "/" + front[j].name;
      assert vs[j] == front[j];
    } else {
      assert vs[|vs| - 1].Dir? && x == g + "/" + vs[|vs| - 1].name;
    }
  }

  /** Every version directory two levels below the root is found. */
  lemma {:induction false} GroupVersionsComplete(cs: seq<Node>, i: int, j: int)
    requires VersionDirAt(cs, i, j)
    ensures cs[i].name + "/" + cs[i].children[j].name in GroupVersionsIn(cs)
    decreases |cs|
  {
    if i < |cs| - 1 {
      GroupVersionsComplete(cs[..|cs| - 1], i, j);
    } else {
      VersionsComplete(cs[i].name, cs[i].children, j);
    }
  }

  /** Everything found is `group/version` for a version directory two levels below the root. */
  lemma {:induction false} GroupVersionsSound(cs: seq<Node>, x: string)
    requires x in GroupVersionsIn(cs)
    ensures exists i, j :: VersionDirAt(cs, i, j) && x == cs[i].name + "/" + cs[i].children[j].name
    decreases |cs|
  {
    var front := cs[..|cs| - 1];
    if x in GroupVersionsIn(front) {
      GroupVersionsSound(front, x);
      var i, j :| VersionDirAt(front, i, j) && x == front[i].name + "/" + front[i].children[j].name;
      assert cs[i] == front[i];
      assert VersionDirAt(cs, i, j);
    } else {
      var c := cs[|cs| - 1];
      VersionsSound(c.name, c.children, x);
      var j :| 0 <= j < |c.children| && c.children[j].Dir? && IsVersion(c.children[j].name) && x == c.name + "/" + c.children[j].name;
      assert VersionDirAt(cs, |cs| - 1, j);
    }
  }

  /** The groups recorded are exactly the directories with a version directory. */
  lemma {:induction false} GroupsAreVersionedDirs(cs: seq<Node>, g: string)
    ensures g in GroupsIn(cs) <==> exists i, j :: VersionDirAt(cs, i, j) && cs[i].name == g
    decreases |cs|
  {
    if |cs| > 0 {
      var front := cs[..|cs| - 1];
      var c := cs[|cs| - 1];
      GroupsAreVersionedDirs(front, g);
      if g in GroupsIn(cs) {
        if g in GroupsIn(front) {
          var i, j :| VersionDirAt(front, i, j) && front[i].name == g;
          assert cs[i] == front[i];
          assert VersionDirAt(cs, i, j);
        } else {
          var x := VersionsIn(c.name, c.children)[0];
          VersionsSound(c.name, c.children, x);
          var j :| 0 <= j < |c.children| && c.children[j].Dir? && IsVersion(c.children[j].name) && x == c.name + "/" + c.children[j].name;
          assert VersionDirAt(cs, |cs| - 1, j);
        }
      }
      if exists i, j :: VersionDirAt(cs, i, j) && cs[i].name == g {
        var i, j :| VersionDirAt(cs, i, j) && cs[i].name == g;
        if i < |cs| - 1 {
          assert VersionDirAt(front, i, j);
        } else {
          VersionsComplete(c.name, c.children, j);
        }
      }
    }
  }

  /** Files inside a subdirectory never make a directory hold Go files. */
  lemma SubdirectoriesIgnored(name: string, cs: seq<Node>, sub: Node)
    requires sub.Dir?
    ensures HasGoFile(Dir(name, cs + [sub])) == HasGoFile(Dir(name, cs))
  {
    var ext := cs + [sub];
    if HasGoFile(Dir(name, ext)) {
      var i :| 0 <= i < |ext| && GoSource(ext[i]);
      assert ext[i] == cs[i];
    }
    if HasGoFile(Dir(name, cs)) {
      var i :| 0 <= i < |cs| && GoSource(cs[i]);
      assert ext[i] == cs[i];
    }
  }

  /** The layout of the unit tests: `apps/types.go`, `apps/v1/`, `apps/v2/types.go`. */
  function AppsTree(): Node {
    Dir("apps", [File("types.go"), Dir("v1", []), Dir("v2", [File("types.go")])])
  }

  /** goFileExists on `apps`, `apps/v1` and `apps/v2` of the test layout. */
  lemma GoFileExistsExamples()
    ensures HasGoFile(AppsTree())
    ensures !HasGoFile(AppsTree().children[1])
    ensures HasGoFile(AppsTree().children[2])
  {
    assert GoSource(AppsTree().children[0]);
    assert GoSource(AppsTree().children[2].children[0]);
  }

  /** A file followed by two version directories yields those two versions, in walk order. */
  lemma FileThenTwoVersions(g: string, f: string, a: string, x: seq<Node>, b: string, y: seq<Node>)
    requires IsVersion(a) && IsVersion(b)
    ensures VersionsIn(g, [File(f), Dir(a, x), Dir(b, y)]) == [g + "/" + a, g + "/" + b]
  {
    var cs := [File(f), Dir(a, x), Dir(b, y)];
    assert cs[..2] == [File(f), Dir(a, x)];
    assert cs[..2][..1] == [File(f)];
    assert [File(f)][..0] == [];
    assert VersionsIn(g, [File(f)]) == [];
    assert VersionsIn(g, cs[..2]) == [g + "/" + a];
  }

  /** The version directories of `apps` in the test layout, in walk order. */
  lemma AppsVersions(cs: seq<Node>)
    requires cs == AppsTree().children
    ensures VersionsIn("apps", cs) == ["apps/v1", "apps/v2"]
  {
    AcceptedPlain();
    AcceptedTwo();
    FileThenTwoVersions("apps", "types.go", "v1", [], "v2", [File("types.go")]);
    assert "apps" + "/" + "v1" == "apps/v1";
    assert "apps" + "/" + "v2" == "apps/v2";
  }

  lemma AcceptedTwo()
    ensures IsVersion("v2")
  {
    VersionTextAccepted(Version(2, None));
    var v2 := VersionText(Version(2, None));
    assert v2 == "v2";
  }

  /** findGroupVersion on the test layout finds `apps/v1`, `apps/v2` and the internal group `apps`. */
  lemma FindGroupVersionExample()
    ensures GroupVersions(Dir("apis", [AppsTree()])) == ["apps/v1", "apps/v2"]
    ensures InternalGroups(Dir("apis", [AppsTree()])) == {"apps"}
  {
    AppsVersions(AppsTree().children);
    var top := [AppsTree()];
    assert top[..0] == [];
    assert GroupVersionsIn(top) == ["apps/v1", "apps/v2"];
    assert GroupsIn(top) == {"apps"};
    GoFileExistsExamples();
    assert GroupHasGoFile(top, "apps");
  }

  // ---------------------------------------------------------------------
  // Selection of the input packages, completion and validation
  // ---------------------------------------------------------------------

  /** The input packages handed to the generators: versioned and internal. */
  datatype Selection = Selection(packages: seq<string>, internal: seq<string>)

  /** The import path of group version (or group) `gv`: `<apis-module>/<apis-path>/<gv>`. */
  function PackageOf(apisModule: string, apisPath: string, gv: string): string {
    GoPath.Join([apisModule, apisPath, gv])
  }

  /** The import paths of `gvs`, in order. */
  function Packages(apisModule: string, apisPath: string, gvs: seq<string>): (r: seq<string>)
    ensures |r| == |gvs|
    decreases |gvs|
  {
    if |gvs| == 0 then []
    else Packages(apisModule, apisPath, gvs[..|gvs| - 1]) + [PackageOf(apisModule, apisPath, gvs[|gvs| - 1])]
  }

  /** The group versions selected: all found when none are requested, else the requested ones found, in request order. */
  function SelectGroupVersions(found: seq<string>, opts: seq<string>): seq<string> {
    if |opts| == 0 then found else Filter(opts, Elems(found))
  }

  /**
   * The directory of the APIs module: the working directory when it is the
   * module being generated, otherwise what `go list -m` printed for it,
   * trimmed; a failing `go list` is the error.
   */
  function ModuleDir(apisModule: string, mod: string, workdir: string, goList: Result<string>): Result<string> {
    if apisModule == mod then Ok(workdir)
    else if goList.Err? then Err(goList.msg)
    else Ok(TrimSpace(goList.value))
  }

  /** The APIs root `<module dir>/<apis-path>` and the tree found there, or why there is none. */
  function ApisTree(apisModule: string, mod: string, apisPath: string, workdir: string,
                    goList: Result<string>, fsys: string -> Option<Node>): Result<Node>
  {
    var dir := ModuleDir(apisModule, mod, workdir, goList);
    if dir.Err? then Err(dir.msg)
    else
      var root := GoPath.Join([dir.value, apisPath]);
      if fsys(root).None? then Err("no such file or directory") else Ok(fsys(root).value)
  }

  /**
   * What inputAPIPackages selects from `tree`: the versioned packages of
   * SelectGroupVersions; with no request, the internal packages of all
   * internal groups in some order, each once; with a request, the requested
   * entries that name an internal group, in request order.
   */
  ghost predicate SelectionFor(sel: Selection, apisModule: string, apisPath: string, opts: seq<string>, tree: Node) {
    sel.packages == Packages(apisModule, apisPath, SelectGroupVersions(GroupVersions(tree), opts)) &&
    (|opts| > 0 ==> sel.internal == Packages(apisModule, apisPath, Filter(opts, InternalGroups(tree)))) &&
    (|opts| == 0 ==> exists gs :: Distinct(gs) && Elems(gs) == InternalGroups(tree) &&
                                sel.internal == Packages(apisModule, apisPath, gs))
  }

  lemma PackagesSnoc(apisModule: string, apisPath: string, gvs: seq<string>, i: nat)
    requires i < |gvs|
    ensures Packages(apisModule, apisPath, gvs[..i + 1]) ==
            Packages(apisModule, apisPath, gvs[..i]) + [PackageOf(apisModule, apisPath, gvs[i])]
  {
    assert gvs[..i + 1][..i] == gvs[..i];
  }

  lemma PackagesAppend(apisModule: string, apisPath: string, gvs: seq<string>, x: string)
    ensures Packages(apisModule, apisPath, gvs + [x]) ==
            Packages(apisModule, apisPath, gvs) + [PackageOf(apisModule, apisPath, x)]
  {
    assert (gvs + [x])[..|gvs|] == gvs;
  }

  /** The message Complete reports, before the underlying error, when go.mod names no module. */
  const GoModError := "failed to find go module from mod, you must provide repo name, please set the flag --repo, err: "

  /** The options of the generate command that the selection and validation read. */
  class GenOptions {
    var modulePath: string
    var boilerplatePath: string
    var apisPath: string
    var groupVersionsOpt: seq<string>
    var apisModule: string
    var inputPackages: seq<string>
    var inputInternalPackages: seq<string>

    /** The options as the command-line flags set them, before Complete. */
    constructor (modulePath: string, boilerplatePath: string, apisPath: string, apisModule: string,
                 groupVersionsOpt: seq<string>)
      ensures this.modulePath == modulePath && this.boilerplatePath == boilerplatePath
      ensures this.apisPath == apisPath && this.apisModule == apisModule
      ensures this.groupVersionsOpt == groupVersionsOpt
      ensures inputPackages == [] && inputInternalPackages == []
    {
      this.modulePath := modulePath;
      this.boilerplatePath := boilerplatePath;
      this.apisPath := apisPath;
      this.apisModule := apisModule;
      this.groupVersionsOpt := groupVersionsOpt;
      inputPackages := [];
      inputInternalPackages := [];
    }

    /** The import paths of `gvs`, appended one by one. */
    method JoinAll(gvs: seq<string>) returns (r: seq<string>)
      ensures r == Packages(apisModule, apisPath, gvs)
    {
      r := [];
      var i := 0;
      while i < |gvs|
        invariant 0 <= i <= |gvs|
        invariant r == Packages(apisModule, apisPath, gvs[..i])
      {
        PackagesSnoc(apisModule, apisPath, gvs, i);
        r := r + [PackageOf(apisModule, apisPath, gvs[i])];
        i := i + 1;
      }
      assert gvs[..i] == gvs;
    }

    /** The import paths of the requested entries that are in `found`, in request order. */
    method JoinRequested(found: set<string>) returns (r: seq<string>)
      ensures r == Packages(apisModule, apisPath, Filter(groupVersionsOpt, found))
    {
      var opts := groupVersionsOpt;
      r := [];
      var i := 0;
      while i < |opts|
        invariant 0 <= i <= |opts|
        invariant r == Packages(apisModule, apisPath, Filter(opts[..i], found))
      {
        FilterSnoc(opts, found, i);
        if opts[i] in found {
          PackagesAppend(apisModule, apisPath, Filter(opts[..i], found), opts[i]);
          assert Filter(opts[..i + 1], found) == Filter(opts[..i], found) + [opts[i]];
          r := r + [PackageOf(apisModule, apisPath, opts[i])];
        } else {
          assert Filter(opts[..i + 1], found) == Filter(opts[..i], found);
        }
        i := i + 1;
      }
      assert opts[..i] == opts;
    }

    /**
     * inputAPIPackages: locates the APIs root, discovers its group
     * versions and selects the input packages.
     */
    method InputAPIPackages(workdir: string, goList: Result<string>, fsys: string -> Option<Node>)
      returns (r: Result<Selection>)
      ensures var tree := ApisTree(apisModule, modulePath, apisPath, workdir, goList, fsys);
        (r.Err? <==> tree.Err?) &&
        (r.Ok? ==> SelectionFor(r.value, apisModule, apisPath, groupVersionsOpt, tree.value))
    {
      var dir: string;
      if apisModule == modulePath {
        dir := workdir;
      } else {
        if goList.Err? {
          return Err(goList.msg);
        }
        dir := TrimSpace(goList.value);
      }
      var root := GoPath.Join([dir, apisPath]);
      var found := FindGroupVersion(fsys(root));
      if found.Err? {
        return Err(found.msg);
      }
      var all := found.value;
      var packages, internal;
      if |groupVersionsOpt| == 0 {
        packages := JoinAll(all.groupVersions);
        internal := JoinAll(all.internal);
      } else {
        packages := JoinRequested(Elems(all.groupVersions));
        internal := JoinRequested(Elems(all.internal));
      }
      return Ok(Selection(packages, internal));
    }

    /**
     * Complete: takes the module from go.mod when none was given, defaults
     * the APIs module to it, and records the selected input packages. An
     * error from go.mod leaves everything as it was; an error from the
     * selection leaves the input packages as they were.
     */
    method Complete(goMod: Result<string>, workdir: string, goList: Result<string>, fsys: string -> Option<Node>)
      returns (err: Option<string>)
      modifies this
      ensures boilerplatePath == old(boilerplatePath) && apisPath == old(apisPath)
      ensures groupVersionsOpt == old(groupVersionsOpt)
      ensures |old(modulePath)| == 0 && goMod.Err? ==>
        err == Some(GoModError + goMod.msg) &&
        modulePath == old(modulePath) && apisModule == old(apisModule) &&
        inputPackages == old(inputPackages) && inputInternalPackages == old(inputInternalPackages)
      ensures |old(modulePath)| > 0 || goMod.Ok? ==>
        modulePath == (if |old(modulePath)| == 0 then goMod.value else old(modulePath)) &&
        apisModule == (if |old(apisModule)| == 0 then modulePath else old(apisModule)) &&
        SelectionRecorded(workdir, goList, fsys, old(inputPackages), old(inputInternalPackages), err)
    {
      err := ResolveModule(goMod);
      if err.Some? {
        return;
      }
      err := RecordSelection(workdir, goList, fsys);
    }

    /** The first steps of Complete: the module from go.mod when none was given, then the APIs module default. */
    method ResolveModule(goMod: Result<string>) returns (err: Option<string>)
      modifies this
      ensures boilerplatePath == old(boilerplatePath) && apisPath == old(apisPath)
      ensures groupVersionsOpt == old(groupVersionsOpt)
      ensures inputPackages == old(inputPackages) && inputInternalPackages == old(inputInternalPackages)
      ensures err.Some? <==> |old(modulePath)| == 0 && goMod.Err?
      ensures err.Some? ==>
        err == Some(GoModError + goMod.msg) && modulePath == old(modulePath) && apisModule == old(apisModule)
      ensures err.None? ==>
        modulePath == (if |old(modulePath)| == 0 then goMod.value else old(modulePath)) &&
        apisModule == (if |old(apisModule)| == 0 then modulePath else old(apisModule))
    {
      if |modulePath| == 0 {
        if goMod.Err? {
          return Some(GoModError + goMod.msg);
        }
        modulePath := goMod.value;
      }
      if |apisModule| == 0 {
        apisModule := modulePath;
      }
      return None;
    }

    /**
     * The outcome of selecting the input packages from the APIs tree: an
     * error exactly when there is no tree, the previous packages kept on an
     * error, and otherwise the selection SelectionFor describes.
     */
    ghost predicate SelectionRecorded(workdir: string, goList: Result<string>, fsys: string -> Option<Node>,
                                      oldPackages: seq<string>, oldInternal: seq<string>, err: Option<string>)
      reads this
    {
      var tree := ApisTree(apisModule, modulePath, apisPath, workdir, goList, fsys);
      (err.None? <==> tree.Ok?) &&
      (tree.Err? ==> inputPackages == oldPackages && inputInternalPackages == oldInternal) &&
      (tree.Ok? ==> SelectionFor(Selection(inputPackages, inputInternalPackages), apisModule, apisPath, groupVersionsOpt, tree.value))
    }

    /** The last step of Complete: selects the input packages and records them, or reports why it cannot. */
    method RecordSelection(workdir: string, goList: Result<string>, fsys: string -> Option<Node>)
      returns (err: Option<string>)
      modifies this
      ensures modulePath == old(modulePath) && apisModule == old(apisModule)
      ensures boilerplatePath == old(boilerplatePath) && apisPath == old(apisPath)
      ensures groupVersionsOpt == old(groupVersionsOpt)
      ensures SelectionRecorded(workdir, goList, fsys, old(inputPackages), old(inputInternalPackages), err)
    {
      var r := InputAPIPackages(workdir, goList, fsys);
      if r.Err? {
        return Some(r.msg);
      }
      inputPackages := r.value.packages;
      inputInternalPackages := r.value.internal;
      return None;
    }

    /**
     * Validate: the module, the boilerplate header and at least one input
     * package are required, and the first missing one is reported.
     */
    function Validate(): (err: Option<string>)
      reads this
      ensures err.None? <==> |modulePath| > 0 && |boilerplatePath| > 0 && |inputPackages| > 0
      ensures |modulePath| == 0 ==> err == Some("--repo must be specified")
      ensures |modulePath| > 0 && |boilerplatePath| == 0 ==> err == Some("--go-header-file must be specified")
      ensures |modulePath| > 0 && |boilerplatePath| > 0 && |inputPackages| == 0 ==>
        err == Some("no apis package found in " + GoPath.Join([apisModule, apisPath]))
    {
      if |modulePath| == 0 then Some("--repo must be specified")
      else if |boilerplatePath| == 0 then Some("--go-header-file must be specified")
      else if |inputPackages| == 0 then Some("no apis package found in " + GoPath.Join([apisModule, apisPath]))
      else None
    }
  }

  /** A selected group version is one found under the root and, when some are requested, one of them. */
  lemma SelectedMembers(found: seq<string>, opts: seq<string>, x: string)
    ensures x in SelectGroupVersions(found, opts) <==> x in found && (|opts| == 0 || x in opts)
  {
    if |opts| > 0 {
      FilterMembers(opts, Elems(found));
    }
  }

  /** No input package is selected exactly when nothing is found, or nothing requested is found. */
  lemma NothingSelected(found: seq<string>, opts: seq<string>)
    ensures |SelectGroupVersions(found, opts)| == 0 <==>
      (|opts| == 0 && |found| == 0) || (|opts| > 0 && forall o :: o in opts ==> o !in found)
  {
    var r := SelectGroupVersions(found, opts);
    if |r| > 0 {
      SelectedMembers(found, opts, r[0]);
    }
    if |opts| > 0 && exists o :: o in opts && o in found {
      var o :| o in opts && o in found;
      SelectedMembers(found, opts, o);
    }
  }
}
