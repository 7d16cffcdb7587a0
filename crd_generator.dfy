/**
 * The CRD generator's policy (pkg/generator/crd/generator.go): the licence
 * header, the approval annotation on community-owned API groups, the naming
 * of the generated packages, the install files that register API packages
 * with a scheme, the files of CRD constructors, and the AST node filter.
 *
 * The controller-tools parser is an input: the CRDs it built, the packages
 * it loaded with the group each one serves, and the kinds it found. Go maps
 * are iterated in no fixed order: a loop over one either picks its next key
 * with `:|` or takes the iteration order as an input, and the contracts claim
 * no order the code does not impose.
 */
module CrdGenerator {
  import opened GoStrings
  import GoPath
  import opened Wrappers
  import opened GoSort
  import Traverse

  const KubeAPIApprovedAnnotation := "api-approved.kubernetes.io"
  const ApprovalPullRequest := "https://github.com/kubernetes/enhancements/pull/1111"
  const YearPlaceholder := " YEAR"

  // ---------------------------------------------------------------------
  // Parser state
  // ---------------------------------------------------------------------

  datatype GroupKind = GroupKind(group: string, kind: string)

  /** A CRD as far as the generator's policy sees it: its API group and its annotations. */
  datatype Crd = Crd(group: string, annotations: map<string, string>)

  /** What the controller-tools parser holds: CRDs by group and kind, and the group each loaded package serves. */
  class Parser {
    var crds: map<GroupKind, Crd>
    var groupVersions: map<string, string>

    constructor (crds: map<GroupKind, Crd>, groupVersions: map<string, string>)
      ensures this.crds == crds && this.groupVersions == groupVersions
    {
      this.crds := crds;
      this.groupVersions := groupVersions;
    }
  }

  // ---------------------------------------------------------------------
  // Header
  // ---------------------------------------------------------------------

  /** The header text with every ` YEAR` replaced by a space and the year. */
  function StampYear(header: string, year: string): string {
    ReplaceAll(header, YearPlaceholder, " " + year)
  }

  /** The comments setFileDefault puts at the top of every generated file. */
  function FileHeader(headerText: string): seq<string> {
    ["// +build !ignore_autogenerated\n", headerText + "\n", "// Code generated by crd-gen. DO NOT EDIT."]
  }

  /** A header without the placeholder is used as it is. */
  lemma StampWithoutPlaceholder(header: string, year: string)
    requires forall i: nat :: !OccursAt(header, YearPlaceholder, i)
    ensures StampYear(header, year) == header
  {
    ReplaceAllAbsent(header, YearPlaceholder, " " + year);
  }

  /** The first placeholder is replaced and the text before it is kept. */
  lemma StampFirstPlaceholder(a: string, b: string, year: string)
    requires forall i: nat :: i < |a| ==> !OccursAt(a + YearPlaceholder + b, YearPlaceholder, i)
    ensures StampYear(a + YearPlaceholder + b, year) == a + " " + year + StampYear(b, year)
  {
    ReplaceAllLeftmost(a, YearPlaceholder, b, " " + year);
  }

  /** A placeholder cannot start inside text that has no space. */
  lemma NoPlaceholderBefore(a: string, b: string)
    requires ' ' !in a
    ensures forall i: nat :: i < |a| ==> !OccursAt(a + YearPlaceholder + b, YearPlaceholder, i)
  {
    forall i: nat | i < |a| ensures !OccursAt(a + YearPlaceholder + b, YearPlaceholder, i) {
      assert (a + YearPlaceholder + b)[i] == a[i];
    }
  }

  /** Text shorter than the placeholder holds none. */
  lemma ShortHasNoPlaceholder(s: string)
    requires |s| < |YearPlaceholder|
    ensures forall i: nat :: !OccursAt(s, YearPlaceholder, i)
  {
  }

  /** A typical licence line gets the year. */
  lemma StampExample(line: string)
    requires line == "Copyright YEAR."
    ensures StampYear(line, "2022") == "Copyright 2022."
  {
    var a, b := "Copyright", ".";
    assert line == a + YearPlaceholder + b;
    NoPlaceholderBefore(a, b);
    StampFirstPlaceholder(a, b, "2022");
    ShortHasNoPlaceholder(b);
    StampWithoutPlaceholder(b, "2022");
  }

  /** A placeholder at the very start has no space before it and stays. */
  lemma StampLeadingPlaceholder()
    ensures StampYear("YEAR", "2022") == "YEAR"
  {
    ShortHasNoPlaceholder("YEAR");
    StampWithoutPlaceholder("YEAR", "2022");
  }

  // ---------------------------------------------------------------------
  // Community-owned API groups
  // ---------------------------------------------------------------------

  /** Groups under k8s.io or kubernetes.io need the approval annotation. */
  predicate IsProtectedGroup(group: string) {
    HasSuffix(group, ".k8s.io") || HasSuffix(group, ".kubernetes.io")
  }

  /** A CRD after protection: a protected group's annotations become exactly the approval link. */
  function Protected(c: Crd): (r: Crd)
    ensures r.group == c.group
  {
    if IsProtectedGroup(c.group) then c.(annotations := map[KubeAPIApprovedAnnotation := ApprovalPullRequest]) else c
  }

  /**
   * The annotation policy: a protected group's CRD carries the approval
   * link and nothing else; any other CRD keeps its annotations.
   */
  lemma ProtectedAnnotations(c: Crd)
    ensures IsProtectedGroup(c.group) ==>
      Protected(c).annotations.Keys == {KubeAPIApprovedAnnotation} &&
      Protected(c).annotations[KubeAPIApprovedAnnotation] == ApprovalPullRequest
    ensures !IsProtectedGroup(c.group) ==> Protected(c) == c
  {
  }

  /** Protecting twice is protecting once. */
  lemma ProtectedIdempotent(c: Crd)
    ensures Protected(Protected(c)) == Protected(c)
  {
  }

  /**
   * Which groups are protected: subdomains of k8s.io and kubernetes.io are;
   * the bare domains themselves are not, since the test is a suffix that
   * starts with a dot; other groups are not.
   */
  lemma ProtectedGroupExamples()
    ensures IsProtectedGroup("apps.k8s.io") && IsProtectedGroup("storage.kubernetes.io")
    ensures !IsProtectedGroup("k8s.io") && !IsProtectedGroup("kubernetes.io")
    ensures !IsProtectedGroup("apps.example.com")
  {
    assert "apps.k8s.io"[4..] == ".k8s.io";
    assert "storage.kubernetes.io"[7..] == ".kubernetes.io";
  }

  /** The protection loop: each CRD is replaced by its protected form; the keys stay. */
  method ProtectAll(parser: Parser)
    modifies parser
    ensures parser.groupVersions == old(parser.groupVersions)
    ensures parser.crds.Keys == old(parser.crds).Keys
    ensures forall gk :: gk in parser.crds ==> parser.crds[gk] == Protected(old(parser.crds)[gk])
  {
    var todo := parser.crds.Keys;
    while todo != {}
      invariant todo <= parser.crds.Keys
      invariant parser.groupVersions == old(parser.groupVersions)
      invariant parser.crds.Keys == old(parser.crds).Keys
      invariant forall gk :: gk in parser.crds ==>
        parser.crds[gk] == (if gk in todo then old(parser.crds)[gk] else Protected(old(parser.crds)[gk]))
      decreases |todo|
    {
      var gk :| gk in todo;
      var c := parser.crds[gk];
      if HasSuffix(c.group, ".k8s.io") || HasSuffix(c.group, ".kubernetes.io") {
        c := c.(annotations := map[KubeAPIApprovedAnnotation := ApprovalPullRequest]);
        parser.crds := parser.crds[gk := c];
      }
      todo := todo - {gk};
    }
  }

  // ---------------------------------------------------------------------
  // Package names and import aliases
  // ---------------------------------------------------------------------

  function RemoveDots(s: string): (r: string)
    ensures '.' !in r && |r| <= |s|
  {
    RemoveCharGone(s, '.');
    ReplaceAll(s, ".", "")
  }

  /** The directory of an API package's group: the parent of the version directory. */
  function GroupDirOf(pkgPath: string): string {
    GoPath.Base(GoPath.Dir(pkgPath))
  }

  /** The import alias of an API package: group directory and version directory, without dots. */
  function ImportAlias(pkg: string): (alias: string)
    ensures '.' !in alias
    ensures |alias| <= |GroupDirOf(pkg)| + |GoPath.Base(pkg)|
  {
    RemoveDots(GroupDirOf(pkg) + GoPath.Base(pkg))
  }

  /**
   * For an API package `<prefix>/<group dir>/<version>` the group directory
   * is the second-to-last element and the alias joins the last two without dots.
   */
  lemma PackageShape(prefix: string, g: string, v: string)
    requires GoPath.IsCleanRelative(prefix) && GoPath.CleanElement(g) && GoPath.CleanElement(v)
    ensures GroupDirOf(prefix + "/" + g + "/" + v) == g
    ensures GoPath.Base(prefix + "/" + g + "/" + v) == v
    ensures ImportAlias(prefix + "/" + g + "/" + v) == RemoveDots(g + v)
  {
    GoPath.ElementIsClean(g);
    GoPath.CleanConcat(prefix, g);
    GoPath.DirBase(prefix + "/" + g, v);
    GoPath.DirBase(prefix, g);
  }

  /** A dotted directory `a.b.c` names package `abc`. */
  lemma DottedNamingExamples(dir: string)
    requires dir == "a.b.c"
    ensures RemoveDots(dir) == "abc"
  {
    assert dir == "a" + "." + ("b" + "." + "c");
    RemoveFirstDot("a", "b" + "." + "c");
    RemoveFirstDot("b", "c");
    ShortHasNoDot("c");
  }

  /** Without a loaded package, group `apps.example.com` names package `apps`. */
  lemma FallbackNamingExample(group: string)
    requires group == "apps.example.com"
    ensures FirstSegment(group, '.') == "apps"
  {
    assert group[4] == '.';
  }

  /** Removing dots drops the first dot and keeps what comes before it. */
  lemma RemoveFirstDot(a: string, b: string)
    requires '.' !in a
    ensures RemoveDots(a + "." + b) == a + RemoveDots(b)
  {
    forall i: nat | i < |a| ensures !OccursAt(a + "." + b, ".", i) {
      assert (a + "." + b)[i] == a[i];
    }
    ReplaceAllLeftmost(a, ".", b, "");
  }

  /** `k8s.io/api/apps/v1` lives in `apps` under the alias `appsv1`. */
  lemma NamingExamples(pkg: string)
    requires pkg == "k8s.io/api/apps/v1"
    ensures GroupDirOf(pkg) == "apps"
    ensures ImportAlias(pkg) == "appsv1"
  {
    var prefix, g, v := "k8s.io" + "/" + "api", "apps", "v1";
    TwoElementsClean("k8s.io", "api");
    assert pkg == prefix + "/" + g + "/" + v;
    assert g + v == "appsv1";
    UndottedNaming(prefix, g, v);
  }

  /** A package whose group and version directories hold no dot: the alias is the two names joined. */
  lemma UndottedNaming(prefix: string, g: string, v: string)
    requires GoPath.IsCleanRelative(prefix) && GoPath.CleanElement(g) && GoPath.CleanElement(v)
    requires '.' !in g + v
    ensures GroupDirOf(prefix + "/" + g + "/" + v) == g
    ensures ImportAlias(prefix + "/" + g + "/" + v) == g + v
  {
    PackageShape(prefix, g, v);
    ShortHasNoDot(g + v);
  }

  lemma TwoElementsClean(a: string, b: string)
    requires GoPath.CleanElement(a) && GoPath.CleanElement(b)
    ensures GoPath.IsCleanRelative(a + "/" + b)
  {
    GoPath.ElementIsClean(a);
    GoPath.ElementIsClean(b);
    GoPath.CleanConcat(a, b);
  }

  /** Text without dots loses nothing. */
  lemma ShortHasNoDot(s: string)
    requires '.' !in s
    ensures RemoveDots(s) == s
  {
    forall i: nat ensures !OccursAt(s, ".", i) {
      if i + 1 <= |s| {
        assert s[i..i + 1][0] == s[i];
      }
    }
    ReplaceAllAbsent(s, ".", "");
  }

  /**
   * When every package serving the group gives a non-empty name, the naming
   * comes from one of them and the fallback is not taken.
   */
  lemma ServedNaming(group: string, groupVersions: map<string, string>, dirName: string, goPackageName: string)
    requires NamingOf(group, groupVersions, dirName, goPackageName)
    requires exists q :: Serves(groupVersions, q, group)
    requires forall q :: Serves(groupVersions, q, group) ==> RemoveDots(GroupDirOf(q)) != ""
    ensures exists q :: Serves(groupVersions, q, group) && dirName == GroupDirOf(q) && goPackageName == RemoveDots(dirName)
  {
  }

  /** Group `a.b.c` served only by `k8s.io/api/xyz/v1` lives in directory and package `xyz`, not `a`. */
  lemma ServedNamingExample(dirName: string, goPackageName: string)
    requires NamingOf("a.b.c", map["k8s.io/api/xyz/v1" := "a.b.c"], dirName, goPackageName)
    ensures dirName == "xyz" && goPackageName == "xyz"
  {
    var pkg := "k8s.io/api/xyz/v1";
    var gv := map[pkg := "a.b.c"];
    XyzDirectory(pkg);
    assert Serves(gv, pkg, "a.b.c");
    assert forall q :: Serves(gv, q, "a.b.c") ==> q == pkg;
    ServedNaming("a.b.c", gv, dirName, goPackageName);
  }

  lemma XyzDirectory(pkg: string)
    requires pkg == "k8s.io/api/xyz/v1"
    ensures GroupDirOf(pkg) == "xyz" && RemoveDots("xyz") == "xyz"
  {
    TwoElementsClean("k8s.io", "api");
    assert pkg == ("k8s.io" + "/" + "api") + "/" + "xyz" + "/" + "v1";
    UndottedNaming("k8s.io" + "/" + "api", "xyz", "v1");
    ShortHasNoDot("xyz");
  }

  /** A loaded package serves the group. */
  predicate Serves(groupVersions: map<string, string>, p: string, group: string) {
    p in groupVersions && groupVersions[p] == group
  }

  /**
   * The package naming of a group: the first loaded package of the group
   * met (in map order) names the directory, and the Go package is that name
   * without dots. When no package serves the group, or the name of the
   * package met comes out empty, both are the group's first dot-separated
   * segment. Which serving package is met first is not fixed.
   */
  ghost predicate NamingOf(group: string, groupVersions: map<string, string>, dirName: string, goPackageName: string) {
    (exists p :: Serves(groupVersions, p, group) &&
       dirName == GroupDirOf(p) && goPackageName == RemoveDots(dirName) && goPackageName != "") ||
    (dirName == FirstSegment(group, '.') && goPackageName == dirName &&
     ((forall p :: !Serves(groupVersions, p, group)) ||
      exists p :: Serves(groupVersions, p, group) && RemoveDots(GroupDirOf(p)) == ""))
  }

  method PackageNaming(group: string, groupVersions: map<string, string>) returns (dirName: string, goPackageName: string)
    ensures NamingOf(group, groupVersions, dirName, goPackageName)
  {
    goPackageName := "";
    dirName := "";
    ghost var met: Option<string> := None;
    var todo := groupVersions.Keys;
    while todo != {}
      invariant todo <= groupVersions.Keys
      invariant goPackageName == "" && dirName == "" && met.None?
      invariant forall q :: q in groupVersions.Keys - todo ==> groupVersions[q] != group
      decreases |todo|
    {
      var p :| p in todo;
      if groupVersions[p] == group {
        dirName := GroupDirOf(p);
        goPackageName := ReplaceAll(dirName, ".", "");
        met := Some(p);
        break;
      }
      todo := todo - {p};
    }
    assert met.Some? ==> Serves(groupVersions, met.value, group) && dirName == GroupDirOf(met.value) &&
                         goPackageName == RemoveDots(dirName);
    assert met.None? ==> forall p :: !Serves(groupVersions, p, group);
    if goPackageName == "" {
      goPackageName := FirstSegment(group, '.');
      dirName := goPackageName;
    }
  }

  // ---------------------------------------------------------------------
  // Install files
  // ---------------------------------------------------------------------

  /** One `utilruntime.Must(<alias>.AddToScheme(scheme))` line, with the import alias it uses. */
  datatype Registration = Registration(pkg: string, alias: string)

  /** The constructor `func <name>() *CustomResourceDefinition` for the CRD stored at key `crd`, returning its rendering. */
  datatype Constructor = Constructor(name: string, crd: GroupKind)

  datatype Body =
    | Install(registrations: seq<Registration>)
    | CrdSet(constructors: seq<Constructor>, aggregate: seq<string>)

  datatype GoFile = GoFile(path: string, packageName: string, header: seq<string>, body: Body)

  function PackagesOf(regs: seq<Registration>): (r: seq<string>)
    ensures |r| == |regs| && forall i :: 0 <= i < |regs| ==> r[i] == regs[i].pkg
  {
    seq(|regs|, i requires 0 <= i < |regs| => regs[i].pkg)
  }

  /** Registrations in ascending package order, each with its package's alias. */
  predicate RegistrationsOk(regs: seq<Registration>) {
    Sorted(PackagesOf(regs)) &&
    forall i :: 0 <= i < |regs| ==> regs[i].alias == ImportAlias(regs[i].pkg)
  }

  /** The packages of the scheme install: every loaded package except metav1. */
  function SchemePackages(groupVersions: map<string, string>, metav1: string): set<string> {
    set p | p in groupVersions && p != metav1
  }

  /** The packages of a group install: the loaded packages serving that group. */
  function GroupPackages(groupVersions: map<string, string>, group: string): set<string> {
    set p | p in groupVersions && groupVersions[p] == group
  }

  /** Sorts the packages and registers each of them once, under its alias. */
  method Register(pkgs: seq<string>) returns (regs: seq<Registration>)
    ensures RegistrationsOk(regs) && multiset(PackagesOf(regs)) == multiset(pkgs)
  {
    var sorted := SortStrings(pkgs);
    regs := AliasAll(sorted, ImportAlias);
  }

  /**
   * The loop over the sorted packages: each gets one registration under the
   * alias `f` computes for it (Register passes ImportAlias).
   */
  method AliasAll(sorted: seq<string>, f: string -> string) returns (regs: seq<Registration>)
    ensures regs == AliasedBy(sorted, f)
  {
    regs := [];
    var i := 0;
    while i < |sorted|
      invariant 0 <= i <= |sorted|
      invariant regs == AliasedBy(sorted[..i], f)
    {
      var alias := f(sorted[i]);
      AliasedBySnoc(sorted[..i], sorted[i], f);
      assert sorted[..i + 1] == sorted[..i] + [sorted[i]];
      regs := regs + [Registration(sorted[i], alias)];
      i := i + 1;
    }
    assert sorted[..|sorted|] == sorted;
  }

  /** Each package registered under the alias `alias` gives it, in the given order. */
  function AliasedBy(pkgs: seq<string>, alias: string -> string): (regs: seq<Registration>)
    ensures PackagesOf(regs) == pkgs
    ensures forall i :: 0 <= i < |regs| ==> regs[i].alias == alias(regs[i].pkg)
  {
    seq(|pkgs|, i requires 0 <= i < |pkgs| => Registration(pkgs[i], alias(pkgs[i])))
  }

  lemma AliasedBySnoc(pkgs: seq<string>, p: string, alias: string -> string)
    ensures AliasedBy(pkgs + [p], alias) == AliasedBy(pkgs, alias) + [Registration(p, alias(p))]
  {
    assert |AliasedBy(pkgs + [p], alias)| == |AliasedBy(pkgs, alias) + [Registration(p, alias(p))]|;
  }

  /** The loop over the loaded packages keeping those `keep` selects, in map order. */
  method CollectScheme(groupVersions: map<string, string>, metav1: string) returns (pkgs: seq<string>)
    ensures multiset(pkgs) == multiset(SchemePackages(groupVersions, metav1))
  {
    pkgs := [];
    var todo := groupVersions.Keys;
    while todo != {}
      invariant todo <= groupVersions.Keys
      invariant multiset(pkgs) == multiset(SchemePackages(groupVersions, metav1) - todo)
      decreases |todo|
    {
      var p :| p in todo;
      ghost var before := SchemePackages(groupVersions, metav1) - todo;
      if p != metav1 {
        pkgs := pkgs + [p];
        assert SchemePackages(groupVersions, metav1) - (todo - {p}) == before + {p};
      } else {
        assert SchemePackages(groupVersions, metav1) - (todo - {p}) == before;
      }
      todo := todo - {p};
    }
  }

  method CollectGroup(groupVersions: map<string, string>, group: string) returns (pkgs: seq<string>)
    ensures multiset(pkgs) == multiset(GroupPackages(groupVersions, group))
  {
    pkgs := [];
    var todo := groupVersions.Keys;
    while todo != {}
      invariant todo <= groupVersions.Keys
      invariant multiset(pkgs) == multiset(GroupPackages(groupVersions, group) - todo)
      decreases |todo|
    {
      var p :| p in todo;
      ghost var before := GroupPackages(groupVersions, group) - todo;
      if groupVersions[p] == group {
        pkgs := pkgs + [p];
        assert GroupPackages(groupVersions, group) - (todo - {p}) == before + {p};
      } else {
        assert GroupPackages(groupVersions, group) - (todo - {p}) == before;
      }
      todo := todo - {p};
    }
  }

  /** GenerateScheme: `install/zz.generated.scheme.go` registering every package but metav1, in sorted order. */
  method GenerateScheme(headerText: string, groupVersions: map<string, string>, metav1: string) returns (f: GoFile)
    ensures f.path == "install/zz.generated.scheme.go" && f.packageName == "install"
    ensures f.header == FileHeader(headerText) && f.body.Install?
    ensures RegistrationsOk(f.body.registrations)
    ensures multiset(PackagesOf(f.body.registrations)) == multiset(SchemePackages(groupVersions, metav1))
  {
    var pkgs := CollectScheme(groupVersions, metav1);
    var regs := Register(pkgs);
    f := GoFile("install/zz.generated.scheme.go", "install", FileHeader(headerText), Install(regs));
  }

  /** The install file of a group in directory `dirName`: its path, package, header and sorted, aliased registrations. */
  predicate InstallFileFor(f: GoFile, headerText: string, groupVersions: map<string, string>, group: string, dirName: string) {
    f.path == GoPath.Join([dirName, "install", "zz.generated.install.go"]) && f.packageName == "install" &&
    f.header == FileHeader(headerText) && f.body.Install? &&
    RegistrationsOk(f.body.registrations) &&
    multiset(PackagesOf(f.body.registrations)) == multiset(GroupPackages(groupVersions, group))
  }

  /** GenerateGroupInstall: `<dir>/install/zz.generated.install.go` registering the group's packages, in sorted order. */
  method GenerateGroupInstall(headerText: string, groupVersions: map<string, string>, group: string, dirName: string)
    returns (f: GoFile)
    ensures f.path == GoPath.Join([dirName, "install", "zz.generated.install.go"]) && f.packageName == "install"
    ensures f.header == FileHeader(headerText) && f.body.Install?
    ensures RegistrationsOk(f.body.registrations)
    ensures multiset(PackagesOf(f.body.registrations)) == multiset(GroupPackages(groupVersions, group))
  {
    var pkgs := CollectGroup(groupVersions, group);
    var regs := Register(pkgs);
    f := GoFile(GoPath.Join([dirName, "install", "zz.generated.install.go"]), "install", FileHeader(headerText), Install(regs));
  }

  /** Each package is registered exactly once, and whatever the map order, the registrations are the same. */
  lemma RegistrationsDetermined(a: seq<Registration>, b: seq<Registration>)
    requires RegistrationsOk(a) && RegistrationsOk(b)
    requires multiset(PackagesOf(a)) == multiset(PackagesOf(b))
    ensures a == b
  {
    SortedUnique(PackagesOf(a), PackagesOf(b));
    assert |a| == |b|;
    forall i | 0 <= i < |a| ensures a[i] == b[i] {
      assert PackagesOf(a)[i] == PackagesOf(b)[i];
    }
  }

  // ---------------------------------------------------------------------
  // CRD files
  // ---------------------------------------------------------------------

  /** The constructor of a kind's CRD: `New<Kind>CRD` with the kind capitalized. */
  function ConstructorName(kind: string): (name: string)
    ensures HasPrefix(name, "New") && HasSuffix(name, "CRD")
    ensures |name| == |kind| + 6
  {
    Traverse.CapitalizedShape(kind);
    var name := "New" + Traverse.Capitalized(kind) + "CRD";
    assert name[..3] == "New";
    assert name[|name| - 3..] == "CRD";
    name
  }

  /** Kinds that differ after capitalization get different constructors. */
  lemma ConstructorNamesDistinct(a: string, b: string)
    requires Traverse.Capitalized(a) != Traverse.Capitalized(b)
    ensures ConstructorName(a) != ConstructorName(b)
  {
    var na, nb := ConstructorName(a), ConstructorName(b);
    assert na[3..|na| - 3] == Traverse.Capitalized(a);
    assert nb[3..|nb| - 3] == Traverse.Capitalized(b);
  }

  function KindsOf(cs: seq<Constructor>): (r: seq<GroupKind>)
    ensures |r| == |cs| && forall i :: 0 <= i < |cs| ==> r[i] == cs[i].crd
  {
    seq(|cs|, i requires 0 <= i < |cs| => cs[i].crd)
  }

  /** The CRDs of a group, by the group of their key. */
  function GroupCrds(crds: map<GroupKind, Crd>, group: string): set<GroupKind> {
    set gk: GroupKind | gk in crds && gk.group == group
  }

  /**
   * A CRD file's shape: every constructor is named after its kind, and the
   * aggregator calls each constructor once, in the same order.
   */
  predicate CrdSetOk(cs: seq<Constructor>, aggregate: seq<string>) {
    |aggregate| == |cs| &&
    forall i :: 0 <= i < |cs| ==> cs[i].name == ConstructorName(cs[i].crd.kind) && aggregate[i] == cs[i].name
  }

  /** Taking `x` out of the keys still to visit adds it to those done, when it is selected. */
  lemma TakeStep<T>(selected: set<T>, todo: set<T>, x: T)
    requires x in todo
    ensures selected - (todo - {x}) == (selected - todo) + (if x in selected then {x} else {})
  {
  }

  lemma AddFresh<T>(done: set<T>, x: T)
    requires x !in done
    ensures multiset(done + {x}) == multiset(done) + multiset{x}
  {
  }

  /** Appending a well-named constructor and its call keeps a CRD file well formed. */
  lemma AddConstructor(cs: seq<Constructor>, aggregate: seq<string>, c: Constructor)
    requires CrdSetOk(cs, aggregate)
    requires c.name == "New" + Traverse.Capitalized(c.crd.kind) + "CRD"
    ensures CrdSetOk(cs + [c], aggregate + [c.name])
    ensures KindsOf(cs + [c]) == KindsOf(cs) + [c.crd]
  {
  }

  /** The CRD file of a group: its path, package and header, and one constructor per CRD of the group. */
  predicate CrdFileFor(f: GoFile, headerText: string, crds: map<GroupKind, Crd>, group: string,
                       dirName: string, goPackageName: string) {
    f.path == GoPath.Join([dirName, "zz.generated.crd.go"]) && f.packageName == goPackageName &&
    f.header == FileHeader(headerText) && f.body.CrdSet? &&
    CrdSetOk(f.body.constructors, f.body.aggregate) &&
    multiset(KindsOf(f.body.constructors)) == multiset(GroupCrds(crds, group))
  }

  /**
   * GenerateGroup: `<dir>/zz.generated.crd.go` in package `goPackageName`,
   * with one constructor per CRD of the group (in map order) and
   * NewCustomResourceDefinitions calling them all.
   */
  method GenerateGroup(headerText: string, crds: map<GroupKind, Crd>, group: string, dirName: string, goPackageName: string)
    returns (f: GoFile)
    ensures f.path == GoPath.Join([dirName, "zz.generated.crd.go"]) && f.packageName == goPackageName
    ensures f.header == FileHeader(headerText) && f.body.CrdSet?
    ensures CrdSetOk(f.body.constructors, f.body.aggregate)
    ensures multiset(KindsOf(f.body.constructors)) == multiset(GroupCrds(crds, group))
  {
    var constructors, newCrds := Constructors(crds, group);
    f := GoFile(GoPath.Join([dirName, "zz.generated.crd.go"]), goPackageName, FileHeader(headerText),
                CrdSet(constructors, newCrds));
  }

  /** The loop over the CRDs (in map order): a constructor and a call for each CRD of the group. */
  method Constructors(crds: map<GroupKind, Crd>, group: string) returns (constructors: seq<Constructor>, newCrds: seq<string>)
    ensures CrdSetOk(constructors, newCrds)
    ensures multiset(KindsOf(constructors)) == multiset(GroupCrds(crds, group))
  {
    constructors := [];
    newCrds := [];
    var todo := crds.Keys;
    while todo != {}
      invariant todo <= crds.Keys
      invariant CrdSetOk(constructors, newCrds)
      invariant multiset(KindsOf(constructors)) == multiset(GroupCrds(crds, group) - todo)
      decreases |todo|
    {
      var gk :| gk in todo;
      TakeStep(GroupCrds(crds, group), todo, gk);
      if gk.group == group {
        var kind := Traverse.Capitalize(gk.kind);
        var name := "New" + kind + "CRD";
        AddConstructor(constructors, newCrds, Constructor(name, gk));
        AddFresh(GroupCrds(crds, group) - todo, gk);
        constructors := constructors + [Constructor(name, gk)];
        newCrds := newCrds + [name];
      }
      todo := todo - {gk};
    }
  }

  // ---------------------------------------------------------------------
  // Generate
  // ---------------------------------------------------------------------

  /** The generator's options: the header file, the year, and which kinds of file to write. */
  datatype Config = Config(headerFile: string, year: string, genInstall: bool, genCrd: bool)

  /** Whether reading the header fails, which is Generate's only error here. */
  predicate HeaderFails(cfg: Config, readHeader: Result<string>) {
    cfg.headerFile != "" && readHeader.Err?
  }

  /** The header text every file gets: the header file's text (none without a file) with the year stamped in. */
  function HeaderTextOf(cfg: Config, readHeader: Result<string>): string
    requires !HeaderFails(cfg, readHeader)
  {
    StampYear(if cfg.headerFile == "" then "" else readHeader.value, cfg.year)
  }

  /** The number of files written per entry of the groups list. */
  function PerGroup(cfg: Config): (n: nat)
    ensures n <= 2
  {
    (if cfg.genInstall then 1 else 0) + (if cfg.genCrd then 1 else 0)
  }

  /** A generated file is well formed: install files are sorted and aliased, CRD files name and call every constructor. */
  predicate FileOk(f: GoFile) {
    match f.body
    case Install(regs) => RegistrationsOk(regs)
    case CrdSet(cs, aggregate) => CrdSetOk(cs, aggregate)
  }

  /**
   * Generate: stamps the header, stops with nothing written when no root
   * imports metav1 or no kinds were found, lists one group per kind (so a
   * group with several kinds appears several times and its files are
   * written again each time), protects community-owned groups, writes the
   * files of each listed group and finally the scheme install.
   */
  method Generate(cfg: Config, readHeader: Result<string>, metav1: Option<string>, kubeKinds: set<GroupKind>, parser: Parser)
    returns (r: Result<seq<GoFile>>)
    modifies parser
    ensures parser.groupVersions == old(parser.groupVersions)
    ensures r.Err? <==> HeaderFails(cfg, readHeader)
    ensures r.Err? ==> r.msg == readHeader.msg && parser.crds == old(parser.crds)
    ensures r.Ok? && (metav1.None? || kubeKinds == {}) ==> r.value == [] && parser.crds == old(parser.crds)
    ensures r.Ok? && metav1.Some? && kubeKinds != {} ==>
      parser.crds.Keys == old(parser.crds).Keys &&
      (forall gk :: gk in parser.crds ==> parser.crds[gk] == Protected(old(parser.crds)[gk])) &&
      |r.value| == |kubeKinds| * PerGroup(cfg) + (if cfg.genInstall then 1 else 0) &&
      (forall f :: f in r.value ==> f.header == FileHeader(HeaderTextOf(cfg, readHeader)) && FileOk(f)) &&
      (exists groups :: GroupsListed(kubeKinds, groups) &&
         FilesOfGroups(cfg, HeaderTextOf(cfg, readHeader), groups, parser.groupVersions, parser.crds,
                       r.value[..|kubeKinds| * PerGroup(cfg)])) &&
      (cfg.genInstall ==>
        r.value[|r.value| - 1].path == "install/zz.generated.scheme.go" &&
        r.value[|r.value| - 1].body.Install? &&
        multiset(PackagesOf(r.value[|r.value| - 1].body.registrations)) ==
          multiset(SchemePackages(parser.groupVersions, metav1.value)))
  {
    var headerText := "";
    if cfg.headerFile != "" {
      if readHeader.Err? {
        return Err(readHeader.msg);
      }
      headerText := readHeader.value;
    }
    headerText := ReplaceAll(headerText, " YEAR", " " + cfg.year);
    if metav1.None? {
      // nothing imports metav1: no objects in the roots
      return Ok([]);
    }
    if kubeKinds == {} {
      return Ok([]);
    }
    var groups := GroupsOfKinds(kubeKinds);
    ProtectAll(parser);
    var files := GenerateGroups(cfg, headerText, groups, parser.groupVersions, parser.crds);
    var groupFiles := files;
    if cfg.genInstall {
      var f := GenerateScheme(headerText, parser.groupVersions, metav1.value);
      files := files + [f];
    }
    assert files[..|kubeKinds| * PerGroup(cfg)] == groupFiles;
    return Ok(files);
  }

  /** The loop of Generate over the groups list: the files of each listed group, in list order. */
  method GenerateGroups(cfg: Config, headerText: string, groups: seq<string>,
                        groupVersions: map<string, string>, crds: map<GroupKind, Crd>)
    returns (files: seq<GoFile>)
    ensures |files| == |groups| * PerGroup(cfg)
    ensures forall f :: f in files ==> f.header == FileHeader(headerText) && FileOk(f)
    ensures FilesOfGroups(cfg, headerText, groups, groupVersions, crds, files)
  {
    files := [];
    var i := 0;
    while i < |groups|
      invariant 0 <= i <= |groups|
      invariant |files| == i * PerGroup(cfg)
      invariant forall f :: f in files ==> f.header == FileHeader(headerText) && FileOk(f)
      invariant FilesOfGroups(cfg, headerText, groups[..i], groupVersions, crds, files)
    {
      OffsetIsProduct(i, PerGroup(cfg));
      var fs := GroupFiles(cfg, headerText, groups[i], groupVersions, crds);
      AppendGroupFiles(cfg, headerText, groups[..i], groups[i], groupVersions, crds, files, fs);
      assert groups[..i] + [groups[i]] == groups[..i + 1];
      files := files + fs;
      i := i + 1;
    }
    assert groups[..i] == groups;
  }

  /** Appending one group's files after those of a list gives the files of the longer list. */
  lemma AppendGroupFiles(cfg: Config, headerText: string, groups: seq<string>, group: string,
                         groupVersions: map<string, string>, crds: map<GroupKind, Crd>,
                         files: seq<GoFile>, fs: seq<GoFile>)
    requires FilesOfGroups(cfg, headerText, groups, groupVersions, crds, files)
    requires GroupFilesFor(cfg, headerText, group, groupVersions, crds, fs)
    ensures FilesOfGroups(cfg, headerText, groups + [group], groupVersions, crds, files + fs)
  {
    ChunkedAppend(groups, group, files, fs, PerGroup(cfg), GroupFilesOk(cfg, headerText, groupVersions, crds));
  }

  /**
   * A list cut into chunks of `n`: chunk `i` runs from `Offset(i, n)`, which
   * is `i * n`, to `Offset(i + 1, n)`, and belongs to `groups[i]` as `ok` says.
   */
  ghost predicate Chunked<T>(groups: seq<string>, files: seq<T>, n: nat, ok: (string, seq<T>) -> bool) {
    |files| == Offset(|groups|, n) &&
    forall i :: 0 <= i < |groups| ==> ChunkAt(groups, files, n, ok, i)
  }

  /** Chunk `i` lies inside `files` and belongs to `groups[i]`. */
  ghost predicate ChunkAt<T>(groups: seq<string>, files: seq<T>, n: nat, ok: (string, seq<T>) -> bool, i: nat)
    requires i < |groups|
  {
    Offset(i + 1, n) <= |files| && ok(groups[i], files[Offset(i, n)..Offset(i + 1, n)])
  }

  /** `i * n`, counted up one chunk at a time. */
  function Offset(i: nat, n: nat): nat {
    if i == 0 then 0 else Offset(i - 1, n) + n
  }

  lemma {:induction false} OffsetIsProduct(i: nat, n: nat)
    ensures Offset(i, n) == i * n
  {
    if i > 0 {
      OffsetIsProduct(i - 1, n);
      assert i * n == (i - 1) * n + n;
    }
  }

  lemma {:induction false} OffsetMono(a: nat, b: nat, n: nat)
    requires a <= b
    ensures Offset(a, n) <= Offset(b, n)
    decreases b - a
  {
    if a < b {
      OffsetMono(a, b - 1, n);
    }
  }

  lemma ChunkedAppend<T>(groups: seq<string>, group: string, files: seq<T>, fs: seq<T>, n: nat,
                         ok: (string, seq<T>) -> bool)
    requires Chunked(groups, files, n, ok) && |fs| == n && ok(group, fs)
    ensures Chunked(groups + [group], files + fs, n, ok)
  {
    var gs, all := groups + [group], files + fs;
    assert |all| == Offset(|gs|, n);
    forall i | 0 <= i < |gs|
      ensures ChunkAt(gs, all, n, ok, i)
    {
      if i < |groups| {
        ChunkKept(groups, group, files, fs, n, ok, i);
      } else {
        assert gs[i] == group && all[Offset(i, n)..Offset(i + 1, n)] == fs;
      }
    }
  }

  /** Appending files keeps the chunks already there. */
  lemma ChunkKept<T>(groups: seq<string>, group: string, files: seq<T>, fs: seq<T>, n: nat,
                     ok: (string, seq<T>) -> bool, i: nat)
    requires Chunked(groups, files, n, ok) && |fs| == n && i < |groups|
    ensures ChunkAt(groups + [group], files + fs, n, ok, i)
  {
    assert ChunkAt(groups, files, n, ok, i);
    assert (files + fs)[Offset(i, n)..Offset(i + 1, n)] == files[Offset(i, n)..Offset(i + 1, n)];
    assert (groups + [group])[i] == groups[i];
  }

  /**
   * The files of one group: under one naming of the group's directory and
   * package, the install file first and the CRD file last, each when enabled.
   */
  ghost predicate GroupFilesFor(cfg: Config, headerText: string, group: string,
                                groupVersions: map<string, string>, crds: map<GroupKind, Crd>, fs: seq<GoFile>) {
    |fs| == PerGroup(cfg) &&
    exists dirName, goPackageName :: NamingOf(group, groupVersions, dirName, goPackageName) &&
      (cfg.genInstall ==> InstallFileFor(fs[0], headerText, groupVersions, group, dirName)) &&
      (cfg.genCrd ==> CrdFileFor(fs[|fs| - 1], headerText, crds, group, dirName, goPackageName))
  }

  /**
   * The files of a groups list, in list order: entry `i` of the list owns
   * the `PerGroup(cfg)` files starting at `i * PerGroup(cfg)`.
   */
  ghost predicate FilesOfGroups(cfg: Config, headerText: string, groups: seq<string>,
                                groupVersions: map<string, string>, crds: map<GroupKind, Crd>, files: seq<GoFile>) {
    Chunked(groups, files, PerGroup(cfg), GroupFilesOk(cfg, headerText, groupVersions, crds))
  }

  /** `GroupFilesFor` as a test on a group and its files. */
  ghost function GroupFilesOk(cfg: Config, headerText: string, groupVersions: map<string, string>,
                              crds: map<GroupKind, Crd>): (string, seq<GoFile>) -> bool {
    (group, fs) => GroupFilesFor(cfg, headerText, group, groupVersions, crds, fs)
  }

  /** The files of one group: its install file and its CRD file, each when enabled. */
  method GroupFiles(cfg: Config, headerText: string, group: string,
                    groupVersions: map<string, string>, crds: map<GroupKind, Crd>)
    returns (fs: seq<GoFile>)
    ensures |fs| == PerGroup(cfg)
    ensures forall f :: f in fs ==> f.header == FileHeader(headerText) && FileOk(f)
    ensures GroupFilesFor(cfg, headerText, group, groupVersions, crds, fs)
  {
    fs := [];
    var dirName, goPackageName := PackageNaming(group, groupVersions);
    if cfg.genInstall {
      var f := GenerateGroupInstall(headerText, groupVersions, group, dirName);
      fs := fs + [f];
    }
    if cfg.genCrd {
      var f := GenerateGroup(headerText, crds, group, dirName, goPackageName);
      fs := fs + [f];
    }
    assert cfg.genInstall ==> InstallFileFor(fs[0], headerText, groupVersions, group, dirName);
    assert cfg.genCrd ==> CrdFileFor(fs[|fs| - 1], headerText, crds, group, dirName, goPackageName);
  }

  /** A groups list of the kinds: one entry per kind, each the group of a kind, every kind's group listed. */
  ghost predicate GroupsListed(kubeKinds: set<GroupKind>, groups: seq<string>) {
    exists ks :: Enumerates(kubeKinds, ks, groups)
  }

  /** `ks` lists every kind exactly once, and `groups` is the group of each, in the same order. */
  ghost predicate Enumerates(kubeKinds: set<GroupKind>, ks: seq<GroupKind>, groups: seq<string>) {
    |ks| == |kubeKinds| == |groups| &&
    (forall gk :: gk in kubeKinds <==> gk in ks) &&
    (forall i, j :: 0 <= i < j < |ks| ==> ks[i] != ks[j]) &&
    forall i :: 0 <= i < |groups| ==> groups[i] == ks[i].group
  }

  /** In a groups list of the kinds, each group appears once per kind of that group. */
  lemma GroupRepeatsPerKind(kubeKinds: set<GroupKind>, groups: seq<string>, g: string)
    requires GroupsListed(kubeKinds, groups)
    ensures multiset(groups)[g] == |set gk: GroupKind | gk in kubeKinds && gk.group == g|
  {
    var ks :| Enumerates(kubeKinds, ks, groups);
    ListedCount(ks, groups, g);
    assert (set gk: GroupKind | gk in ks && gk.group == g) == (set gk: GroupKind | gk in kubeKinds && gk.group == g);
  }

  lemma {:induction false} ListedCount(ks: seq<GroupKind>, groups: seq<string>, g: string)
    requires |ks| == |groups| && forall i :: 0 <= i < |groups| ==> groups[i] == ks[i].group
    requires forall i, j :: 0 <= i < j < |ks| ==> ks[i] != ks[j]
    ensures multiset(groups)[g] == |set gk: GroupKind | gk in ks && gk.group == g|
    decreases |ks|
  {
    if |ks| > 0 {
      var n := |ks| - 1;
      ListedCount(ks[..n], groups[..n], g);
      assert groups == groups[..n] + [groups[n]];
      assert multiset(groups) == multiset(groups[..n]) + multiset{groups[n]};
      KindCountStep(ks, g);
    }
  }

  /** Adding one more distinct kind adds one to its group's count. */
  lemma KindCountStep(ks: seq<GroupKind>, g: string)
    requires |ks| > 0 && forall i, j :: 0 <= i < j < |ks| ==> ks[i] != ks[j]
    ensures |set gk: GroupKind | gk in ks && gk.group == g| ==
      |set gk: GroupKind | gk in ks[..|ks| - 1] && gk.group == g| + (if ks[|ks| - 1].group == g then 1 else 0)
  {
    var n := |ks| - 1;
    assert ks == ks[..n] + [ks[n]];
    var before := set gk: GroupKind | gk in ks[..n] && gk.group == g;
    var after := set gk: GroupKind | gk in ks && gk.group == g;
    if ks[n].group == g {
      assert ks[n] !in before;
      assert after == before + {ks[n]};
    } else {
      assert after == before;
    }
  }


  /** The groups list: the group of each kind, one entry per kind, in map order. */
  method GroupsOfKinds(kubeKinds: set<GroupKind>) returns (groups: seq<string>)
    ensures GroupsListed(kubeKinds, groups)
  {
    groups := [];
    ghost var ks: seq<GroupKind> := [];
    var todo := kubeKinds;
    while todo != {}
      invariant todo <= kubeKinds
      invariant |ks| + |todo| == |kubeKinds| && |groups| == |ks|
      invariant forall gk :: gk in kubeKinds - todo <==> gk in ks
      invariant forall i, j :: 0 <= i < j < |ks| ==> ks[i] != ks[j]
      invariant forall i :: 0 <= i < |groups| ==> groups[i] == ks[i].group
      decreases |todo|
    {
      var gk :| gk in todo;
      assert gk !in ks;
      groups := groups + [gk.group];
      ks := ks + [gk];
      todo := todo - {gk};
    }
    assert Enumerates(kubeKinds, ks, groups);
  }

  // ---------------------------------------------------------------------
  // The AST node filter
  // ---------------------------------------------------------------------

  /** The AST nodes the filter tells apart; a field carries the keys of its parsed struct tag. */
  datatype AstNode = InterfaceType | StructType | Field(tagKeys: set<string>) | OtherNode

  /**
   * filterTypesForCRDs: interfaces are skipped, struct types kept, a field
   * is kept exactly when its tag has a `json` key, and any other node kept.
   */
  function FilterTypesForCrds(n: AstNode): (keep: bool)
    ensures keep <==> !n.InterfaceType? && (n.Field? ==> "json" in n.tagKeys)
  {
    match n
    case InterfaceType => false
    case StructType => true
    case Field(tagKeys) => "json" in tagKeys
    case OtherNode => true
  }
}
