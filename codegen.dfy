/**
 * The driver that decides which code generators run and how each is invoked
 * (pkg/codegen/generator.go): the `+name` / `-name` / `name` selection
 * algebra over the generator sets, the filtering of configured names, the
 * mapping from generator to installed tool, the package-path and proto-name
 * helpers, and the extra verbosity arguments.
 */
module Codegen {
  import opened GoStrings
  import GoPath
  import opened Wrappers
  import opened GoSet
  import opened Lists

  /** Every generator the driver knows, in the order they run. */
  const SortedValidGenerators: seq<string> :=
    ["deepcopy", "defaulter", "conversion", "register", "install", "crd",
     "openapi", "protobuf", "client", "lister", "informer"]

  predicate IsValidGenerator(g: string) {
    g in SortedValidGenerators
  }

  lemma CanonicalDistinct()
    ensures Distinct(SortedValidGenerators)
  {
  }

  // ---------------------------------------------------------------------
  // Generator options
  // ---------------------------------------------------------------------

  /** How a generator option is written: `-name`, `+name` or a bare `name`. */
  datatype Sign = Minus | Plus | Bare

  function SignOf(opt: string): Sign
    requires |opt| > 0
  {
    if opt[0] == '-' then Minus else if opt[0] == '+' then Plus else Bare
  }

  /** The generator an option names: a signed option without its sign, a bare one as written. */
  function NameOf(opt: string): (r: string)
    requires |opt| > 0
    ensures SignOf(opt) == Bare ==> r == opt
    ensures SignOf(opt) != Bare ==> [opt[0]] + r == opt
  {
    if SignOf(opt) == Bare then opt else opt[1..]
  }

  /** The generators named by the non-empty options of one sign; empty options are skipped. */
  function Named(opts: seq<string>, sign: Sign): set<string>
    decreases |opts|
  {
    if |opts| == 0 then {}
    else
      var o := opts[|opts| - 1];
      Named(opts[..|opts| - 1], sign) + (if |o| > 0 && SignOf(o) == sign then {NameOf(o)} else {})
  }

  lemma {:induction false} NamedMembers(opts: seq<string>, sign: Sign, x: string)
    ensures x in Named(opts, sign) <==>
      exists o :: o in opts && |o| > 0 && SignOf(o) == sign && NameOf(o) == x
    decreases |opts|
  {
    if |opts| > 0 {
      var init := opts[..|opts| - 1];
      NamedMembers(init, sign, x);
      assert opts == init + [opts[|opts| - 1]];
      if exists o :: o in opts && |o| > 0 && SignOf(o) == sign && NameOf(o) == x {
        var o :| o in opts && |o| > 0 && SignOf(o) == sign && NameOf(o) == x;
        if o != opts[|opts| - 1] {
          assert o in init;
        }
      }
    }
  }

  lemma {:induction false} NamedConcat(a: seq<string>, b: seq<string>, sign: Sign)
    ensures Named(a + b, sign) == Named(a, sign) + Named(b, sign)
    decreases |b|
  {
    if |b| > 0 {
      NamedConcat(a, b[..|b| - 1], sign);
      assert (a + b)[..|a + b| - 1] == a + b[..|b| - 1];
    } else {
      assert a + b == a;
    }
  }

  /**
   * The generators that run, before they are put in canonical order: with
   * any bare option, exactly the bare names; otherwise the default-enabled
   * ones that are neither disabled by default nor by a `-name`, plus every
   * `+name`.
   */
  function Target(defaultEnabled: seq<string>, defaultDisabled: seq<string>, opts: seq<string>): set<string> {
    if Named(opts, Bare) != {} then Named(opts, Bare)
    else Elems(defaultEnabled) - Elems(defaultDisabled) - Named(opts, Minus) + Named(opts, Plus)
  }

  /** What EnabledGenerators returns: the target generators in canonical order. */
  function EnabledSpec(defaultEnabled: seq<string>, defaultDisabled: seq<string>, opts: seq<string>): seq<string> {
    Filter(SortedValidGenerators, Target(defaultEnabled, defaultDisabled, opts))
  }

  /**
   * EnabledGenerators: fills the default-disabled set, the all set (which
   * absorbs the disabled set after each default-enabled name), then the
   * `-`, `+` and bare sets from the options, and lists the chosen ones in
   * canonical order.
   */
  method EnabledGenerators(defaultEnabled: seq<string>, defaultDisabled: seq<string>, opts: seq<string>)
    returns (sorted: seq<string>)
    ensures sorted == EnabledSpec(defaultEnabled, defaultDisabled, opts)
  {
    var disabled := CollectDisabled(defaultDisabled);
    var all := CollectAll(defaultEnabled, disabled);
    var enabled, target;
    disabled, enabled, target := CollectOptions(opts, disabled);
    if |target| == 0 {
      AllMinusDisabled(all, disabled, defaultEnabled, defaultDisabled, opts);
      target := all - disabled + enabled;
    }
    assert target == Target(defaultEnabled, defaultDisabled, opts);
    sorted := InCanonicalOrder(target);
  }

  /** The first loop of EnabledGenerators: the default-disabled set. */
  method CollectDisabled(defaultDisabled: seq<string>) returns (disabled: set<string>)
    ensures disabled == Elems(defaultDisabled)
  {
    disabled := {};
    for i := 0 to |defaultDisabled|
      invariant disabled == Elems(defaultDisabled[..i])
    {
      ElemsSnoc(defaultDisabled, i);
      disabled := disabled + {defaultDisabled[i]};
    }
    assert defaultDisabled[..|defaultDisabled|] == defaultDisabled;
  }

  /** The second loop: the all set, which absorbs the disabled set after each default-enabled name. */
  method CollectAll(defaultEnabled: seq<string>, disabled: set<string>) returns (all: set<string>)
    ensures all == Elems(defaultEnabled) + (if |defaultEnabled| > 0 then disabled else {})
  {
    all := {};
    for i := 0 to |defaultEnabled|
      invariant all == Elems(defaultEnabled[..i]) + (if i > 0 then disabled else {})
    {
      ElemsSnoc(defaultEnabled, i);
      all := all + {defaultEnabled[i]};
      all := all + disabled;
    }
    assert defaultEnabled[..|defaultEnabled|] == defaultEnabled;
  }

  /** The options loop: `-name` joins the disabled set, `+name` the enabled set, a bare name the target; empty options are skipped. */
  method CollectOptions(opts: seq<string>, disabled0: set<string>) returns (disabled: set<string>, enabled: set<string>, target: set<string>)
    ensures disabled == disabled0 + Named(opts, Minus)
    ensures enabled == Named(opts, Plus)
    ensures target == Named(opts, Bare)
  {
    disabled, enabled, target := disabled0, {}, {};
    for i := 0 to |opts|
      invariant disabled == disabled0 + Named(opts[..i], Minus)
      invariant enabled == Named(opts[..i], Plus)
      invariant target == Named(opts[..i], Bare)
    {
      var opt := opts[i];
      NamedSnoc(opts, i);
      if |opt| == 0 {
        continue;
      }
      if opt[0] == '-' {
        disabled := disabled + {opt[1..]};
      } else if opt[0] == '+' {
        enabled := enabled + {opt[1..]};
      } else {
        target := target + {opt};
      }
    }
    assert opts[..|opts|] == opts;
  }

  /** The closing loop of EnabledGenerators: the chosen generators, in canonical order. */
  method InCanonicalOrder(target: set<string>) returns (sorted: seq<string>)
    ensures sorted == Filter(SortedValidGenerators, target)
  {
    sorted := [];
    for i := 0 to |SortedValidGenerators|
      invariant sorted == Filter(SortedValidGenerators[..i], target)
    {
      FilterSnoc(SortedValidGenerators, target, i);
      if SortedValidGenerators[i] in target {
        sorted := sorted + [SortedValidGenerators[i]];
      }
    }
    assert SortedValidGenerators[..|SortedValidGenerators|] == SortedValidGenerators;
  }

  lemma NamedSnoc(opts: seq<string>, i: nat)
    requires i < |opts|
    ensures forall sign ::
      Named(opts[..i + 1], sign) == Named(opts[..i], sign) + (if |opts[i]| > 0 && SignOf(opts[i]) == sign then {NameOf(opts[i])} else {})
  {
    assert opts[..i + 1][..i] == opts[..i];
  }

  /** The all set minus the disabled set is the default-enabled names that no default or option disables, whether or not the all set absorbed the disabled ones. */
  lemma AllMinusDisabled(all: set<string>, disabled: set<string>, defaultEnabled: seq<string>, defaultDisabled: seq<string>, opts: seq<string>)
    requires all == Elems(defaultEnabled) + (if |defaultEnabled| > 0 then Elems(defaultDisabled) else {})
    requires disabled == Elems(defaultDisabled) + Named(opts, Minus)
    ensures all - disabled == Elems(defaultEnabled) - Elems(defaultDisabled) - Named(opts, Minus)
  {
  }

  /** The result lists a generator iff it is valid and chosen. */
  lemma EnabledMembers(defaultEnabled: seq<string>, defaultDisabled: seq<string>, opts: seq<string>)
    ensures forall g :: g in EnabledSpec(defaultEnabled, defaultDisabled, opts) <==>
      IsValidGenerator(g) && g in Target(defaultEnabled, defaultDisabled, opts)
  {
    forall g {
      EnabledMember(defaultEnabled, defaultDisabled, opts, g);
    }
  }

  /** One generator at a time: it is listed iff it is valid and chosen. */
  lemma EnabledMember(defaultEnabled: seq<string>, defaultDisabled: seq<string>, opts: seq<string>, g: string)
    ensures g in EnabledSpec(defaultEnabled, defaultDisabled, opts) <==>
      IsValidGenerator(g) && g in Target(defaultEnabled, defaultDisabled, opts)
  {
    FilterMembers(SortedValidGenerators, Target(defaultEnabled, defaultDisabled, opts));
  }

  /** The result is a subsequence of the canonical list: valid names only, in canonical order, without repeats. */
  lemma EnabledIsCanonicalSubsequence(defaultEnabled: seq<string>, defaultDisabled: seq<string>, opts: seq<string>)
    ensures var r := EnabledSpec(defaultEnabled, defaultDisabled, opts);
      (forall g :: g in r ==> IsValidGenerator(g)) && OrderedIn(r, SortedValidGenerators) && Distinct(r)
  {
    CanonicalDistinct();
    var r := EnabledSpec(defaultEnabled, defaultDisabled, opts);
    FilterMembers(SortedValidGenerators, Target(defaultEnabled, defaultDisabled, opts));
    FilterOrdered(SortedValidGenerators, Target(defaultEnabled, defaultDisabled, opts));
    OrderedDistinct(r, SortedValidGenerators);
  }

  /** Any bare option overrides the defaults and every signed option: exactly the valid bare names run. */
  lemma BareOptionsOverride(defaultEnabled: seq<string>, defaultDisabled: seq<string>,
                            otherEnabled: seq<string>, otherDisabled: seq<string>, opts: seq<string>, g: string)
    requires exists o :: o in opts && |o| > 0 && SignOf(o) == Bare
    ensures EnabledSpec(defaultEnabled, defaultDisabled, opts) == EnabledSpec(otherEnabled, otherDisabled, opts)
    ensures g in EnabledSpec(defaultEnabled, defaultDisabled, opts) <==> IsValidGenerator(g) && g in opts && g[0] != '-' && g[0] != '+'
  {
    var o :| o in opts && |o| > 0 && SignOf(o) == Bare;
    NamedMembers(opts, Bare, o);
    assert NameOf(o) in Named(opts, Bare);
    BareMembership(defaultEnabled, defaultDisabled, opts, g);
  }

  lemma BareMembership(defaultEnabled: seq<string>, defaultDisabled: seq<string>, opts: seq<string>, g: string)
    requires Named(opts, Bare) != {}
    ensures g in EnabledSpec(defaultEnabled, defaultDisabled, opts) <==> IsValidGenerator(g) && g in opts && g[0] != '-' && g[0] != '+'
  {
    ValidGeneratorShape(g);
    BareNamed(opts, g);
    EnabledMember(defaultEnabled, defaultDisabled, opts, g);
  }

  /** The bare set holds exactly the non-empty options that start with no sign. */
  lemma BareNamed(opts: seq<string>, g: string)
    ensures g in Named(opts, Bare) <==> g in opts && |g| > 0 && g[0] != '-' && g[0] != '+'
  {
    NamedMembers(opts, Bare, g);
  }

  /** No generator name starts with a sign. */
  lemma ValidGeneratorShape(g: string)
    ensures IsValidGenerator(g) ==> |g| > 0 && g[0] != '-' && g[0] != '+'
  {
    if IsValidGenerator(g) {
      var i :| 0 <= i < |SortedValidGenerators| && SortedValidGenerators[i] == g;
    }
  }

  /** Without bare options, `+name` enables a valid generator even when `-name` or the defaults disable it. */
  lemma PlusWins(defaultEnabled: seq<string>, defaultDisabled: seq<string>, opts: seq<string>, g: string)
    requires forall o :: o in opts && |o| > 0 ==> SignOf(o) != Bare
    requires "+" + g in opts && IsValidGenerator(g)
    ensures g in EnabledSpec(defaultEnabled, defaultDisabled, opts)
  {
    SignedNamed(opts, Plus, g);
    NoBareOptions(opts);
    EnabledMember(defaultEnabled, defaultDisabled, opts, g);
  }

  /** Without bare options, `-name` (and no `+name`) keeps a generator from running even when it is enabled by default. */
  lemma MinusRemoves(defaultEnabled: seq<string>, defaultDisabled: seq<string>, opts: seq<string>, g: string)
    requires forall o :: o in opts && |o| > 0 ==> SignOf(o) != Bare
    requires "-" + g in opts && "+" + g !in opts
    ensures g !in EnabledSpec(defaultEnabled, defaultDisabled, opts)
  {
    SignedNamed(opts, Minus, g);
    PlusNotNamed(opts, g);
    NoBareOptions(opts);
    EnabledMember(defaultEnabled, defaultDisabled, opts, g);
  }

  /** A signed option names the generator after its sign. */
  lemma SignedNamed(opts: seq<string>, sign: Sign, g: string)
    requires sign != Bare
    requires (if sign == Plus then "+" else "-") + g in opts
    ensures g in Named(opts, sign)
  {
    var o := (if sign == Plus then "+" else "-") + g;
    assert SignOf(o) == sign && NameOf(o) == g;
    NamedMembers(opts, sign, g);
  }

  /** Without `+name` among the options, the plus set does not hold that name. */
  lemma PlusNotNamed(opts: seq<string>, g: string)
    requires "+" + g !in opts
    ensures g !in Named(opts, Plus)
  {
    forall o | o in opts && |o| > 0 && SignOf(o) == Plus ensures NameOf(o) != g {
      assert o == "+" + NameOf(o);
    }
    NamedMembers(opts, Plus, g);
  }

  /** Without bare options and signed options, the defaults decide: enabled by default and not disabled by default. */
  lemma DefaultsDecide(defaultEnabled: seq<string>, defaultDisabled: seq<string>, opts: seq<string>, g: string)
    requires forall o :: o in opts ==> o == ""
    ensures g in EnabledSpec(defaultEnabled, defaultDisabled, opts) <==>
      IsValidGenerator(g) && g in defaultEnabled && g !in defaultDisabled
  {
    NoBareOptions(opts);
    NamedMembers(opts, Minus, g);
    NamedMembers(opts, Plus, g);
    EnabledMembers(defaultEnabled, defaultDisabled, opts);
  }

  lemma NoBareOptions(opts: seq<string>)
    requires forall o :: o in opts && |o| > 0 ==> SignOf(o) != Bare
    ensures Named(opts, Bare) == {}
  {
    forall x ensures x !in Named(opts, Bare) {
      NamedMembers(opts, Bare, x);
    }
  }

  /** An empty option, wherever it appears, changes nothing. */
  lemma EmptyOptionIgnored(defaultEnabled: seq<string>, defaultDisabled: seq<string>, before: seq<string>, after: seq<string>)
    ensures EnabledSpec(defaultEnabled, defaultDisabled, before + [""] + after) ==
            EnabledSpec(defaultEnabled, defaultDisabled, before + after)
  {
    forall sign ensures Named(before + [""] + after, sign) == Named(before + after, sign) {
      NamedConcat(before + [""], after, sign);
      NamedConcat(before, [""], sign);
      NamedConcat(before, after, sign);
      assert Named([""], sign) == {} by {
        assert [""][..0] == [];
      }
    }
  }

  /** Only the sets of default names matter, not their order or repeats (the configured lists come out of a set). */
  lemma DefaultsOrderInsensitive(e1: seq<string>, d1: seq<string>, e2: seq<string>, d2: seq<string>, opts: seq<string>)
    requires Elems(e1) == Elems(e2) && Elems(d1) == Elems(d2)
    ensures EnabledSpec(e1, d1, opts) == EnabledSpec(e2, d2, opts)
  {
  }

  /** The command line's default lists. */
  const DefaultEnabled: seq<string> := ["deepcopy", "defaulter", "conversion", "register", "install"]
  const DefaultDisabled: seq<string> := ["openapi", "client", "lister", "informer", "crd", "protobuf"]

  /** With the command line's defaults and no options, exactly the default-enabled generators run, in that order. */
  lemma DefaultSelection()
    ensures EnabledSpec(DefaultEnabled, DefaultDisabled, []) == DefaultEnabled
  {
    var t := Target(DefaultEnabled, DefaultDisabled, []);
    var rest := ["crd", "openapi", "protobuf", "client", "lister", "informer"];
    DefaultEnabledSet();
    DefaultDisabledSet();
    DefaultsDisjoint(Elems(DefaultEnabled), Elems(DefaultDisabled));
    assert t == Elems(DefaultEnabled);
    CanonicalDistinct();
    assert SortedValidGenerators == DefaultEnabled + rest;
    FilterPrefix(DefaultEnabled, rest, t);
  }

  /** No generator is both enabled and disabled by default. */
  lemma DefaultsDisjoint(en: set<string>, dis: set<string>)
    requires en == {"deepcopy", "defaulter", "conversion", "register", "install"}
    requires dis == {"openapi", "client", "lister", "informer", "crd", "protobuf"}
    ensures en - dis == en
  {
  }

  /** `+crd -register` on top of the defaults: crd joins, register leaves, the order stays canonical. */
  lemma SignedSelection()
    ensures EnabledSpec(DefaultEnabled, DefaultDisabled, ["+crd", "-register"]) ==
      ["deepcopy", "defaulter", "conversion", "install", "crd"]
  {
    SignedTarget();
    SignedFilter(Target(DefaultEnabled, DefaultDisabled, ["+crd", "-register"]));
  }

  lemma SignedFilter(t: set<string>)
    requires "deepcopy" in t && "defaulter" in t && "conversion" in t && "install" in t && "crd" in t
    requires "register" !in t
    requires "openapi" !in t && "protobuf" !in t && "client" !in t && "lister" !in t && "informer" !in t
    ensures Filter(SortedValidGenerators, t) == ["deepcopy", "defaulter", "conversion", "install", "crd"]
  {
    var a := ["deepcopy", "defaulter", "conversion"];
    var b := ["install", "crd"];
    var rest := ["openapi", "protobuf", "client", "lister", "informer"];
    assert SortedValidGenerators == a + ["register"] + b + rest;
    FilterDropOne(a, "register", b, rest, t);
  }

  /** Filtering drops exactly the one element and the tail that the set leaves out. */
  lemma FilterDropOne(a: seq<string>, x: string, b: seq<string>, rest: seq<string>, t: set<string>)
    requires forall y :: y in a ==> y in t
    requires x !in t
    requires forall y :: y in b ==> y in t
    requires forall y :: y in rest ==> y !in t
    ensures Filter(a + [x] + b + rest, t) == a + b
  {
    FilterDropTail(a + [x] + b, rest, t);
    FilterKeepTail(a + [x], b, t);
    FilterDropTail(a, [x], t);
    FilterKeepsAll(a, t);
  }

  lemma FilterDropTail(s: seq<string>, rest: seq<string>, t: set<string>)
    requires forall y :: y in rest ==> y !in t
    ensures Filter(s + rest, t) == Filter(s, t)
  {
    FilterConcat(s, rest, t);
    FilterDropsAll(rest, t);
  }

  lemma FilterKeepTail(s: seq<string>, rest: seq<string>, t: set<string>)
    requires forall y :: y in rest ==> y in t
    ensures Filter(s + rest, t) == Filter(s, t) + rest
  {
    FilterConcat(s, rest, t);
    FilterKeepsAll(rest, t);
  }

  /** The sets named by `+crd -register`: no bare name, `register` disabled, `crd` enabled. */
  lemma SignedOptions()
    ensures Named(["+crd", "-register"], Bare) == {}
    ensures Named(["+crd", "-register"], Minus) == {"register"}
    ensures Named(["+crd", "-register"], Plus) == {"crd"}
  {
    var opts := ["+crd", "-register"];
    assert opts == ["+crd"] + ["-register"];
    assert NameOf("+crd") == "crd" && NameOf("-register") == "register";
    forall sign ensures Named(opts, sign) == Named(["+crd"], sign) + Named(["-register"], sign) {
      NamedConcat(["+crd"], ["-register"], sign);
    }
    forall sign ensures Named(["+crd"], sign) == (if sign == Plus then {"crd"} else {}) {
      NamedOne("+crd", sign);
    }
    forall sign ensures Named(["-register"], sign) == (if sign == Minus then {"register"} else {}) {
      NamedOne("-register", sign);
    }
  }

  lemma SignedTarget()
    ensures Target(DefaultEnabled, DefaultDisabled, ["+crd", "-register"]) ==
      {"deepcopy", "defaulter", "conversion", "install", "crd"}
  {
    SignedOptions();
    DefaultEnabledSet();
    DefaultDisabledSet();
    SignedSetArithmetic(Elems(DefaultEnabled), Elems(DefaultDisabled),
      Target(DefaultEnabled, DefaultDisabled, ["+crd", "-register"]));
  }

  lemma DefaultEnabledSet()
    ensures Elems(DefaultEnabled) == {"deepcopy", "defaulter", "conversion", "register", "install"}
  {
  }

  lemma DefaultDisabledSet()
    ensures Elems(DefaultDisabled) == {"openapi", "client", "lister", "informer", "crd", "protobuf"}
  {
  }

  /** The set arithmetic of `+crd -register` over the default sets. */
  lemma SignedSetArithmetic(en: set<string>, dis: set<string>, t: set<string>)
    requires en == {"deepcopy", "defaulter", "conversion", "register", "install"}
    requires dis == {"openapi", "client", "lister", "informer", "crd", "protobuf"}
    requires t == en - dis - {"register"} + {"crd"}
    ensures t == {"deepcopy", "defaulter", "conversion", "install", "crd"}
  {
  }

  /** A bare option replaces everything else: `lister +openapi` runs the lister generator only. */
  lemma BareSelection()
    ensures EnabledSpec(DefaultEnabled, DefaultDisabled, ["lister", "+openapi"]) == ["lister"]
  {
    BareOptions();
    var t := Target(DefaultEnabled, DefaultDisabled, ["lister", "+openapi"]);
    assert t == {"lister"};
    var a := ["deepcopy", "defaulter", "conversion", "register", "install", "crd", "openapi", "protobuf", "client"];
    assert SortedValidGenerators == a + ["lister"] + ["informer"];
    FilterOnlyOne(a, "lister", ["informer"], t);
  }

  /** The bare names of `lister +openapi`: just `lister`. */
  lemma BareOptions()
    ensures Named(["lister", "+openapi"], Bare) == {"lister"}
  {
    var opts := ["lister", "+openapi"];
    assert opts == ["lister"] + ["+openapi"];
    NamedConcat(["lister"], ["+openapi"], Bare);
    NamedOne("lister", Bare);
    NamedOne("+openapi", Bare);
  }

  /** Filtering keeps exactly the one element the set holds. */
  lemma FilterOnlyOne(a: seq<string>, x: string, b: seq<string>, t: set<string>)
    requires forall y :: y in a ==> y !in t
    requires x in t
    requires forall y :: y in b ==> y !in t
    ensures Filter(a + [x] + b, t) == [x]
  {
    FilterDropTail(a + [x], b, t);
    FilterConcat(a, [x], t);
    FilterDropsAll(a, t);
    FilterKeepsAll([x], t);
  }

  lemma NamedOne(o: string, sign: Sign)
    ensures Named([o], sign) == if |o| > 0 && SignOf(o) == sign then {NameOf(o)} else {}
  {
    assert [o][..0] == [];
  }

  // ---------------------------------------------------------------------
  // The code generator
  // ---------------------------------------------------------------------

  /** The names in `gs` that are valid generators. */
  function ValidNames(gs: seq<string>): set<string> {
    set g | g in gs && IsValidGenerator(g)
  }

  /** NewCodeGenerator's filtering loop: collects the valid names into a set. */
  method CollectValid(gs: seq<string>) returns (s: set<string>)
    ensures s == ValidNames(gs)
    ensures forall g :: g in s ==> IsValidGenerator(g) && g in gs
  {
    s := {};
    for i := 0 to |gs|
      invariant s == ValidNames(gs[..i])
    {
      assert gs[..i + 1] == gs[..i] + [gs[i]];
      if IsValidGenerator(gs[i]) {
        s := s + {gs[i]};
      }
    }
    assert gs[..|gs|] == gs;
  }

  /** One decision of doGen: an invalid name is skipped; a valid one runs through its tool, if it has one. */
  datatype Step = Skipped | Run(generator: string, tool: Option<string>)

  /**
   * The tool prepareRunner installs for a generator: none for the two that
   * run in-process, go-to-protobuf for protobuf, and `name-gen` otherwise.
   */
  function RunnerTool(g: string): (r: Option<string>)
    ensures r.None? <==> g == "crd" || g == "install"
    ensures g == "protobuf" ==> r == Some("go-to-protobuf")
    ensures g != "crd" && g != "install" && g != "protobuf" ==> r == Some(g + "-gen")
  {
    if g == "crd" || g == "install" then None
    else if g == "protobuf" then Some("go-to-protobuf")
    else Some(g + "-gen")
  }

  /** Distinct valid generators never share a tool. */
  lemma RunnerToolsDistinct(g1: string, g2: string)
    requires IsValidGenerator(g1) && IsValidGenerator(g2) && g1 != g2
    requires RunnerTool(g1).Some?
    ensures RunnerTool(g1) != RunnerTool(g2)
  {
    if RunnerTool(g2).Some? && g1 != "protobuf" && g2 != "protobuf" {
      assert (g1 + "-gen")[..|g1|] == g1;
      assert (g2 + "-gen")[..|g2|] == g2;
    }
  }

  function DoGen(g: string): (r: Step)
    ensures r.Skipped? <==> !IsValidGenerator(g)
    ensures r.Run? ==> r.generator == g && r.tool == RunnerTool(g)
  {
    if !IsValidGenerator(g) then Skipped else Run(g, RunnerTool(g))
  }

  /** path.Join(workspace, strings.TrimPrefix(pkg, module)) for each package of the module, in input order. */
  function LocalPaths(pkgs: seq<string>, mod: string, workspace: string): seq<string>
    decreases |pkgs|
  {
    if |pkgs| == 0 then []
    else
      var p := pkgs[|pkgs| - 1];
      LocalPaths(pkgs[..|pkgs| - 1], mod, workspace) +
      (if HasPrefix(p, mod) then [GoPath.Join([workspace, TrimPrefix(p, mod)])] else [])
  }

  /** Local paths come from prefixed packages only, and concatenated inputs give concatenated paths. */
  lemma {:induction false} LocalPathsConcat(a: seq<string>, b: seq<string>, mod: string, workspace: string)
    ensures LocalPaths(a + b, mod, workspace) == LocalPaths(a, mod, workspace) + LocalPaths(b, mod, workspace)
    decreases |b|
  {
    if |b| == 0 {
      assert a + b == a;
    } else {
      LocalPathsConcat(a, b[..|b| - 1], mod, workspace);
      assert (a + b)[..|a + b| - 1] == a + b[..|b| - 1];
    }
  }

  /** Each local path comes from a package of the module, and each package of the module gives one. */
  lemma {:induction false} LocalPathsMembers(pkgs: seq<string>, mod: string, workspace: string)
    ensures forall x :: x in LocalPaths(pkgs, mod, workspace) ==>
      exists p :: p in pkgs && HasPrefix(p, mod) && x == GoPath.Join([workspace, p[|mod|..]])
    ensures forall p :: p in pkgs && HasPrefix(p, mod) ==>
      GoPath.Join([workspace, p[|mod|..]]) in LocalPaths(pkgs, mod, workspace)
    decreases |pkgs|
  {
    if |pkgs| > 0 {
      var init := pkgs[..|pkgs| - 1];
      LocalPathsMembers(init, mod, workspace);
      assert pkgs == init + [pkgs[|pkgs| - 1]];
      forall p | p in pkgs && HasPrefix(p, mod)
        ensures GoPath.Join([workspace, p[|mod|..]]) in LocalPaths(pkgs, mod, workspace)
      {
        if p != pkgs[|pkgs| - 1] {
          assert p in init;
        }
      }
    }
  }

  /** A package of another module whose path merely starts with the same characters is taken as local too. */
  lemma LocalPathsPrefixByCharacters()
    ensures LocalPaths(["example.com/ab/x"], "example.com/a", "/w") == [GoPath.Join(["/w", "b/x"])]
  {
    var ps := ["example.com/ab/x"];
    assert ps[..0] == [];
    assert TrimPrefix(ps[0], "example.com/a") == "b/x";
  }

  /**
   * The state of a CodeGenerator that generation reads: where the workspace
   * is, its module, the configured generator lists and input packages, and
   * the verbosity passed to each tool.
   */
  class CodeGenerator {
    var workspace: string
    var workspaceModule: string
    var enabledGenerators: seq<string>
    var disabledGenerators: seq<string>
    var inputPackages: seq<string>
    var inputInternalPackages: seq<string>
    var outputBase: string
    var verbose: int

    /** NewCodeGenerator: keeps only the valid generator names, each once, in no particular order. */
    constructor (workspace: string, workspaceModule: string, enabledGenerators: seq<string>,
                 disabledGenerators: seq<string>, inputPackages: seq<string>,
                 inputInternalPackages: seq<string>, verbose: int)
      ensures this.workspace == workspace && this.workspaceModule == workspaceModule
      ensures this.inputPackages == inputPackages && this.inputInternalPackages == inputInternalPackages
      ensures this.verbose == verbose
      ensures this.outputBase == GoPath.Join([workspace, "__output", "generated"])
      ensures Elems(this.enabledGenerators) == ValidNames(enabledGenerators) && Distinct(this.enabledGenerators)
      ensures Elems(this.disabledGenerators) == ValidNames(disabledGenerators) && Distinct(this.disabledGenerators)
    {
      var enabled := CollectValid(enabledGenerators);
      var disabled := CollectValid(disabledGenerators);
      var en := ToStrings(enabled);
      var dis := ToStrings(disabled);
      this.workspace := workspace;
      this.workspaceModule := workspaceModule;
      this.inputPackages := inputPackages;
      this.inputInternalPackages := inputInternalPackages;
      this.verbose := verbose;
      this.outputBase := GoPath.Join([workspace, "__output", "generated"]);
      this.enabledGenerators := en;
      this.disabledGenerators := dis;
    }

    /**
     * doGenerate: runs doGen on each generator EnabledGenerators chose.
     * None of them is skipped, since the chosen ones are all valid.
     */
    method DoGenerate(generators: seq<string>) returns (steps: seq<Step>)
      ensures var sorted := EnabledSpec(enabledGenerators, disabledGenerators, generators);
        |steps| == |sorted| &&
        forall i :: 0 <= i < |steps| ==> steps[i] == Run(sorted[i], RunnerTool(sorted[i]))
    {
      var sorted := EnabledGenerators(enabledGenerators, disabledGenerators, generators);
      EnabledMembers(enabledGenerators, disabledGenerators, generators);
      steps := [];
      for i := 0 to |sorted|
        invariant |steps| == i
        invariant forall k :: 0 <= k < i ==> steps[k] == Run(sorted[k], RunnerTool(sorted[k]))
      {
        assert sorted[i] in sorted;
        steps := steps + [DoGen(sorted[i])];
      }
    }

    /** getLocalInputPackagePaths: the workspace path of each input package of the workspace module, in input order. */
    method GetLocalInputPackagePaths() returns (inputPaths: seq<string>)
      ensures inputPaths == LocalPaths(inputPackages, workspaceModule, workspace)
    {
      inputPaths := [];
      for i := 0 to |inputPackages|
        invariant inputPaths == LocalPaths(inputPackages[..i], workspaceModule, workspace)
      {
        var pkg := inputPackages[i];
        assert inputPackages[..i + 1][..i] == inputPackages[..i];
        if HasPrefix(pkg, workspaceModule) {
          var relative := TrimPrefix(pkg, workspaceModule);
          inputPaths := inputPaths + [GoPath.Join([workspace, relative])];
        }
      }
      assert inputPackages[..|inputPackages|] == inputPackages;
    }

    /** appendArgs: the tool arguments, followed by `--v N` when the verbosity is positive. */
    function AppendArgs(args: seq<string>): (r: seq<string>)
      reads this
      ensures |r| == |args| + (if verbose > 0 then 2 else 0) && r[..|args|] == args
      ensures verbose > 0 ==>
        r[|args|] == "--v" && CanonicalNumeral(r[|args| + 1]) && NumeralValue(r[|args| + 1]) == verbose
    {
      if verbose > 0 then
        DecimalRoundTrip(verbose);
        args + ["--v", Decimal(verbose)]
      else args
    }
  }

  // ---------------------------------------------------------------------
  // Small helpers
  // ---------------------------------------------------------------------

  /**
   * protoSafeOutermostPackage: `/` becomes `.`, `-` becomes `_`, and a `.`
   * is put in front. The contract states the leading dot; the character-wise
   * mapping, the length and the absence of `/` and `-` are `ProtoSafeShape`.
   */
  function ProtoSafeOutermostPackage(name: string): (r: string)
    ensures |r| > 0 && r[0] == '.'
  {
    "." + ReplaceAll(ReplaceAll(name, "/", "."), "-", "_")
  }

  lemma ProtoSafeShape(name: string)
    ensures var r := ProtoSafeOutermostPackage(name);
      |r| == |name| + 1 &&
      (forall i :: 0 <= i < |name| ==>
        r[i + 1] == (if name[i] == '/' then '.' else if name[i] == '-' then '_' else name[i])) &&
      '/' !in r && '-' !in r
  {
    var s1 := ReplaceAll(name, "/", ".");
    ReplaceCharPointwise(name, '/', '.');
    ReplaceCharPointwise(s1, '-', '_');
    var r := ProtoSafeOutermostPackage(name);
    forall k | 0 <= k < |r| ensures r[k] != '/' && r[k] != '-' {
      if k > 0 {
        assert r[k] == ReplaceAll(s1, "-", "_")[k - 1];
      }
    }
  }

  /** The file filter of copyExpansions and findExpansions. */
  predicate IsExpansionFile(name: string) {
    if name == "generated_expansion.go" || name == "expansion_generated.go" then false
    else HasSuffix(name, "_expansion.go")
  }

  /** A hand-written expansion file is `<stem>_expansion.go` for any stem except `generated`. */
  lemma ExpansionFileIff(name: string)
    ensures IsExpansionFile(name) <==>
      exists stem :: stem + "_expansion.go" == name && stem != "generated"
  {
    if IsExpansionFile(name) {
      ExpansionFileHasStem(name);
    }
    if exists stem :: stem + "_expansion.go" == name && stem != "generated" {
      var stem :| stem + "_expansion.go" == name && stem != "generated";
      StemMakesExpansionFile(stem);
    }
  }

  lemma ExpansionFileHasStem(name: string)
    requires IsExpansionFile(name)
    ensures var stem := name[..|name| - |"_expansion.go"|];
      stem + "_expansion.go" == name && stem != "generated"
  {
    var sfx := "_expansion.go";
    var stem := name[..|name| - |sfx|];
    assert stem + sfx == name;
  }

  lemma StemMakesExpansionFile(stem: string)
    requires stem != "generated"
    ensures IsExpansionFile(stem + "_expansion.go")
  {
    var sfx := "_expansion.go";
    var name := stem + sfx;
    ExpansionExclusions();
    assert name[|name| - |sfx|..] == sfx;
    assert name[..|stem|] == stem;
    assert "generated_expansion.go" == "generated" + sfx;
  }

  /**
   * `generated_expansion.go` does end in `_expansion.go`, so only its explicit
   * exclusion keeps it out; `expansion_generated.go` does not, so its
   * exclusion changes nothing.
   */
  lemma ExpansionExclusions()
    ensures HasSuffix("generated_expansion.go", "_expansion.go")
    ensures !HasSuffix("expansion_generated.go", "_expansion.go")
  {
    assert "generated_expansion.go"[9..] == "_expansion.go";
    assert "expansion_generated.go"[9..][1] != "_expansion.go"[1];
  }
}
