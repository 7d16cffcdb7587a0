# kube-codegen core, modelled in Dafny

kube-codegen drives the Kubernetes code generators over a Go module of API types. It also ships its own CRD generator. That generator turns CustomResourceDefinition objects into Go source that rebuilds them. This project models four parts of that code and proves properties of each:

- **The value-to-source compiler** (`traverse.dfy`, `traverse_eval.dfy`). A Go value is a closed datatype: a scalar of some kind and optional custom type, a pointer, a slice, an array, a map, a struct, a channel or a function. The emitted Go code is a small expression tree. The generator functions carry the Go functions' names. The fill loops of slices, maps and structs, and `Capitalize`'s rune array, are methods proved equal to those functions. `TraverseEval.Eval` gives the emitted expressions their Go meaning. `TraverseEval.RoundTrip` proves that evaluating the code emitted for a value gives the value back.
- **The CRD generator's policy** (`crd_generator.dfy`):
  - the ` YEAR` header stamp;
  - the approval annotation on community-owned API groups;
  - package and directory naming, and import aliases;
  - the scheme and group install files, sorted and aliased;
  - the CRD constructor files and their aggregator;
  - the early exits of `Generate`;
  - the AST node filter.

  The parser's CRD and package maps live in a `Parser` class that `Generate` updates in place.
- **Generator selection** (`codegen.dfy`):
  - `EnabledGenerators`, the set arithmetic over `+name`, `-name` and bare options, output in canonical order;
  - `NewCodeGenerator`'s filtering of names;
  - `doGen`'s validity guard and the runner-name mapping;
  - `getLocalInputPackagePaths` and `appendArgs`;
  - the proto package mangler and the expansion-file filter.
- **API discovery and options** (`options.dfy`):
  - the version grammar `^v(0|[1-9][0-9]*)((alpha|beta)(0|[1-9][0-9]*))?$` as a hand-written recogniser, with a parser and writer it round-trips with;
  - `findGroupVersion` and `goFileExists` over an abstract directory tree;
  - `inputAPIPackages`;
  - `Complete` and `Validate` on a `GenOptions` class.

Support modules model the Go library calls the core relies on:

| module | file | models |
|---|---|---|
| `GoStrings` | `go_strings.dfy` | `strings.ReplaceAll`, `HasPrefix`/`HasSuffix`, `TrimPrefix`, `TrimSpace`, decimal numerals |
| `GoPath` | `go_path.dfy` | `path.Clean`, `Join`, `Base`, `Dir` |
| `GoSort` | `go_sort.dfy` | `sort.Strings`, over byte-wise lexicographic order |
| `GoSet` | `go_set.dfy` | `goset`'s `ToStrings` |
| `Lists` | `lists.dfy` | membership, repeats and order-preserving filtering |
| `Wrappers` | `wrappers.dfy` | `Option` and `Result` |

Go maps and `goset` sets are iterated in no fixed order. A loop over one either picks its next element with `:|`, or walks an iteration order it takes as an input, as `Traverse.RenderMap` does with a map value's `entries`. No contract claims an order the code does not impose.

Two behaviours of the code are worth stating, because a reader might expect otherwise:
- A group's CRD constructors, and the aggregator's calls to them, are not sorted, although the packages and imports around them are (`pkg/generator/crd/generator.go:232`, `:269`). The code fills them in Go map order (`pkg/generator/crd/generator.go:298-311`). The model keeps that order as an input, and its contracts speak of multisets of constructors, not sequences. Map entries are a different matter: jen's `Dict` printer sorts them by their printed key. The model stops before printing, so it keeps them in iteration order (see "## Left out").
- Generated constructors are meant to rebuild the CRD value they were made from, yet some values are dropped. The code renders a struct with unexported fields as a field literal whenever its type lacks the JSON codec (`pkg/generator/crd/traverse.go:189-194`). The field loop then skips unexported fields and fields of anonymous struct type (`pkg/generator/crd/traverse.go:220-222`), so their values are lost. `TraverseEval.SkippedFieldLost` proves that such a struct with a non-zero skipped field does not evaluate back to itself, and `TraverseEval.SkippedFieldExample` gives one.
- `Generate` lists a group once per kind (`pkg/generator/crd/generator.go:114-117`). So a group with several kinds has its files generated several times. `Generate`'s contract counts `|kinds| * files-per-group` files, and ties each run of files-per-group files to its entry of the groups list.

## Model

| member | source | states |
|---|---|---|
| Traverse.Capitalize | pkg/generator/crd/traverse.go:271-280 | the rune-array update yields `Capitalized(s)`: the first rune shifted down by 32 when it is in a..z, the rest unchanged |
| Traverse.CapitalizedShape | pkg/generator/crd/traverse.go:271-280 | length is kept, "" maps to "", only a first rune in a..z changes and it changes by -32 |
| Traverse.CapitalizedIdempotent | pkg/generator/crd/traverse.go:271-280 | capitalizing twice is capitalizing once |
| Traverse.HelperForKind | pkg/generator/crd/traverse.go:121 | the capitalized kind name is the name of the pointer helper of that same kind, for every scalar kind |
| Traverse.ScalarRendering | pkg/generator/crd/traverse.go:129-140 | a builtin scalar renders as its bare literal and a custom-typed one as `Named(lit)`, whatever omitType says |
| Traverse.PointerToScalarRendering | pkg/generator/crd/traverse.go:114-127 | a pointer to a scalar renders as the kind's pointer helper applied to the literal, and is cast to `(*Named)` when the type is custom |
| Traverse.PointerRendering | pkg/generator/crd/traverse.go:75-86 | a pointer to a struct renders the struct with ptrResult set; any other pointee renders as `&` before the pointee rendered with its type |
| Traverse.OmitTypeOverridesPtrResult | pkg/generator/crd/traverse.go:196-214 | with omitType neither the type nor `&` is written, whatever ptrResult says; without it the prefix is `&T` or `T` |
| Traverse.IncludedMembers | pkg/generator/crd/traverse.go:216-230 | the members a struct literal may list are exactly the included members (exported, not anonymous-struct typed, non-zero) |
| Traverse.FieldEntriesAreIncluded | pkg/generator/crd/traverse.go:216-230 | the struct literal lists exactly the included members, in declaration order, each rendered with its type |
| Traverse.AllZeroStructIsEmpty | pkg/generator/crd/traverse.go:225-228 | a struct whose fields are all zero renders as an empty literal |
| Traverse.RenderStructFields | pkg/generator/crd/traverse.go:216-230 | the field loop builds the dictionary the specification function `FieldEntriesFrom` describes |
| Traverse.FieldEntry | pkg/generator/crd/traverse.go:218-228 | one pass of the field loop: a skipped or zero field adds nothing, any other field adds its rendered entry |
| Traverse.RenderList | pkg/generator/crd/traverse.go:44-52 | the element loop yields the slice or array literal that `GenerateValue` describes |
| Traverse.RenderMap | pkg/generator/crd/traverse.go:53-61 | the map loop yields the dictionary literal that `GenerateValue` describes, in iteration order |
| Traverse.ListAndMapRendering | pkg/generator/crd/traverse.go:44-61 | one item per element, without its type; a list ends with a line break iff non-empty; map keys keep their type and values omit it; the prefix is the type unless omitType |
| Traverse.OpaqueFallback | pkg/generator/crd/traverse.go:189-194 | a struct with an unexported field becomes the JSON closure returning `obj` or `&obj` iff its type has the JSON codec, else falls back to the field literal |
| Traverse.ChanAndFuncAbsent | pkg/generator/crd/traverse.go:64-67 | channels and functions render as nothing |
| TraverseEval.ZeroIff | pkg/generator/crd/traverse.go:225 | for a well-typed value, reflect's IsZero holds iff the value equals its type's zero value |
| TraverseEval.GenerateTypeWrites | pkg/generator/crd/traverse.go:89-112 | generateType spells the type exactly when it contains no anonymous struct and no function type |
| TraverseEval.StructTypeExprWrites | pkg/generator/crd/traverse.go:196-206 | the struct type before a literal, named or written field by field, spells the struct's own type |
| TraverseEval.ReconstructibleRenderable | pkg/generator/crd/traverse.go:70-87 | every value the round trip covers can be rendered: no nil pointer is dereferenced |
| TraverseEval.IncludedNamesDistinct | pkg/generator/crd/traverse.go:216-230 | distinct field names stay distinct among the listed fields |
| TraverseEval.FieldEntriesNames | pkg/generator/crd/traverse.go:216-230 | the struct literal's keys are names of included fields, without repeats |
| TraverseEval.FieldEntriesLookup | pkg/generator/crd/traverse.go:216-230 | looking up an included field's name in the literal finds that field's entry; an omitted field's name is not found |
| TraverseEval.FieldEntriesOk | pkg/generator/crd/traverse.go:216-230 | the literal's keys are exported fields of the struct, each at most once: it is a valid Go keyed literal |
| TraverseEval.RoundTrip | pkg/generator/crd/traverse.go:29-68 | evaluating the expression generateValue emits for a value rebuilds that value, for every well-typed value the generator can rebuild |
| TraverseEval.RoundTripList | pkg/generator/crd/traverse.go:44-52 | a slice or array literal evaluates back to the slice or array |
| TraverseEval.RoundTripMap | pkg/generator/crd/traverse.go:53-61 | a map literal evaluates back to the map's entries |
| TraverseEval.RoundTripPointer | pkg/generator/crd/traverse.go:70-87 | every pointer form (helper call, `&T{}` literal, `&` of a composite) evaluates back to the pointer and its target |
| TraverseEval.RoundTripScalarPointer | pkg/generator/crd/traverse.go:114-127 | the pointer helper call, cast for a custom type, evaluates to a pointer to the scalar |
| TraverseEval.RoundTripStruct | pkg/generator/crd/traverse.go:184-231 | a struct rendering, as a value or behind `&`, evaluates back to the struct or a pointer to it |
| TraverseEval.RoundTripOpaque | pkg/generator/crd/traverse.go:233-269 | the JSON closure evaluates to the struct itself, or to a pointer to it; this holds by `Eval`'s definition, which takes the codec's round trip as given |
| TraverseEval.SkippedFieldLost | pkg/generator/crd/traverse.go:189-230 | a struct taking the field-literal path with a non-zero member the loop skips (unexported, or of anonymous struct type) does not evaluate back to itself |
| TraverseEval.SkippedFieldExample | pkg/generator/crd/traverse.go:189-222 | a named struct with an unexported field set to 5 and no JSON codec is rendered as a field literal that loses the field |
| TraverseEval.RoundTripLiteral | pkg/generator/crd/traverse.go:196-231 | a struct literal with its prefix evaluates back to the struct, or to a pointer under ptrResult |
| TraverseEval.RoundTripFields | pkg/generator/crd/traverse.go:216-230 | the keyed fields of the literal, with omitted fields at zero, rebuild every member of the struct |
| TraverseEval.MemberRoundTrip | pkg/generator/crd/traverse.go:225-228 | each member is either listed and evaluates back to its value, or omitted and is the zero value of its type |
| CrdGenerator.StampWithoutPlaceholder | pkg/generator/crd/generator.go:85 | a header without ` YEAR` is left as it is |
| CrdGenerator.StampFirstPlaceholder | pkg/generator/crd/generator.go:85 | the leftmost ` YEAR` becomes a space and the year, and stamping goes on after it |
| CrdGenerator.StampExample | pkg/generator/crd/generator.go:85 | `Copyright YEAR.` with year 2022 becomes `Copyright 2022.` |
| CrdGenerator.StampLeadingPlaceholder | pkg/generator/crd/generator.go:85 | `YEAR` with no space before it is not replaced |
| CrdGenerator.Protected | pkg/generator/crd/generator.go:121-130 | protection never changes a CRD's group |
| CrdGenerator.ProtectedAnnotations | pkg/generator/crd/generator.go:124-128 | a CRD of a `.k8s.io` or `.kubernetes.io` group gets exactly one annotation, the approval link; any other CRD is unchanged |
| CrdGenerator.ProtectedIdempotent | pkg/generator/crd/generator.go:121-130 | protecting twice is protecting once |
| CrdGenerator.ProtectedGroupExamples | pkg/generator/crd/generator.go:124 | subdomains of k8s.io and kubernetes.io are protected; the bare domains and other groups are not |
| CrdGenerator.ProtectAll | pkg/generator/crd/generator.go:121-130 | every CRD in the parser is replaced by its protected form, and the keys and the package map stay as they were |
| CrdGenerator.RemoveDots | pkg/generator/crd/generator.go:146 | the result has no `.` and is no longer than the input |
| CrdGenerator.ImportAlias | pkg/generator/crd/generator.go:235-236 | an alias has no `.` and is at most the group directory plus the version in length |
| CrdGenerator.PackageShape | pkg/generator/crd/generator.go:143-146 | for `prefix/group/version` the directory is the group, the base is the version, and the alias is both without dots |
| CrdGenerator.UndottedNaming | pkg/generator/crd/generator.go:272-273 | for a group and version without dots the alias is simply group then version |
| CrdGenerator.NamingExamples | pkg/generator/crd/generator.go:143-146 | `k8s.io/api/apps/v1` lives in directory `apps` and is aliased `appsv1` |
| CrdGenerator.DottedNamingExamples | pkg/generator/crd/generator.go:144-146 | directory `a.b.c` gives package name `abc` |
| CrdGenerator.FallbackNamingExample | pkg/generator/crd/generator.go:150-154 | group `apps.example.com` with no package falls back to `apps` |
| CrdGenerator.PackageNaming | pkg/generator/crd/generator.go:137-154 | exactly the two outcomes the loop allows: the directory of some package serving the group with its dots removed, when that is non-empty; or the group's first segment for both, and then only when no package serves the group or some serving package's name comes out empty |
| CrdGenerator.ServedNaming | pkg/generator/crd/generator.go:139-148 | when the group is served and every serving package gives a non-empty name, the names come from a serving package, never from the group |
| CrdGenerator.ServedNamingExample | pkg/generator/crd/generator.go:139-148 | group `a.b.c` served by `k8s.io/api/xyz/v1` lives in directory and package `xyz` |
| CrdGenerator.Register | pkg/generator/crd/generator.go:232-240 | the registrations are sorted by package, each carries its package's alias, and they are the input packages as a multiset |
| CrdGenerator.AliasAll | pkg/generator/crd/generator.go:233-237 | one registration per sorted package, in order, each with the alias function applied |
| CrdGenerator.AliasedBy | pkg/generator/crd/generator.go:233-237 | the registrations list exactly the given packages in order, each with its alias |
| CrdGenerator.CollectScheme | pkg/generator/crd/generator.go:226-231 | the scheme install collects every loaded package except metav1, each once |
| CrdGenerator.CollectGroup | pkg/generator/crd/generator.go:263-268 | the group install collects exactly the packages serving the group, each once |
| CrdGenerator.GenerateScheme | pkg/generator/crd/generator.go:218-253 | `install/zz.generated.scheme.go` in package install, with the header, registering every package but metav1 in sorted order with aliases |
| CrdGenerator.GenerateGroupInstall | pkg/generator/crd/generator.go:255-291 | `<dir>/install/zz.generated.install.go`, registering exactly the group's packages in sorted order with aliases |
| CrdGenerator.RegistrationsDetermined | pkg/generator/crd/generator.go:232 | sorting removes the map order: two well-formed registration lists of the same packages are equal |
| CrdGenerator.ConstructorName | pkg/generator/crd/generator.go:306 | the constructor is `New...CRD`, six characters longer than the kind |
| CrdGenerator.ConstructorNamesDistinct | pkg/generator/crd/generator.go:306 | kinds that differ after capitalization get different constructors |
| CrdGenerator.Constructors | pkg/generator/crd/generator.go:297-311 | one constructor per CRD of the group, as a multiset, each named after its kind, and the aggregator calls each once in the same order |
| CrdGenerator.GenerateGroup | pkg/generator/crd/generator.go:293-329 | `<dir>/zz.generated.crd.go` in the group's package, with the header, a constructor per CRD of the group and the aggregator calling all of them |
| CrdGenerator.GroupsOfKinds | pkg/generator/crd/generator.go:112-117 | the groups list is the group of each kind, in some enumeration that lists every kind exactly once |
| CrdGenerator.GroupRepeatsPerKind | pkg/generator/crd/generator.go:112-117 | in such a list each group appears exactly as often as there are kinds of that group |
| CrdGenerator.GroupFiles | pkg/generator/crd/generator.go:137-166 | for one group, under a directory and package name that the package naming allows: first `<dir>/install/zz.generated.install.go` registering exactly the group's packages, sorted and aliased, when install files are asked for; last `<dir>/zz.generated.crd.go` in that package, with one constructor per CRD of the group, when CRD files are asked for |
| CrdGenerator.GenerateGroups | pkg/generator/crd/generator.go:137-167 | `PerGroup` files per entry of the groups list, in list order: entry `i` owns the files from `i * PerGroup` to `(i + 1) * PerGroup`, and these are that group's files as `GroupFiles` states them |
| CrdGenerator.AppendGroupFiles | pkg/generator/crd/generator.go:137-167 | one group's files appended after a list's files are the files of the list with that group appended |
| CrdGenerator.Generate | pkg/generator/crd/generator.go:75-176 | fails iff the header file cannot be read; writes nothing without metav1 or kinds; otherwise protects every CRD, writes, for a groups list holding each kind's group exactly once per kind, each entry's install and CRD files (paths, package, registrations and constructors as `GroupFiles` states), and, last, the scheme install |
| CrdGenerator.FilterTypesForCrds | pkg/generator/crd/generator.go:184-199 | interfaces are dropped, fields are kept iff their tag has a `json` key, everything else is kept |
| Codegen.CanonicalDistinct | pkg/codegen/generator.go:47-59 | the canonical generator list has no repeats |
| Codegen.NameOf | pkg/codegen/generator.go:772-777 | a signed option is its sign followed by the name; a bare option is the name |
| Codegen.NamedMembers | pkg/codegen/generator.go:768-779 | a name is in the set of one sign iff some non-empty option of that sign names it |
| Codegen.EnabledGenerators | pkg/codegen/generator.go:753-793 | the four set loops and the closing loop compute `EnabledSpec`: the target set filtered through the canonical list |
| Codegen.CollectDisabled | pkg/codegen/generator.go:759-762 | the disabled set is the default-disabled names |
| Codegen.CollectAll | pkg/codegen/generator.go:763-766 | the all set is the default-enabled names plus, when there is one, the disabled set it absorbs |
| Codegen.CollectOptions | pkg/codegen/generator.go:768-779 | `-name` joins the disabled set, `+name` the enabled set, a bare name the target; empty options are skipped |
| Codegen.InCanonicalOrder | pkg/codegen/generator.go:786-792 | the output keeps exactly the target's canonical names, in canonical order |
| Codegen.AllMinusDisabled | pkg/codegen/generator.go:781-784 | absorbing the disabled set into the all set changes nothing: all minus disabled is the enabled defaults minus every disabled name |
| Codegen.EnabledMembers | pkg/codegen/generator.go:786-792 | a generator is listed iff it is valid and in the target set |
| Codegen.EnabledMember | pkg/codegen/generator.go:786-792 | the same for one generator |
| Codegen.EnabledIsCanonicalSubsequence | pkg/codegen/generator.go:786-792 | the output has only valid names, in canonical order, without repeats |
| Codegen.BareOptionsOverride | pkg/codegen/generator.go:776-784 | with any bare option the defaults and signed options play no part: exactly the valid bare names run |
| Codegen.BareMembership | pkg/codegen/generator.go:776-784 | with bare options a generator runs iff it is valid and given bare |
| Codegen.BareNamed | pkg/codegen/generator.go:776-777 | the bare set is exactly the non-empty options without a sign |
| Codegen.PlusWins | pkg/codegen/generator.go:772-784 | without bare options, `+name` runs a valid generator even against `-name` or the defaults |
| Codegen.MinusRemoves | pkg/codegen/generator.go:772-784 | without bare options, `-name` and no `+name` stop a generator even when enabled by default |
| Codegen.DefaultsDecide | pkg/codegen/generator.go:759-784 | with only empty options a generator runs iff it is valid, enabled by default and not disabled by default |
| Codegen.EmptyOptionIgnored | pkg/codegen/generator.go:769-771 | an empty option anywhere changes nothing |
| Codegen.DefaultsOrderInsensitive | pkg/codegen/generator.go:759-766 | only the sets of default names matter, not their order or repeats |
| Codegen.DefaultSelection | pkg/cli/codegen.go:35-49 | with the command line's defaults and no options, exactly deepcopy, defaulter, conversion, register and install run, in that order |
| Codegen.SignedSelection | pkg/codegen/generator.go:781-792 | `+crd -register` over the defaults runs deepcopy, defaulter, conversion, install and crd |
| Codegen.SignedTarget | pkg/codegen/generator.go:781-784 | the target of `+crd -register` over the defaults is exactly those five names |
| Codegen.BareSelection | pkg/codegen/generator.go:776-784 | `lister +openapi` runs the lister only |
| Codegen.CollectValid | pkg/codegen/generator.go:120-131 | the filtering loop keeps exactly the valid names given |
| Codegen.CodeGenerator.constructor | pkg/codegen/generator.go:88-135 | the stored generator lists hold the valid given names, each once; the output base is `<workspace>/__output/generated` |
| Codegen.RunnerTool | pkg/codegen/generator.go:255-266 | crd and install get no runner tool; protobuf runs `go-to-protobuf`; every other generator `g` runs `g-gen` |
| Codegen.RunnerToolsDistinct | pkg/codegen/generator.go:255-266 | different valid generators never share a runner tool |
| Codegen.DoGen | pkg/codegen/generator.go:220-253 | an invalid name is skipped; a valid one runs with its runner tool |
| Codegen.CodeGenerator.DoGenerate | pkg/codegen/generator.go:186-202 | one run per selected generator, in selected order, none skipped |
| Codegen.LocalPathsConcat | pkg/codegen/generator.go:401-410 | the local paths of joined package lists are the joined local paths: input order is kept |
| Codegen.LocalPathsMembers | pkg/codegen/generator.go:401-410 | every local path is the workspace joined with the remainder of a package of the module, and every such package gives one |
| Codegen.LocalPathsPrefixByCharacters | pkg/codegen/generator.go:404-406 | the module test is a character prefix: `example.com/ab/x` counts as local to module `example.com/a` |
| Codegen.CodeGenerator.GetLocalInputPackagePaths | pkg/codegen/generator.go:401-410 | the loop computes `LocalPaths` of the input packages |
| Codegen.CodeGenerator.AppendArgs | pkg/codegen/generator.go:652-657 | the arguments are kept; `--v` and the verbosity in decimal are appended iff the verbosity is positive |
| Codegen.ProtoSafeOutermostPackage | pkg/codegen/generator.go:746-751 | the result starts with `.` |
| Codegen.ProtoSafeShape | pkg/codegen/generator.go:746-751 | one character longer than the input; each `/` is `.` and each `-` is `_`, position by position; no `/` or `-` remains |
| Codegen.ExpansionFileIff | pkg/codegen/generator.go:668-680 | a name is copied iff it is `<stem>_expansion.go` for a stem other than `generated` |
| Codegen.ExpansionFileHasStem | pkg/codegen/generator.go:668-680 | every copied name is a stem other than `generated` followed by `_expansion.go` |
| Codegen.StemMakesExpansionFile | pkg/codegen/generator.go:668-680 | every stem other than `generated` gives a copied name |
| Codegen.ExpansionExclusions | pkg/codegen/generator.go:671-676 | `generated_expansion.go` ends in `_expansion.go`, so only its exclusion keeps it out; `expansion_generated.go` would be excluded anyway |
| CliOptions.Decompose | pkg/cli/options.go:35 | `v` digits suffix is a version iff the digits are a canonical numeral and the suffix is empty or alpha/beta with a canonical numeral |
| CliOptions.VersionTextAccepted | pkg/cli/options.go:35 | every written version is accepted |
| CliOptions.ParseVersionRoundTrip | pkg/cli/options.go:35 | every accepted text is the writing of the version parsed from it |
| CliOptions.VersionRoundTrip | pkg/cli/options.go:35 | writing a version and parsing it back gives the same version |
| CliOptions.ParseLevelRoundTrip | pkg/cli/options.go:35 | every accepted stability suffix is the writing of the level parsed from it |
| CliOptions.LevelRoundTrip | pkg/cli/options.go:35 | writing a stability level and parsing it back gives the same level |
| CliOptions.AcceptedPlain | pkg/cli/options.go:35 | `v0` and `v1` are versions |
| CliOptions.AcceptedLevels | pkg/cli/options.go:35 | `v1alpha1` and `v2beta0` are versions |
| CliOptions.AcceptedLongMajor | pkg/cli/options.go:35 | `v10beta3` is a version |
| CliOptions.RejectedLeadingZero | pkg/cli/options.go:35 | `v01` is not a version |
| CliOptions.RejectedAlpha | pkg/cli/options.go:35 | `v1alpha` is not a version |
| CliOptions.RejectedBeta | pkg/cli/options.go:35 | `v1beta` is not a version |
| CliOptions.RejectedGamma | pkg/cli/options.go:35 | `v1gamma1` is not a version |
| CliOptions.RejectedLevelLeadingZero | pkg/cli/options.go:35 | `v1alpha01` is not a version |
| CliOptions.RejectedShapes | pkg/cli/options.go:35 | `1`, `v` and `vbeta1` are not versions |
| CliOptions.Lookup | pkg/cli/options.go:198 | finding `root/name` returns an entry of that name, and fails iff there is none |
| CliOptions.GoFileExists | pkg/cli/options.go:217-236 | the walk reports a Go file iff the directory directly holds a file ending in `.go` |
| CliOptions.SubdirectoriesIgnored | pkg/cli/options.go:226-228 | adding a subdirectory never changes the answer: it is skipped |
| CliOptions.GoFileExistsExamples | pkg/cli/options_test.go:24-43 | in the test tree `apps` and `apps/v2` hold Go files and `apps/v1` does not |
| CliOptions.ScanVersions | pkg/cli/options.go:177-188 | the versions found under a group are its version-named directories as `group/version`, in walk order |
| CliOptions.VersionsComplete | pkg/cli/options.go:177-187 | every version-named directory of a group is reported |
| CliOptions.VersionsSound | pkg/cli/options.go:177-187 | every reported entry is a version-named directory of the group |
| CliOptions.GroupVersionsComplete | pkg/cli/options.go:174-188 | every version directory two levels under the root is reported |
| CliOptions.GroupVersionsSound | pkg/cli/options.go:174-188 | only directories exactly two levels down with a version name are reported |
| CliOptions.GroupsAreVersionedDirs | pkg/cli/options.go:183-187 | the groups recorded are exactly those with a version directory |
| CliOptions.GroupsHaveEntries | pkg/cli/options.go:196-199 | every recorded group has a directory under the root |
| CliOptions.InternalOf | pkg/cli/options.go:195-209 | the internal groups are exactly the recorded groups whose own directory holds a Go file, each once |
| CliOptions.FindGroupVersion | pkg/cli/options.go:163-215 | fails iff the root is missing; otherwise the version paths two levels down and the internal groups |
| CliOptions.FileThenTwoVersions | pkg/cli/options.go:174-176 | files among a group's entries are not reported; two version directories are, in order |
| CliOptions.AppsVersions | pkg/cli/options_test.go:45-57 | the test tree's `apps` group has versions `apps/v1` and `apps/v2` |
| CliOptions.FindGroupVersionExample | pkg/cli/options_test.go:45-57 | on the test tree the walk finds `apps/v1` and `apps/v2`, and `apps` is internal |
| CliOptions.SelectedMembers | pkg/cli/options.go:134-159 | a group version is selected iff it was found and, when any are requested, it is requested |
| CliOptions.NothingSelected | pkg/cli/options.go:134-159 | nothing is selected iff nothing was found, or none of the requested entries was found |
| CliOptions.GenOptions.JoinAll | pkg/cli/options.go:135-140 | each found entry becomes `<apis-module>/<apis-path>/<entry>`, in order |
| CliOptions.GenOptions.JoinRequested | pkg/cli/options.go:147-158 | only requested entries that were found become packages, in request order |
| CliOptions.GenOptions.InputAPIPackages | pkg/cli/options.go:114-160 | fails iff the APIs root cannot be located or read; otherwise the packages and internal packages the selection rules give |
| CliOptions.GenOptions.ResolveModule | pkg/cli/options.go:74-86 | a missing module comes from go.mod, or Complete fails with the go.mod message and changes nothing; an empty APIs module defaults to the module |
| CliOptions.GenOptions.RecordSelection | pkg/cli/options.go:88-96 | the selected packages are stored, or the previous ones are kept with the error |
| CliOptions.GenOptions.Complete | pkg/cli/options.go:71-97 | the module and APIs-module defaults, then the input packages of the APIs tree; each error leaves the state the source leaves |
| CliOptions.GenOptions.Validate | pkg/cli/options.go:99-112 | fails on an empty module, then an empty header path, then no input packages, with those messages in that order; otherwise succeeds |
| GoSort.SortStrings | pkg/generator/crd/generator.go:232 | the result is sorted and a permutation of the input |
| GoSort.SortedUnique | pkg/generator/crd/generator.go:269 | two sorted permutations of the same packages are equal, so the map order does not reach the output |
| GoSet.ToStrings | pkg/codegen/generator.go:132-133 | the listed names are the set's, each once |
| GoPath.DirBase | pkg/generator/crd/generator.go:145-146 | for a clean directory and a clean element, `path.Dir` and `path.Base` split `dir/elem` back into the two |
| GoStrings.TrimSpace | pkg/cli/options.go:124 | the result has no space at either end and is the input with only spaces removed around it |
| GoStrings.DecimalRoundTrip | pkg/codegen/generator.go:654 | the decimal writing of a number is canonical and reads back as that number |
| GoStrings.ReplaceAllLeftmost | pkg/generator/crd/generator.go:85 | replacement starts at the leftmost occurrence and goes on after the replaced text |

## Left out

- JSON serialisation in the opaque closure (`pkg/generator/crd/traverse.go:251`). The closure carries the value itself, and its marshaling error is ignored just as in the code.
- Literal text. Scalars are a kind plus a value, so the exact spelling `jen` prints is not modelled. Float formatting is left out too, and the narrowing conversions of generateBuiltinLiteralValue are taken to keep the value, as they do for a value of its own kind.
- jennifer's printing is not modelled: statement layout, comments, the import aliasing machinery and the order in which `Dict` entries are printed. The model stops at the expression tree.
- `reflect` is not modelled; values carry their own types. `IsCustomType`, `IsAnonymousStruct`, `HasUnexportedField` and the JSON codec test are fields of the value. Embedded fields are not modelled separately.
- TraverseEval.RoundTrip: it does not cover nil pointers (the generator panics on them), nil slices and maps (they come back empty), channels and functions (nothing is emitted), pointers to pointers, or literals whose type needs an anonymous struct or a function type to be spelled out. Nor does it cover non-zero unexported fields of structs without the JSON codec, or non-zero fields of anonymous struct type: the field loop skips them and their values are lost (`TraverseEval.SkippedFieldLost`). Nor does it cover anonymous structs that take the JSON closure, whose type the closure cannot name.
- The controller-tools parser: `FindMetav1`, `FindKubeKinds`, `NeedCRDFor`, `MaxDescLen` and `AllowDangerousTypes`. Their results are inputs to `Generate`.
- `loader.NonVendorPath` and struct tag parsing. Package paths are taken as already non-vendored, and a field carries the keys of its parsed tag.
- File I/O: reading the header file, `ctx.Open`, `Render` and `Close`, and `postRun`/`copyFiles`. Generated files are values; the header read is a `Result` input.
- Subprocesses: `go list`, `go mod edit` (`FindGoModulePath`), `go install` of the tools, and the `gen*` runners. The model does not run them: `go list` and `go mod edit` output become plain inputs (the package list, the module path), and a runner's work is reduced to the step that names its tool. Their failures are not modelled (see `Codegen.CodeGenerator.DoGenerate` below).
- Codegen.CodeGenerator.DoGenerate: its steps assume every generator succeeds. In the code, a failing tool install in `prepareRunner` (`pkg/codegen/generator.go:224-227`) or a failing runner ends the loop at the first error (`pkg/codegen/generator.go:196-199`), so later generators never run; the model does not capture that early exit.
- The version probe in `Run` and the clean-up of the output directory.
- The filesystem's error texts and the corner cases of walking a root that is a file or a symlink. A missing root is the one error modelled.
- The CLI wiring in `pkg/cli/codegen.go`, `pkg/cli/clientgen.go` and `cmd/`. The default generator lists of `pkg/cli/codegen.go:35-49` are used as a test case.
- `goset`'s iteration order. Sets are listed in an unspecified order and contracts speak of their elements.
- Logging.
- Named composite types and interfaces. The `Type` datatype has no defined slice, map, array or pointer types, and no interface kind. generateType spells a named composite structurally (`pkg/generator/crd/traverse.go:93-98`), so a pointer to a named slice or map renders as `&[]T{...}`, which Go does not accept as a `*Named`; and a value of interface kind reaches `return nil` (`pkg/generator/crd/traverse.go:41-67`), so a struct field holding one is silently dropped. The model captures neither.
