/**
 * The value-to-source compiler of the CRD generator: a typed Go value is
 * walked recursively and turned into a Go expression that rebuilds it.
 *
 * Values are modelled as a closed datatype carrying their own types (what
 * `reflect` reports), and the emitted code as a small expression tree (what
 * the `jen` statements print). The module first states the generator, then
 * a reference meaning of the emitted expressions (`Eval`), and proves that
 * evaluating the emitted expression gives the value back.
 */
module Traverse {
  import opened Wrappers

  // ---------------------------------------------------------------------
  // Types and values
  // ---------------------------------------------------------------------

  /** The kinds `reflection.IsLiteralType` accepts. */
  datatype ScalarKind =
    | Bool | Int | Int8 | Int16 | Int32 | Int64
    | Uint | Uint8 | Uint16 | Uint32 | Uint64 | Uintptr
    | Float32 | Float64 | String

  /** reflect.Kind.String() */
  function KindName(k: ScalarKind): string {
    match k
    case Bool => "bool"
    case Int => "int"
    case Int8 => "int8"
    case Int16 => "int16"
    case Int32 => "int32"
    case Int64 => "int64"
    case Uint => "uint"
    case Uint8 => "uint8"
    case Uint16 => "uint16"
    case Uint32 => "uint32"
    case Uint64 => "uint64"
    case Uintptr => "uintptr"
    case Float32 => "float32"
    case Float64 => "float64"
    case String => "string"
  }

  /** A defined type's package path and name (reflect's PkgPath and Name). */
  datatype TypeName = TypeName(pkgPath: string, name: string)

  /**
   * A Go type. `named` is the defined name of a custom scalar type; a struct
   * without a name is an anonymous struct. `jsonCodec` records whether the
   * struct type or its pointer type implements both json.Marshaler and
   * json.Unmarshaler.
   */
  datatype Type =
    | TScalar(kind: ScalarKind, named: Option<TypeName>)
    | TPtr(elem: Type)
    | TSlice(elem: Type)
    | TArray(len: nat, elem: Type)
    | TMap(key: Type, elem: Type)
    | TStruct(name: Option<TypeName>, fields: seq<Field>, jsonCodec: bool)
    | TChan(elem: Type)
    | TFunc

  datatype Field = Field(name: string, exported: bool, ty: Type)

  /** The payload of a scalar; integers of every width are mathematical integers here. */
  datatype Lit = BoolLit(b: bool) | IntLit(i: int) | FloatLit(f: real) | StringLit(s: string)

  /**
   * A Go value. A pointer holds its target (None for nil); a slice or map
   * records whether it is nil; the entries of a map are listed in the order
   * this run's map iteration visits them.
   */
  datatype Value =
    | Scalar(kind: ScalarKind, named: Option<TypeName>, lit: Lit)
    | Pointer(elemType: Type, target: Option<Value>)
    | Slice(elemType: Type, isNil: bool, elems: seq<Value>)
    | Array(elemType: Type, elems: seq<Value>)
    | Map(keyType: Type, elemType: Type, isNil: bool, entries: seq<Entry>)
    | Struct(name: Option<TypeName>, jsonCodec: bool, members: seq<Member>)
    | Chan(elemType: Type, isNil: bool)
    | Func(isNil: bool)

  datatype Entry = Entry(key: Value, val: Value)

  datatype Member = Member(field: Field, value: Value)

  function FieldsOf(ms: seq<Member>): (fs: seq<Field>)
    ensures |fs| == |ms| && forall i :: 0 <= i < |ms| ==> fs[i] == ms[i].field
  {
    seq(|ms|, i requires 0 <= i < |ms| => ms[i].field)
  }

  /** reflect.Value.Type() */
  function TypeOf(v: Value): Type {
    match v
    case Scalar(k, n, _) => TScalar(k, n)
    case Pointer(et, _) => TPtr(et)
    case Slice(et, _, _) => TSlice(et)
    case Array(et, elems) => TArray(|elems|, et)
    case Map(kt, et, _, _) => TMap(kt, et)
    case Struct(n, codec, ms) => TStruct(n, FieldsOf(ms), codec)
    case Chan(et, _) => TChan(et)
    case Func(_) => TFunc
  }

  predicate IsZeroLit(l: Lit) {
    l == BoolLit(false) || l == IntLit(0) || l == FloatLit(0.0) || l == StringLit("")
  }

  /** reflect.Value.IsZero */
  predicate IsZero(v: Value) {
    match v
    case Scalar(_, _, lit) => IsZeroLit(lit)
    case Pointer(_, target) => target.None?
    case Slice(_, isNil, _) => isNil
    case Array(_, elems) => forall i :: 0 <= i < |elems| ==> IsZero(elems[i])
    case Map(_, _, isNil, _) => isNil
    case Struct(_, _, ms) => forall i :: 0 <= i < |ms| ==> IsZero(ms[i].value)
    case Chan(_, isNil) => isNil
    case Func(isNil) => isNil
  }

  /** reflection.IsAnonymousStruct */
  predicate IsAnonymousStruct(t: Type) {
    t.TStruct? && t.name.None?
  }

  /** reflection.HasUnexportedField, over the struct's own fields. */
  predicate HasUnexportedField(v: Value) {
    v.Struct? && exists i :: 0 <= i < |v.members| && !v.members[i].field.exported
  }

  /** A struct that takes the JSON round-trip path of generateStructWithUnexportedField. */
  predicate Opaque(v: Value) {
    HasUnexportedField(v) && v.jsonCodec
  }

  /** The field filter of the struct loop: exported, not anonymous-struct-typed, non-zero. */
  predicate Included(m: Member) {
    m.field.exported && !IsAnonymousStruct(m.field.ty) && !IsZero(m.value)
  }

  /**
   * The generator dereferences every pointer it renders, so a nil pointer in
   * a rendered position makes it panic. Struct fields are rendered only when
   * included, and an opaque struct is not walked at all.
   */
  predicate Renderable(v: Value) {
    match v
    case Scalar(_, _, _) => true
    case Pointer(_, target) => target.Some? && Renderable(target.value)
    case Slice(_, _, elems) => forall i :: 0 <= i < |elems| ==> Renderable(elems[i])
    case Array(_, elems) => forall i :: 0 <= i < |elems| ==> Renderable(elems[i])
    case Map(_, _, _, es) => forall i :: 0 <= i < |es| ==> Renderable(es[i].key) && Renderable(es[i].val)
    case Struct(_, _, ms) =>
      Opaque(v) || forall i :: 0 <= i < |ms| ==> Included(ms[i]) ==> Renderable(ms[i].value)
    case Chan(_, _) => true
    case Func(_) => true
  }

  // ---------------------------------------------------------------------
  // Emitted code
  // ---------------------------------------------------------------------

  /** A Go type expression as jen prints it; NoType is the nil statement. */
  datatype TypeExpr =
    | Ident(id: string)
    | Qual(tn: TypeName)
    | PtrTo(elem: TypeExpr)
    | SliceOf(elem: TypeExpr)
    | ArrayOf(len: nat, elem: TypeExpr)
    | MapOf(key: TypeExpr, elem: TypeExpr)
    | ChanOf(elem: TypeExpr)
    | StructOf(decls: seq<FieldDecl>)
    | NoType

  datatype FieldDecl = FieldDecl(name: string, ty: TypeExpr)

  /** What stands before the braces of a composite literal: nothing, `T`, or `&T`. */
  datatype Prefix = Untyped | TypeOnly(te: TypeExpr) | AddressOf(te: TypeExpr)

  /**
   * An emitted Go expression. `Absent` is the nil statement. A list literal
   * puts a line break before every element and, when `trailingBreak`, one
   * before the closing brace. `ImmediateCall` is
   * `func() [*]T { jsonStr := ...; var obj T; json.Unmarshal(...); return [&]obj }()`
   * whose JSON string is the encoding of `payload`.
   */
  datatype Expr =
    | Absent
    | Literal(kind: ScalarKind, lit: Lit)
    | Conversion(to: TypeName, arg: Expr)
    | PointerHelper(helper: string, arg: Expr)
    | PointerConversion(to: TypeName, arg: Expr)
    | Address(operand: Expr)
    | ListLit(prefix: Prefix, items: seq<Expr>, trailingBreak: bool)
    | DictLit(prefix: Prefix, entries: seq<KeyedItem>)
    | StructLit(prefix: Prefix, fields: seq<FieldItem>)
    | ImmediateCall(returnsPtr: bool, ty: TypeName, payload: Value)

  datatype KeyedItem = KeyedItem(key: Expr, value: Expr)

  datatype FieldItem = FieldItem(name: string, value: Expr)

  /** The import path of the package of pointer helpers (pointer.Int, pointer.String, ...). */
  const PointerPackage := "github.com/zoumo/golib/pointer"

  // ---------------------------------------------------------------------
  // Capitalize
  // ---------------------------------------------------------------------

  function Upper(c: char): char {
    if 'a' <= c <= 'z' then (c as int - 32) as char else c
  }

  /** What Capitalize returns: the first rune upper-cased when it is in a..z, the rest unchanged. */
  function Capitalized(s: string): string {
    if |s| == 0 then "" else [Upper(s[0])] + s[1..]
  }

  /** Capitalize: copies the string into a rune array and shifts the first rune. */
  method Capitalize(s: string) returns (r: string)
    ensures r == Capitalized(s)
  {
    if |s| < 1 {
      return "";
    }
    var runes := new char[|s|](i requires 0 <= i < |s| => s[i]);
    if runes[0] >= 'a' && runes[0] <= 'z' {
      runes[0] := (runes[0] as int - 32) as char;
    }
    r := runes[..];
    assert r[1..] == s[1..];
  }

  lemma CapitalizedShape(s: string)
    ensures |Capitalized(s)| == |s|
    ensures s == "" ==> Capitalized(s) == ""
    ensures forall i :: 0 < i < |s| ==> Capitalized(s)[i] == s[i]
    ensures |s| > 0 && 'a' <= s[0] <= 'z' ==> Capitalized(s)[0] as int == s[0] as int - 32
    ensures |s| > 0 && !('a' <= s[0] <= 'z') ==> Capitalized(s)[0] == s[0]
  {
  }

  lemma CapitalizedIdempotent(s: string)
    ensures Capitalized(Capitalized(s)) == Capitalized(s)
  {
    if |s| > 0 {
      assert Capitalized(s)[1..] == s[1..];
    }
  }

  /** The helpers of the pointer package, by name: each takes a value of its kind and returns a pointer to a copy. */
  function HelperKind(h: string): Option<ScalarKind> {
    if h == "Bool" then Some(Bool)
    else if h == "Int" then Some(Int)
    else if h == "Int8" then Some(Int8)
    else if h == "Int16" then Some(Int16)
    else if h == "Int32" then Some(Int32)
    else if h == "Int64" then Some(Int64)
    else if h == "Uint" then Some(Uint)
    else if h == "Uint8" then Some(Uint8)
    else if h == "Uint16" then Some(Uint16)
    else if h == "Uint32" then Some(Uint32)
    else if h == "Uint64" then Some(Uint64)
    else if h == "Uintptr" then Some(Uintptr)
    else if h == "Float32" then Some(Float32)
    else if h == "Float64" then Some(Float64)
    else if h == "String" then Some(String)
    else None
  }

  /** Capitalizing a kind's name gives the name of the pointer helper for that kind. */
  lemma HelperForKind(k: ScalarKind)
    ensures HelperKind(Capitalized(KindName(k))) == Some(k)
  {
    if k.Bool? || k.Int? || k.Int8? || k.Int16? || k.Int32? || k.Int64? {
      HelperForSignedKind(k);
    } else if k.Uint? || k.Uint8? || k.Uint16? || k.Uint32? || k.Uint64? || k.Uintptr? {
      HelperForUnsignedKind(k);
    } else {
      HelperForOtherKind(k);
    }
  }

  lemma HelperForSignedKind(k: ScalarKind)
    requires k.Bool? || k.Int? || k.Int8? || k.Int16? || k.Int32? || k.Int64?
    ensures HelperKind(Capitalized(KindName(k))) == Some(k)
  {
    match k
    case Bool => assert Capitalized("bool") == "Bool";
    case Int => assert Capitalized("int") == "Int";
    case Int8 => assert Capitalized("int8") == "Int8";
    case Int16 => assert Capitalized("int16") == "Int16";
    case Int32 => assert Capitalized("int32") == "Int32";
    case Int64 => assert Capitalized("int64") == "Int64";
  }

  lemma HelperForUnsignedKind(k: ScalarKind)
    requires k.Uint? || k.Uint8? || k.Uint16? || k.Uint32? || k.Uint64? || k.Uintptr?
    ensures HelperKind(Capitalized(KindName(k))) == Some(k)
  {
    match k
    case Uint => assert Capitalized("uint") == "Uint";
    case Uint8 => assert Capitalized("uint8") == "Uint8";
    case Uint16 => assert Capitalized("uint16") == "Uint16";
    case Uint32 => assert Capitalized("uint32") == "Uint32";
    case Uint64 => assert Capitalized("uint64") == "Uint64";
    case Uintptr => assert Capitalized("uintptr") == "Uintptr";
  }

  lemma HelperForOtherKind(k: ScalarKind)
    requires k.Float32? || k.Float64? || k.String?
    ensures HelperKind(Capitalized(KindName(k))) == Some(k)
  {
    match k
    case Float32 => assert Capitalized("float32") == "Float32";
    case Float64 => assert Capitalized("float64") == "Float64";
    case String => assert Capitalized("string") == "String";
  }

  // ---------------------------------------------------------------------
  // The generator
  // ---------------------------------------------------------------------

  /** The Qual of a struct type: an anonymous struct has empty package path and name. */
  function QualName(name: Option<TypeName>): TypeName {
    match name
    case Some(n) => n
    case None => TypeName("", "")
  }

  /** generateType */
  function GenerateType(t: Type): TypeExpr {
    match t
    case TScalar(k, None) => Ident(KindName(k))
    case TScalar(_, Some(n)) => Qual(n)
    case TPtr(e) => PtrTo(GenerateType(e))
    case TSlice(e) => SliceOf(GenerateType(e))
    case TArray(n, e) => ArrayOf(n, GenerateType(e))
    case TMap(k, e) => MapOf(GenerateType(k), GenerateType(e))
    case TStruct(n, _, _) => Qual(QualName(n))
    case TChan(e) => ChanOf(GenerateType(e))
    case TFunc => NoType
  }

  /** generateBuiltinLiteralValue: the literal of the value's own kind (conversions within range keep the value). */
  function GenerateBuiltinLiteralValue(v: Value): Expr
    requires v.Scalar?
  {
    Literal(v.kind, v.lit)
  }

  /** generateLiteralValue */
  function GenerateLiteralValue(v: Value): Expr {
    if !v.Scalar? then Absent
    else
      var lit := GenerateBuiltinLiteralValue(v);
      match v.named
      case None => lit
      case Some(n) => Conversion(n, lit)
  }

  /** generatePtrLiteralValue, applied to the pointee */
  function GeneratePtrLiteralValue(v: Value): Expr {
    if !v.Scalar? then Absent
    else
      var p := PointerHelper(Capitalized(KindName(v.kind)), GenerateBuiltinLiteralValue(v));
      match v.named
      case None => p
      case Some(n) => PointerConversion(n, p)
  }

  /** The `ts` of a slice, array or map literal: the type, or nothing under omitType. */
  function CompositePrefix(v: Value, omitType: bool): Prefix {
    if omitType then Untyped else TypeOnly(GenerateType(TypeOf(v)))
  }

  /** generateValue */
  function GenerateValue(v: Value, omitType: bool): Expr
    requires Renderable(v)
    decreases v, 2
  {
    match v
    case Scalar(_, _, _) => GenerateLiteralValue(v)
    case Pointer(_, _) => GeneratePtrValue(v, omitType)
    case Slice(_, _, elems) =>
      ListLit(CompositePrefix(v, omitType),
              seq(|elems|, i requires 0 <= i < |elems| => GenerateValue(elems[i], true)),
              |elems| > 0)
    case Array(_, elems) =>
      ListLit(CompositePrefix(v, omitType),
              seq(|elems|, i requires 0 <= i < |elems| => GenerateValue(elems[i], true)),
              |elems| > 0)
    case Map(_, _, _, es) =>
      DictLit(CompositePrefix(v, omitType),
              seq(|es|, i requires 0 <= i < |es| =>
                KeyedItem(GenerateValue(es[i].key, false), GenerateValue(es[i].val, true))))
    case Struct(_, _, _) => GenerateStructValue(v, false, omitType)
    case Chan(_, _) => Absent
    case Func(_) => Absent
  }

  /** generatePtrValue: dispatch on the pointer's element type. */
  function GeneratePtrValue(v: Value, omitType: bool): Expr
    requires Renderable(v)
    decreases v, 1
  {
    if !v.Pointer? then Absent
    else
      var x := v.target.value;
      if v.elemType.TScalar? then GeneratePtrLiteralValue(x)
      else if v.elemType.TStruct? then GenerateStructValue(x, true, omitType)
      else Address(GenerateValue(x, false))
  }

  /** The struct's type: its qualified name, or a field-by-field struct type when anonymous. */
  function StructTypeExpr(v: Value): TypeExpr
    requires v.Struct?
  {
    if v.name.None? then
      StructOf(seq(|v.members|, i requires 0 <= i < |v.members| =>
        FieldDecl(v.members[i].field.name, GenerateType(v.members[i].field.ty))))
    else Qual(v.name.value)
  }

  /** generateStructWithUnexportedField: the JSON round-trip closure when the type has the codec, else nothing. */
  function GenerateStructWithUnexportedField(v: Value, ptrResult: bool): (r: Option<Expr>)
  {
    if v.Struct? && v.jsonCodec then Some(ImmediateCall(ptrResult, QualName(v.name), v)) else None
  }

  /** generateStructValue */
  function GenerateStructValue(v: Value, ptrResult: bool, omitType: bool): Expr
    requires Renderable(v)
    decreases v, 1
  {
    if !v.Struct? then Absent
    else if HasUnexportedField(v) && GenerateStructWithUnexportedField(v, ptrResult).Some? then
      GenerateStructWithUnexportedField(v, ptrResult).value
    else
      var ts := StructTypeExpr(v);
      var prefix := if omitType then Untyped else if ptrResult then AddressOf(ts) else TypeOnly(ts);
      StructLit(prefix, FieldEntriesFrom(v, 0))
  }

  /** The dictionary of a struct literal, filled from field `k` on. */
  function FieldEntriesFrom(v: Value, k: nat): seq<FieldItem>
    requires v.Struct? && k <= |v.members| && Renderable(v) && !Opaque(v)
    decreases v, 0, |v.members| - k
  {
    if k == |v.members| then []
    else
      var m := v.members[k];
      (if Included(m) then [FieldItem(m.field.name, GenerateValue(m.value, false))] else [])
        + FieldEntriesFrom(v, k + 1)
  }

  /** One member of the field loop: an included member contributes its entry, any other member nothing. */
  lemma FieldEntriesStep(v: Value, k: nat)
    requires v.Struct? && k < |v.members| && Renderable(v) && !Opaque(v)
    ensures var m := v.members[k];
      FieldEntriesFrom(v, k) ==
        (if Included(m) then [FieldItem(m.field.name, GenerateValue(m.value, false))] else []) + FieldEntriesFrom(v, k + 1)
  {
  }

  /** GenerateValue: the exported entry point renders with the type spelled out. */
  function GenerateRootValue(v: Value): Expr
    requires Renderable(v)
  {
    GenerateValue(v, false)
  }

  // ---------------------------------------------------------------------
  // The fill loops
  // ---------------------------------------------------------------------

  /**
   * The element loop of generateValue for a slice or an array: a line break
   * and the element rendered without its type, for each index in order, then
   * one more line break when there was at least one element.
   */
  method RenderList(v: Value, omitType: bool) returns (e: Expr)
    requires (v.Slice? || v.Array?) && Renderable(v)
    ensures e == GenerateValue(v, omitType)
  {
    var items: seq<Expr> := [];
    var i := 0;
    while i < |v.elems|
      invariant 0 <= i <= |v.elems|
      invariant |items| == i
      invariant forall j :: 0 <= j < i ==> items[j] == GenerateValue(v.elems[j], true)
    {
      items := items + [GenerateValue(v.elems[i], true)];
      i := i + 1;
    }
    var trailing := false;
    if |v.elems| > 0 {
      trailing := true;
    }
    e := ListLit(CompositePrefix(v, omitType), items, trailing);
  }

  /**
   * The map loop of generateValue: each entry the iteration visits becomes a
   * dictionary item whose key keeps its type and whose value omits it.
   */
  method RenderMap(v: Value, omitType: bool) returns (e: Expr)
    requires v.Map? && Renderable(v)
    ensures e == GenerateValue(v, omitType)
  {
    var items: seq<KeyedItem> := [];
    var i := 0;
    while i < |v.entries|
      invariant 0 <= i <= |v.entries|
      invariant |items| == i
      invariant forall j :: 0 <= j < i ==>
        items[j] == KeyedItem(GenerateValue(v.entries[j].key, false), GenerateValue(v.entries[j].val, true))
    {
      var en := v.entries[i];
      items := items + [KeyedItem(GenerateValue(en.key, false), GenerateValue(en.val, true))];
      i := i + 1;
    }
    e := DictLit(CompositePrefix(v, omitType), items);
  }

  /**
   * The field loop of generateStructValue: skips unexported fields and fields
   * of anonymous struct type, and adds every remaining non-zero field.
   */
  method RenderStructFields(v: Value) returns (items: seq<FieldItem>)
    requires v.Struct? && Renderable(v) && !Opaque(v)
    ensures items == FieldEntriesFrom(v, 0)
  {
    items := [];
    var i := 0;
    while i < |v.members|
      invariant 0 <= i <= |v.members|
      invariant items + FieldEntriesFrom(v, i) == FieldEntriesFrom(v, 0)
    {
      var entry := FieldEntry(v.members[i]);
      FieldEntriesStep(v, i);
      items := items + entry;
      i := i + 1;
    }
  }

  /** One pass of the field loop: an unexported or anonymous-struct field is skipped, a zero one adds nothing. */
  method FieldEntry(m: Member) returns (entry: seq<FieldItem>)
    requires Included(m) ==> Renderable(m.value)
    ensures entry == if Included(m) then [FieldItem(m.field.name, GenerateValue(m.value, false))] else []
  {
    if !m.field.exported || IsAnonymousStruct(m.field.ty) {
      return [];
    }
    entry := [];
    if !IsZero(m.value) {
      entry := [FieldItem(m.field.name, GenerateValue(m.value, false))];
    }
  }

  // ---------------------------------------------------------------------
  // Properties of the rendering
  // ---------------------------------------------------------------------

  /** A builtin scalar renders as its literal, a custom scalar as a conversion of that literal; omitType plays no part. */
  lemma ScalarRendering(v: Value, omitType: bool)
    requires v.Scalar?
    ensures v.named.None? ==> GenerateValue(v, omitType) == Literal(v.kind, v.lit)
    ensures v.named.Some? ==> GenerateValue(v, omitType) == Conversion(v.named.value, Literal(v.kind, v.lit))
  {
  }

  /**
   * A pointer to a scalar renders as the pointer helper of its kind applied
   * to the literal, cast to the pointer of the custom type when there is one.
   */
  lemma PointerToScalarRendering(v: Value, omitType: bool)
    requires Renderable(v) && v.Pointer? && v.elemType.TScalar? && v.target.value.Scalar?
    ensures var x := v.target.value;
      var call := PointerHelper(Capitalized(KindName(x.kind)), Literal(x.kind, x.lit));
      HelperKind(call.helper) == Some(x.kind) &&
      GenerateValue(v, omitType) == (if x.named.None? then call else PointerConversion(x.named.value, call))
  {
    HelperForKind(v.target.value.kind);
  }

  /**
   * A pointer to a struct renders the struct with ptrResult set; any other
   * non-scalar pointee renders as `&` before the pointee rendered with its type.
   */
  lemma PointerRendering(v: Value, omitType: bool)
    requires Renderable(v) && v.Pointer? && !v.elemType.TScalar?
    ensures v.elemType.TStruct? ==> GenerateValue(v, omitType) == GenerateStructValue(v.target.value, true, omitType)
    ensures !v.elemType.TStruct? ==> GenerateValue(v, omitType) == Address(GenerateValue(v.target.value, false))
  {
  }

  /** Under omitType a struct literal has no type and no `&`, whatever ptrResult says. */
  lemma OmitTypeOverridesPtrResult(v: Value)
    requires Renderable(v) && v.Struct? && !Opaque(v)
    ensures GenerateStructValue(v, true, true) == GenerateStructValue(v, false, true)
    ensures GenerateStructValue(v, true, true).StructLit? && GenerateStructValue(v, true, true).prefix == Untyped
    ensures GenerateStructValue(v, true, false).prefix == AddressOf(StructTypeExpr(v))
    ensures GenerateStructValue(v, false, false).prefix == TypeOnly(StructTypeExpr(v))
  {
  }

  /** The members of a struct that its literal lists, in declaration order. */
  function IncludedMembers(ms: seq<Member>): (r: seq<Member>)
    ensures forall m :: m in r ==> m in ms && Included(m)
    ensures forall m :: m in ms && Included(m) ==> m in r
  {
    if |ms| == 0 then []
    else (if Included(ms[0]) then [ms[0]] else []) + IncludedMembers(ms[1..])
  }

  /**
   * The struct literal lists exactly the included members, in declaration
   * order, each rendered with its type.
   */
  lemma {:induction false} FieldEntriesAreIncluded(v: Value, k: nat)
    requires v.Struct? && k <= |v.members| && Renderable(v) && !Opaque(v)
    ensures var inc := IncludedMembers(v.members[k..]);
      |FieldEntriesFrom(v, k)| == |inc| &&
      forall j :: 0 <= j < |inc| ==>
        Renderable(inc[j].value) &&
        FieldEntriesFrom(v, k)[j] == FieldItem(inc[j].field.name, GenerateValue(inc[j].value, false))
    decreases |v.members| - k
  {
    var ms := v.members;
    if k < |ms| {
      FieldEntriesAreIncluded(v, k + 1);
      assert ms[k..][1..] == ms[k + 1..];
      assert ms[k..][0] == ms[k];
    }
  }

  /** A struct whose fields are all zero renders as an empty literal. */
  lemma {:induction false} AllZeroStructIsEmpty(v: Value, k: nat)
    requires v.Struct? && k <= |v.members| && Renderable(v) && !Opaque(v)
    requires forall i :: k <= i < |v.members| ==> IsZero(v.members[i].value)
    ensures FieldEntriesFrom(v, k) == []
    decreases |v.members| - k
  {
    if k < |v.members| {
      AllZeroStructIsEmpty(v, k + 1);
    }
  }

  /**
   * A slice or array renders one item per element, each without its type,
   * with a closing line break exactly when it is non-empty; a map renders one
   * item per entry, the key with its type and the value without.
   */
  lemma ListAndMapRendering(v: Value, omitType: bool)
    requires Renderable(v)
    ensures (v.Slice? || v.Array?) ==>
      var e := GenerateValue(v, omitType);
      e.ListLit? && |e.items| == |v.elems| && (e.trailingBreak <==> |v.elems| > 0) &&
      forall i :: 0 <= i < |v.elems| ==> e.items[i] == GenerateValue(v.elems[i], true)
    ensures v.Map? ==>
      var e := GenerateValue(v, omitType);
      e.DictLit? && |e.entries| == |v.entries| &&
      forall i :: 0 <= i < |v.entries| ==>
        e.entries[i] == KeyedItem(GenerateValue(v.entries[i].key, false), GenerateValue(v.entries[i].val, true))
    ensures (v.Slice? || v.Array? || v.Map?) ==>
      GenerateValue(v, omitType).prefix == (if omitType then Untyped else TypeOnly(GenerateType(TypeOf(v))))
  {
  }

  /**
   * A struct with an unexported field renders as the JSON closure, returning
   * `&obj` or `obj` by ptrResult, exactly when its type has the JSON codec;
   * without the codec it falls back to the field-by-field literal.
   */
  lemma OpaqueFallback(v: Value, ptrResult: bool, omitType: bool)
    requires Renderable(v) && HasUnexportedField(v)
    ensures v.jsonCodec ==> GenerateStructValue(v, ptrResult, omitType) == ImmediateCall(ptrResult, QualName(v.name), v)
    ensures !v.jsonCodec ==> GenerateStructValue(v, ptrResult, omitType).StructLit?
  {
  }

  /** Channels and functions render as nothing. */
  lemma ChanAndFuncAbsent(v: Value, omitType: bool)
    requires v.Chan? || v.Func?
    ensures GenerateValue(v, omitType) == Absent
  {
  }
}
