/**
 * What the code emitted by the value-to-source compiler means: a reference
 * evaluator for the emitted Go expressions, and the theorem that evaluating
 * the rendering of a value gives that value back.
 */
module TraverseEval {
  import opened Wrappers
  import opened Traverse

  // ---------------------------------------------------------------------
  // Well-typed values and zero values
  // ---------------------------------------------------------------------

  /** The values of each kind; `int`, `uint` and `uintptr` are 64 bits wide. */
  predicate LitFits(k: ScalarKind, l: Lit) {
    match k
    case Bool => l.BoolLit?
    case Int => l.IntLit? && -0x8000_0000_0000_0000 <= l.i < 0x8000_0000_0000_0000
    case Int8 => l.IntLit? && -0x80 <= l.i < 0x80
    case Int16 => l.IntLit? && -0x8000 <= l.i < 0x8000
    case Int32 => l.IntLit? && -0x8000_0000 <= l.i < 0x8000_0000
    case Int64 => l.IntLit? && -0x8000_0000_0000_0000 <= l.i < 0x8000_0000_0000_0000
    case Uint => l.IntLit? && 0 <= l.i < 0x1_0000_0000_0000_0000
    case Uint8 => l.IntLit? && 0 <= l.i < 0x100
    case Uint16 => l.IntLit? && 0 <= l.i < 0x1_0000
    case Uint32 => l.IntLit? && 0 <= l.i < 0x1_0000_0000
    case Uint64 => l.IntLit? && 0 <= l.i < 0x1_0000_0000_0000_0000
    case Uintptr => l.IntLit? && 0 <= l.i < 0x1_0000_0000_0000_0000
    case Float32 => l.FloatLit?
    case Float64 => l.FloatLit?
    case String => l.StringLit?
  }

  function ZeroLit(k: ScalarKind): (l: Lit)
    ensures LitFits(k, l) && IsZeroLit(l)
  {
    match k
    case Bool => BoolLit(false)
    case Float32 => FloatLit(0.0)
    case Float64 => FloatLit(0.0)
    case String => StringLit("")
    case _ => IntLit(0)
  }

  /** The zero value of a type: what a struct literal leaves in the fields it does not list. */
  function Zero(t: Type): (z: Value)
    ensures TypeOf(z) == t && IsZero(z)
  {
    match t
    case TScalar(k, n) => Scalar(k, n, ZeroLit(k))
    case TPtr(e) => Pointer(e, None)
    case TSlice(e) => Slice(e, true, [])
    case TArray(n, e) => Array(e, seq(n, _ => Zero(e)))
    case TMap(k, e) => Map(k, e, true, [])
    case TStruct(name, fs, codec) =>
      var ms := seq(|fs|, i requires 0 <= i < |fs| => Member(fs[i], Zero(fs[i].ty)));
      assert FieldsOf(ms) == fs;
      Struct(name, codec, ms)
    case TChan(e) => Chan(e, true)
    case TFunc => Func(true)
  }

  predicate KeysDistinct(es: seq<Entry>) {
    forall i, j :: 0 <= i < j < |es| ==> es[i].key != es[j].key
  }

  predicate NamesDistinct(fs: seq<Field>) {
    forall i, j :: 0 <= i < j < |fs| ==> fs[i].name != fs[j].name
  }

  /**
   * A value that Go could hold: scalars within their kind's range, elements
   * of the declared element types, nil slices and maps empty, distinct map
   * keys and distinct field names.
   */
  predicate WellTyped(v: Value) {
    match v
    case Scalar(k, _, lit) => LitFits(k, lit)
    case Pointer(et, target) => target.Some? ==> TypeOf(target.value) == et && WellTyped(target.value)
    case Slice(et, isNil, elems) =>
      (isNil ==> elems == []) &&
      forall i :: 0 <= i < |elems| ==> TypeOf(elems[i]) == et && WellTyped(elems[i])
    case Array(et, elems) =>
      forall i :: 0 <= i < |elems| ==> TypeOf(elems[i]) == et && WellTyped(elems[i])
    case Map(kt, et, isNil, es) =>
      (isNil ==> es == []) && KeysDistinct(es) &&
      forall i :: 0 <= i < |es| ==>
        TypeOf(es[i].key) == kt && WellTyped(es[i].key) && TypeOf(es[i].val) == et && WellTyped(es[i].val)
    case Struct(_, _, ms) =>
      NamesDistinct(FieldsOf(ms)) &&
      forall i :: 0 <= i < |ms| ==> TypeOf(ms[i].value) == ms[i].field.ty && WellTyped(ms[i].value)
    case Chan(_, _) => true
    case Func(_) => true
  }

  /** For a well-typed value, reflect's IsZero holds exactly when the value is its type's zero value. */
  lemma {:induction false} ZeroIff(v: Value)
    requires WellTyped(v)
    ensures IsZero(v) <==> v == Zero(TypeOf(v))
  {
    match v
    case Scalar(k, n, lit) =>
    case Pointer(_, _) =>
    case Slice(_, _, _) =>
    case Array(et, elems) =>
      if IsZero(v) {
        forall i | 0 <= i < |elems| ensures elems[i] == Zero(et) {
          ZeroIff(elems[i]);
        }
        assert elems == Zero(TypeOf(v)).elems;
      }
    case Map(_, _, _, _) =>
    case Struct(n, codec, ms) =>
      if IsZero(v) {
        forall i | 0 <= i < |ms| ensures ms[i].value == Zero(ms[i].field.ty) {
          ZeroIff(ms[i].value);
        }
        assert ms == Zero(TypeOf(v)).members;
      }
    case Chan(_, _) =>
    case Func(_) =>
  }

  // ---------------------------------------------------------------------
  // Type expressions
  // ---------------------------------------------------------------------

  /** `te` is Go syntax for the type `t`. Function types have no spelling here. */
  predicate WritesType(te: TypeExpr, t: Type) {
    match t
    case TScalar(k, None) => te == Ident(KindName(k))
    case TScalar(_, Some(n)) => te == Qual(n)
    case TPtr(e) => te.PtrTo? && WritesType(te.elem, e)
    case TSlice(e) => te.SliceOf? && WritesType(te.elem, e)
    case TArray(n, e) => te.ArrayOf? && te.len == n && WritesType(te.elem, e)
    case TMap(k, e) => te.MapOf? && WritesType(te.key, k) && WritesType(te.elem, e)
    case TStruct(Some(n), _, _) => te == Qual(n)
    case TStruct(None, fs, _) =>
      te.StructOf? && |te.decls| == |fs| &&
      forall i :: 0 <= i < |fs| ==> te.decls[i].name == fs[i].name && WritesType(te.decls[i].ty, fs[i].ty)
    case TChan(e) => te.ChanOf? && WritesType(te.elem, e)
    case TFunc => false
  }

  /** Types without anonymous structs and function types inside. */
  predicate Expressible(t: Type) {
    match t
    case TScalar(_, _) => true
    case TPtr(e) => Expressible(e)
    case TSlice(e) => Expressible(e)
    case TArray(_, e) => Expressible(e)
    case TMap(k, e) => Expressible(k) && Expressible(e)
    case TStruct(n, _, _) => n.Some?
    case TChan(e) => Expressible(e)
    case TFunc => false
  }

  /**
   * generateType spells a type correctly exactly when the type is
   * expressible: an anonymous struct comes out as an empty qualified name and
   * a function type as nothing.
   */
  lemma {:induction false} GenerateTypeWrites(t: Type)
    ensures WritesType(GenerateType(t), t) <==> Expressible(t)
  {
    match t
    case TScalar(_, _) =>
    case TPtr(e) => GenerateTypeWrites(e);
    case TSlice(e) => GenerateTypeWrites(e);
    case TArray(_, e) => GenerateTypeWrites(e);
    case TMap(k, e) => GenerateTypeWrites(k); GenerateTypeWrites(e);
    case TStruct(_, _, _) =>
    case TChan(e) => GenerateTypeWrites(e);
    case TFunc =>
  }

  /** The struct type written before a struct literal spells the struct's type when its fields' types can be spelled. */
  lemma StructTypeExprWrites(v: Value)
    requires v.Struct?
    requires v.name.Some? || forall i :: 0 <= i < |v.members| ==> Expressible(v.members[i].field.ty)
    ensures WritesType(StructTypeExpr(v), TypeOf(v))
  {
    if v.name.None? {
      forall i | 0 <= i < |v.members| ensures WritesType(GenerateType(v.members[i].field.ty), v.members[i].field.ty) {
        GenerateTypeWrites(v.members[i].field.ty);
      }
    }
  }

  // ---------------------------------------------------------------------
  // Evaluation of emitted code
  // ---------------------------------------------------------------------

  /** A prefix fits a literal of type `t`; the type may be left out only where the enclosing literal implies it. */
  predicate PrefixOk(p: Prefix, t: Type, implied: bool) {
    match p
    case Untyped => implied
    case TypeOnly(te) => WritesType(te, t)
    case AddressOf(_) => false
  }

  /** A prefix fits a literal of type `*st`: `&T`, or nothing where `*T` is implied. */
  predicate PtrPrefixOk(p: Prefix, st: Type, implied: bool) {
    match p
    case Untyped => implied
    case TypeOnly(_) => false
    case AddressOf(te) => WritesType(te, st)
  }

  predicate IsCompositeLit(e: Expr) {
    e.ListLit? || e.DictLit? || e.StructLit?
  }

  /** A struct type `t` named `n` whose values survive a JSON round trip. */
  predicate CodecType(t: Type, n: TypeName) {
    t.TStruct? && t.name == Some(n) && t.jsonCodec
  }

  /** The field names a struct literal from another package may set. */
  function ExportedNames(fs: seq<Field>): set<string> {
    set i | 0 <= i < |fs| && fs[i].exported :: fs[i].name
  }

  /** Every key names an exported field, and no key repeats. */
  predicate FieldItemsOk(items: seq<FieldItem>, fs: seq<Field>) {
    (forall j :: 0 <= j < |items| ==> items[j].name in ExportedNames(fs)) &&
    (forall j, k :: 0 <= j < k < |items| ==> items[j].name != items[k].name)
  }

  /** The position of the first item with this key, or the number of items. */
  function ItemIndex(items: seq<FieldItem>, name: string): (r: nat)
    ensures r <= |items|
    ensures r < |items| ==> items[r].name == name
    ensures forall j :: 0 <= j < r ==> items[j].name != name
  {
    if |items| == 0 then 0
    else if items[0].name == name then 0
    else 1 + ItemIndex(items[1..], name)
  }

  /**
   * The value an emitted expression denotes where a value of type `t` is
   * expected, or None when it is not valid Go there. `implied` holds inside
   * a slice, array or map literal, where Go lets an element's literal type
   * (or the `&T` of a pointer element) be left out. The JSON closure
   * evaluates to its payload when the type has the JSON codec: that the
   * codec round-trips is taken as given.
   */
  function Eval(e: Expr, t: Type, implied: bool): Option<Value>
    decreases e, 1
  {
    match e
    case Absent => None
    case Literal(k, lit) =>
      if t == TScalar(k, None) && LitFits(k, lit) then Some(Scalar(k, None, lit)) else None
    case Conversion(n, arg) =>
      if t.TScalar? && t.named == Some(n) then
        match Eval(arg, TScalar(t.kind, None), false)
        case Some(Scalar(k, _, lit)) => Some(Scalar(k, Some(n), lit))
        case _ => None
      else None
    case PointerHelper(h, arg) =>
      if t.TPtr? && t.elem.TScalar? && t.elem.named.None? && HelperKind(h) == Some(t.elem.kind) then
        match Eval(arg, t.elem, false)
        case Some(x) => Some(Pointer(t.elem, Some(x)))
        case None => None
      else None
    case PointerConversion(n, arg) =>
      if t.TPtr? && t.elem.TScalar? && t.elem.named == Some(n) then
        match Eval(arg, TPtr(TScalar(t.elem.kind, None)), false)
        case Some(Pointer(_, Some(Scalar(k, _, lit)))) => Some(Pointer(t.elem, Some(Scalar(k, Some(n), lit))))
        case _ => None
      else None
    case Address(op) =>
      if t.TPtr? && IsCompositeLit(op) then
        match Eval(op, t.elem, false)
        case Some(x) => Some(Pointer(t.elem, Some(x)))
        case None => None
      else None
    case ListLit(p, items, _) =>
      if (t.TSlice? || (t.TArray? && t.len == |items|)) && PrefixOk(p, t, implied) &&
         forall i :: 0 <= i < |items| ==> Eval(items[i], t.elem, true).Some?
      then
        var vals := seq(|items|, i requires 0 <= i < |items| && Eval(items[i], t.elem, true).Some? =>
          Eval(items[i], t.elem, true).value);
        Some(if t.TSlice? then Slice(t.elem, false, vals) else Array(t.elem, vals))
      else None
    case DictLit(p, entries) =>
      if t.TMap? && PrefixOk(p, t, implied) &&
         forall i :: 0 <= i < |entries| ==>
           Eval(entries[i].key, t.key, true).Some? && Eval(entries[i].value, t.elem, true).Some?
      then
        var es := seq(|entries|, i requires 0 <= i < |entries| &&
                        Eval(entries[i].key, t.key, true).Some? && Eval(entries[i].value, t.elem, true).Some? =>
          Entry(Eval(entries[i].key, t.key, true).value, Eval(entries[i].value, t.elem, true).value));
        if KeysDistinct(es) then Some(Map(t.key, t.elem, false, es)) else None
      else None
    case StructLit(p, _) =>
      if t.TStruct? && PrefixOk(p, t, implied) then EvalFields(e, t)
      else if t.TPtr? && t.elem.TStruct? && PtrPrefixOk(p, t.elem, implied) then
        match EvalFields(e, t.elem)
        case Some(x) => Some(Pointer(t.elem, Some(x)))
        case None => None
      else None
    case ImmediateCall(returnsPtr, n, payload) =>
      if !returnsPtr && CodecType(t, n) && TypeOf(payload) == t && WellTyped(payload) then Some(payload)
      else if returnsPtr && t.TPtr? && CodecType(t.elem, n) && TypeOf(payload) == t.elem && WellTyped(payload) then
        Some(Pointer(t.elem, Some(payload)))
      else None
  }

  /** The keyed fields of a struct literal: listed fields take their item's value, the others their zero value. */
  function EvalFields(e: Expr, st: Type): Option<Value>
    requires e.StructLit? && st.TStruct?
    decreases e, 0
  {
    var items := e.fields;
    var fs := st.fields;
    if FieldItemsOk(items, fs) &&
       forall i :: 0 <= i < |fs| && ItemIndex(items, fs[i].name) < |items| ==>
         Eval(items[ItemIndex(items, fs[i].name)].value, fs[i].ty, false).Some?
    then
      Some(Struct(st.name, st.jsonCodec, seq(|fs|, i requires 0 <= i < |fs| &&
          (ItemIndex(items, fs[i].name) < |items| ==> Eval(items[ItemIndex(items, fs[i].name)].value, fs[i].ty, false).Some?) =>
        var j := ItemIndex(items, fs[i].name);
        Member(fs[i], if j < |items| then Eval(items[j].value, fs[i].ty, false).value else Zero(fs[i].ty)))))
    else None
  }

  // ---------------------------------------------------------------------
  // The round trip
  // ---------------------------------------------------------------------

  predicate IsCompositeValue(v: Value) {
    v.Slice? || v.Array? || v.Map?
  }

  /**
   * The values whose rendering rebuilds them. Excluded are: nil pointers
   * (the generator panics), nil slices and maps outside an omitted zero
   * field (they come back empty, not nil), channels and functions (nothing
   * is emitted), pointers to pointers (`&` of a call is not Go), literals
   * whose spelled-out type involves an anonymous struct or a function type,
   * and non-zero fields the struct loop skips.
   */
  predicate Reconstructible(v: Value, omitType: bool)
    decreases v, 1
  {
    match v
    case Scalar(_, _, _) => true
    case Pointer(et, target) =>
      target.Some? &&
      (if et.TScalar? then target.value.Scalar?
       else if et.TStruct? then target.value.Struct? && StructReconstructible(target.value, omitType)
       else IsCompositeValue(target.value) && Reconstructible(target.value, false))
    case Slice(et, isNil, elems) =>
      !isNil && (omitType || Expressible(TSlice(et))) &&
      forall i :: 0 <= i < |elems| ==> Reconstructible(elems[i], true)
    case Array(et, elems) =>
      (omitType || Expressible(TArray(|elems|, et))) &&
      forall i :: 0 <= i < |elems| ==> Reconstructible(elems[i], true)
    case Map(kt, et, isNil, es) =>
      !isNil && (omitType || Expressible(TMap(kt, et))) &&
      forall i :: 0 <= i < |es| ==> Reconstructible(es[i].key, false) && Reconstructible(es[i].val, true)
    case Struct(_, _, _) => StructReconstructible(v, omitType)
    case Chan(_, _) => false
    case Func(_) => false
  }

  predicate StructReconstructible(v: Value, omitType: bool)
    requires v.Struct?
    decreases v, 0
  {
    if Opaque(v) then v.name.Some?
    else
      (omitType || v.name.Some? || forall i :: 0 <= i < |v.members| ==> Expressible(v.members[i].field.ty)) &&
      forall i :: 0 <= i < |v.members| ==>
        (Included(v.members[i]) ==> Reconstructible(v.members[i].value, false)) &&
        (!v.members[i].field.exported || IsAnonymousStruct(v.members[i].field.ty) ==> IsZero(v.members[i].value))
  }

  lemma {:induction false} ReconstructibleRenderable(v: Value, omitType: bool)
    requires Reconstructible(v, omitType)
    ensures Renderable(v)
    decreases v, 1
  {
    match v
    case Scalar(_, _, _) =>
    case Pointer(et, target) =>
      if et.TStruct? {
        StructReconstructibleRenderable(target.value, omitType);
      } else if !et.TScalar? {
        ReconstructibleRenderable(target.value, false);
      }
    case Slice(_, _, elems) =>
      forall i | 0 <= i < |elems| ensures Renderable(elems[i]) {
        ReconstructibleRenderable(elems[i], true);
      }
    case Array(_, elems) =>
      forall i | 0 <= i < |elems| ensures Renderable(elems[i]) {
        ReconstructibleRenderable(elems[i], true);
      }
    case Map(_, _, _, es) =>
      forall i | 0 <= i < |es| ensures Renderable(es[i].key) && Renderable(es[i].val) {
        ReconstructibleRenderable(es[i].key, false);
        ReconstructibleRenderable(es[i].val, true);
      }
    case Struct(_, _, _) => StructReconstructibleRenderable(v, omitType);
  }

  lemma {:induction false} StructReconstructibleRenderable(v: Value, omitType: bool)
    requires v.Struct? && StructReconstructible(v, omitType)
    ensures Renderable(v)
    decreases v, 0
  {
    if !Opaque(v) {
      forall i | 0 <= i < |v.members| && Included(v.members[i]) ensures Renderable(v.members[i].value) {
        ReconstructibleRenderable(v.members[i].value, false);
      }
    }
  }

  /** Filtering the members keeps their names distinct. */
  lemma {:induction false} IncludedNamesDistinct(ms: seq<Member>)
    requires NamesDistinct(FieldsOf(ms))
    ensures NamesDistinct(FieldsOf(IncludedMembers(ms)))
  {
    if |ms| > 0 {
      var tail := ms[1..];
      forall i, j | 0 <= i < j < |tail| ensures FieldsOf(tail)[i].name != FieldsOf(tail)[j].name {
        assert FieldsOf(ms)[i + 1].name != FieldsOf(ms)[j + 1].name;
      }
      IncludedNamesDistinct(tail);
      var rest := IncludedMembers(tail);
      if Included(ms[0]) {
        forall j | 0 <= j < |rest| ensures rest[j].field.name != ms[0].field.name {
          assert rest[j] in tail;
          var i :| 0 <= i < |tail| && tail[i] == rest[j];
          assert FieldsOf(ms)[0].name != FieldsOf(ms)[i + 1].name;
        }
        ConsNamesDistinct(ms[0], rest);
        assert IncludedMembers(ms) == [ms[0]] + rest;
      }
    }
  }

  /** A member whose name is new keeps the names distinct when put in front. */
  lemma ConsNamesDistinct(m: Member, rest: seq<Member>)
    requires NamesDistinct(FieldsOf(rest))
    requires forall j :: 0 <= j < |rest| ==> rest[j].field.name != m.field.name
    ensures NamesDistinct(FieldsOf([m] + rest))
  {
    var inc := [m] + rest;
    forall a, b | 0 <= a < b < |inc| ensures FieldsOf(inc)[a].name != FieldsOf(inc)[b].name {
      assert inc[b] == rest[b - 1];
      if a > 0 {
        assert inc[a] == rest[a - 1];
        assert FieldsOf(rest)[a - 1].name != FieldsOf(rest)[b - 1].name;
      }
    }
  }

  /** With distinct keys, looking up an item's key finds that item. */
  lemma ItemIndexDistinct(items: seq<FieldItem>, j: nat)
    requires j < |items|
    requires forall a, b :: 0 <= a < b < |items| ==> items[a].name != items[b].name
    ensures ItemIndex(items, items[j].name) == j
  {
  }

  /**
   * Items keyed by the names of the included members, in order: a member's
   * name leads to the member itself when it is included, and to no item
   * otherwise.
   */
  lemma LookupIncluded(items: seq<FieldItem>, ms: seq<Member>)
    requires NamesDistinct(FieldsOf(ms))
    requires |items| == |IncludedMembers(ms)|
    requires forall j :: 0 <= j < |items| ==> items[j].name == IncludedMembers(ms)[j].field.name
    ensures forall a, b :: 0 <= a < b < |items| ==> items[a].name != items[b].name
    ensures forall i :: 0 <= i < |ms| && Included(ms[i]) ==>
      ItemIndex(items, ms[i].field.name) < |items| &&
      IncludedMembers(ms)[ItemIndex(items, ms[i].field.name)] == ms[i]
    ensures forall i :: 0 <= i < |ms| && !Included(ms[i]) ==> ItemIndex(items, ms[i].field.name) == |items|
  {
    IncludedNamesDistinct(ms);
    forall i | 0 <= i < |ms|
      ensures Included(ms[i]) ==>
        ItemIndex(items, ms[i].field.name) < |items| &&
        IncludedMembers(ms)[ItemIndex(items, ms[i].field.name)] == ms[i]
      ensures !Included(ms[i]) ==> ItemIndex(items, ms[i].field.name) == |items|
    {
      LookupIncludedAt(items, ms, i);
    }
  }

  lemma LookupIncludedAt(items: seq<FieldItem>, ms: seq<Member>, i: nat)
    requires NamesDistinct(FieldsOf(ms)) && i < |ms|
    requires |items| == |IncludedMembers(ms)|
    requires forall j :: 0 <= j < |items| ==> items[j].name == IncludedMembers(ms)[j].field.name
    requires forall a, b :: 0 <= a < b < |items| ==> items[a].name != items[b].name
    ensures var r := ItemIndex(items, ms[i].field.name);
      (Included(ms[i]) ==> r < |items| && IncludedMembers(ms)[r] == ms[i]) &&
      (!Included(ms[i]) ==> r == |items|)
  {
    var inc := IncludedMembers(ms);
    var r := ItemIndex(items, ms[i].field.name);
    if r < |items| {
      var m := inc[r];
      assert m in ms;
      var i2 :| 0 <= i2 < |ms| && ms[i2] == m;
      NameDetermines(ms, i2, i);
    }
    if Included(ms[i]) {
      var j := IndexIn(inc, ms[i]);
      ItemIndexDistinct(items, j);
    }
  }

  function IndexIn(s: seq<Member>, m: Member): (j: nat)
    requires m in s
    ensures j < |s| && s[j] == m
  {
    if s[0] == m then 0 else 1 + IndexIn(s[1..], m)
  }

  /** Field names being distinct, a name identifies its member. */
  lemma NameDetermines(ms: seq<Member>, a: nat, b: nat)
    requires NamesDistinct(FieldsOf(ms)) && a < |ms| && b < |ms|
    requires ms[a].field.name == ms[b].field.name
    ensures a == b
  {
  }

  /** The keys of the struct literal are distinct names of included fields. */
  lemma FieldEntriesNames(v: Value)
    requires v.Struct? && Renderable(v) && !Opaque(v)
    requires NamesDistinct(FieldsOf(v.members))
    ensures var items := FieldEntriesFrom(v, 0);
      (forall j :: 0 <= j < |items| ==>
        exists i :: 0 <= i < |v.members| && Included(v.members[i]) && items[j].name == v.members[i].field.name) &&
      (forall a, b :: 0 <= a < b < |items| ==> items[a].name != items[b].name)
  {
    var ms := v.members;
    FieldEntriesAreIncluded(v, 0);
    assert ms[0..] == ms;
    var inc := IncludedMembers(ms);
    var items := FieldEntriesFrom(v, 0);
    IncludedNamesDistinct(ms);
    forall j | 0 <= j < |items|
      ensures exists i :: 0 <= i < |ms| && Included(ms[i]) && items[j].name == ms[i].field.name
    {
      assert inc[j] in ms;
      var i :| 0 <= i < |ms| && ms[i] == inc[j];
    }
  }

  /**
   * Looked up by name, the struct literal holds each included field's
   * rendering and nothing for the other fields.
   */
  lemma FieldEntriesLookup(v: Value)
    requires v.Struct? && Renderable(v) && !Opaque(v)
    requires NamesDistinct(FieldsOf(v.members))
    ensures var items := FieldEntriesFrom(v, 0);
      forall i :: 0 <= i < |v.members| ==>
        (Included(v.members[i]) ==>
          ItemIndex(items, v.members[i].field.name) < |items| &&
          items[ItemIndex(items, v.members[i].field.name)].value == GenerateValue(v.members[i].value, false)) &&
        (!Included(v.members[i]) ==> ItemIndex(items, v.members[i].field.name) == |items|)
  {
    var ms := v.members;
    FieldEntriesAreIncluded(v, 0);
    assert ms[0..] == ms;
    FieldEntriesNames(v);
    LookupIncluded(FieldEntriesFrom(v, 0), ms);
  }

  /**
   * The central property of the compiler: evaluating what it emits for a
   * well-typed, reconstructible value, where a value of the value's own type
   * is expected, gives back exactly that value.
   */
  lemma {:induction false} RoundTrip(v: Value, omitType: bool)
    requires WellTyped(v) && Reconstructible(v, omitType)
    ensures Renderable(v) && Eval(GenerateValue(v, omitType), TypeOf(v), omitType) == Some(v)
    decreases v, 4
  {
    ReconstructibleRenderable(v, omitType);
    match v
    case Scalar(_, _, _) =>
    case Pointer(_, _) => RoundTripPointer(v, omitType);
    case Slice(_, _, _) => RoundTripList(v, omitType);
    case Array(_, _) => RoundTripList(v, omitType);
    case Map(_, _, _, _) => RoundTripMap(v, omitType);
    case Struct(_, _, _) => RoundTripStruct(v, false, omitType);
  }

  lemma {:induction false} RoundTripList(v: Value, omitType: bool)
    requires (v.Slice? || v.Array?) && WellTyped(v) && Reconstructible(v, omitType)
    ensures Renderable(v) && Eval(GenerateValue(v, omitType), TypeOf(v), omitType) == Some(v)
    decreases v, 3
  {
    ReconstructibleRenderable(v, omitType);
    var elems := v.elems;
    var t := TypeOf(v);
    var e := GenerateValue(v, omitType);
    if !omitType {
      GenerateTypeWrites(t);
    }
    assert PrefixOk(e.prefix, t, omitType);
    forall i | 0 <= i < |elems| ensures Eval(e.items[i], t.elem, true) == Some(elems[i]) {
      RoundTrip(elems[i], true);
    }
    assert Eval(e, t, omitType).value.elems == elems;
  }

  lemma {:induction false} RoundTripMap(v: Value, omitType: bool)
    requires v.Map? && WellTyped(v) && Reconstructible(v, omitType)
    ensures Renderable(v) && Eval(GenerateValue(v, omitType), TypeOf(v), omitType) == Some(v)
    decreases v, 3
  {
    ReconstructibleRenderable(v, omitType);
    var es := v.entries;
    var t := TypeOf(v);
    var e := GenerateValue(v, omitType);
    if !omitType {
      GenerateTypeWrites(t);
    }
    assert PrefixOk(e.prefix, t, omitType);
    forall i | 0 <= i < |es|
      ensures Eval(e.entries[i].key, t.key, true) == Some(es[i].key)
      ensures Eval(e.entries[i].value, t.elem, true) == Some(es[i].val)
    {
      RoundTrip(es[i].key, false);
      ImpliedWeakens(GenerateValue(es[i].key, false), t.key);
      RoundTrip(es[i].val, true);
    }
    assert Eval(e, t, omitType).value.entries == es;
  }

  /** A rendering that evaluates where its type is spelled out also evaluates, to the same value, where the type is implied. */
  lemma ImpliedWeakens(e: Expr, t: Type)
    requires Eval(e, t, false).Some?
    ensures Eval(e, t, true) == Eval(e, t, false)
  {
  }

  lemma {:induction false} RoundTripPointer(v: Value, omitType: bool)
    requires v.Pointer? && WellTyped(v) && Reconstructible(v, omitType)
    ensures Renderable(v) && Eval(GenerateValue(v, omitType), TypeOf(v), omitType) == Some(v)
    decreases v, 3
  {
    ReconstructibleRenderable(v, omitType);
    var x := v.target.value;
    if v.elemType.TScalar? {
      RoundTripScalarPointer(v, omitType);
    } else if v.elemType.TStruct? {
      RoundTripStruct(x, true, omitType);
    } else {
      RoundTrip(x, false);
    }
  }

  /** A pointer to a scalar comes back through its pointer helper, and through the conversion for a custom type. */
  lemma RoundTripScalarPointer(v: Value, omitType: bool)
    requires v.Pointer? && v.elemType.TScalar? && WellTyped(v) && Reconstructible(v, omitType)
    requires Renderable(v)
    ensures Eval(GenerateValue(v, omitType), TypeOf(v), omitType) == Some(v)
  {
    var x := v.target.value;
    HelperForKind(x.kind);
    var arg := Literal(x.kind, x.lit);
    var call := PointerHelper(Capitalized(KindName(x.kind)), arg);
    assert Eval(arg, TScalar(x.kind, None), false) == Some(Scalar(x.kind, None, x.lit));
    assert Eval(call, TPtr(TScalar(x.kind, None)), false) == Some(Pointer(TScalar(x.kind, None), Some(Scalar(x.kind, None, x.lit))));
    if x.named.None? {
      assert GenerateValue(v, omitType) == call;
    } else {
      assert GenerateValue(v, omitType) == PointerConversion(x.named.value, call);
    }
  }

  lemma {:induction false} RoundTripStruct(v: Value, ptrResult: bool, omitType: bool)
    requires v.Struct? && WellTyped(v) && StructReconstructible(v, omitType)
    ensures Renderable(v)
    ensures var t := if ptrResult then TPtr(TypeOf(v)) else TypeOf(v);
      Eval(GenerateStructValue(v, ptrResult, omitType), t, omitType) ==
      Some(if ptrResult then Pointer(TypeOf(v), Some(v)) else v)
    decreases v, 3
  {
    StructReconstructibleRenderable(v, omitType);
    if Opaque(v) {
      RoundTripOpaque(v, ptrResult, omitType);
    } else {
      RoundTripLiteral(v, ptrResult, omitType);
    }
  }

  /**
   * The JSON closure evaluates to the struct itself, or to a pointer to it.
   * This holds by the definition of `Eval`, which takes the codec's round
   * trip as given: the lemma records how the generator's choice of closure
   * meets that assumption, not a fact about JSON.
   */
  lemma RoundTripOpaque(v: Value, ptrResult: bool, omitType: bool)
    requires Opaque(v) && WellTyped(v) && v.name.Some?
    ensures Renderable(v)
    ensures var t := if ptrResult then TPtr(TypeOf(v)) else TypeOf(v);
      Eval(GenerateStructValue(v, ptrResult, omitType), t, omitType) ==
      Some(if ptrResult then Pointer(TypeOf(v), Some(v)) else v)
  {
    assert GenerateStructValue(v, ptrResult, omitType) == ImmediateCall(ptrResult, v.name.value, v);
  }

  lemma {:induction false} RoundTripLiteral(v: Value, ptrResult: bool, omitType: bool)
    requires v.Struct? && !Opaque(v) && WellTyped(v) && StructReconstructible(v, omitType) && Renderable(v)
    ensures var t := if ptrResult then TPtr(TypeOf(v)) else TypeOf(v);
      Eval(GenerateStructValue(v, ptrResult, omitType), t, omitType) ==
      Some(if ptrResult then Pointer(TypeOf(v), Some(v)) else v)
    decreases v, 2
  {
    var st := TypeOf(v);
    var ts := StructTypeExpr(v);
    var prefix := if omitType then Untyped else if ptrResult then AddressOf(ts) else TypeOnly(ts);
    var e := StructLit(prefix, FieldEntriesFrom(v, 0));
    assert GenerateStructValue(v, ptrResult, omitType) == e;
    if !omitType {
      StructTypeExprWrites(v);
    }
    RoundTripFields(v, omitType, e);
    if ptrResult {
      assert PtrPrefixOk(prefix, st, omitType);
      EvalStructLitPtr(e, TPtr(st), omitType);
    } else {
      assert PrefixOk(prefix, st, omitType);
      EvalStructLit(e, st, omitType);
    }
  }

  lemma EvalStructLit(e: Expr, st: Type, implied: bool)
    requires e.StructLit? && st.TStruct? && PrefixOk(e.prefix, st, implied)
    ensures Eval(e, st, implied) == EvalFields(e, st)
  {
  }

  lemma EvalStructLitPtr(e: Expr, t: Type, implied: bool)
    requires e.StructLit? && t.TPtr? && t.elem.TStruct? && PtrPrefixOk(e.prefix, t.elem, implied)
    requires EvalFields(e, t.elem).Some?
    ensures Eval(e, t, implied) == Some(Pointer(t.elem, EvalFields(e, t.elem)))
  {
  }

  lemma {:induction false} RoundTripFields(v: Value, omitType: bool, e: Expr)
    requires v.Struct? && WellTyped(v) && !Opaque(v) && StructReconstructible(v, omitType)
    requires Renderable(v) && e.StructLit? && e.fields == FieldEntriesFrom(v, 0)
    ensures EvalFields(e, TypeOf(v)) == Some(v)
    decreases v, 1
  {
    var ms := v.members;
    var fs := FieldsOf(ms);
    var items := e.fields;
    FieldEntriesOk(v);
    forall i | 0 <= i < |fs|
      ensures ItemIndex(items, fs[i].name) < |items| ==>
        Eval(items[ItemIndex(items, fs[i].name)].value, fs[i].ty, false) == Some(ms[i].value)
      ensures ItemIndex(items, fs[i].name) == |items| ==> ms[i].value == Zero(fs[i].ty)
    {
      MemberRoundTrip(v, omitType, i);
    }
    EvalFieldsOfMembers(e, TypeOf(v), ms);
  }

  /** The keys of a rendered struct literal name exported fields, each at most once. */
  lemma FieldEntriesOk(v: Value)
    requires v.Struct? && Renderable(v) && !Opaque(v)
    requires NamesDistinct(FieldsOf(v.members))
    ensures FieldItemsOk(FieldEntriesFrom(v, 0), FieldsOf(v.members))
  {
    var ms := v.members;
    var fs := FieldsOf(ms);
    var items := FieldEntriesFrom(v, 0);
    FieldEntriesNames(v);
    FieldEntriesAreIncluded(v, 0);
    assert ms[0..] == ms;
    var inc := IncludedMembers(ms);
    forall j | 0 <= j < |items| ensures items[j].name in ExportedNames(fs) {
      assert items[j].name == inc[j].field.name;
      assert inc[j] in ms;
      var i :| 0 <= i < |ms| && ms[i] == inc[j];
      assert fs[i].exported && fs[i].name == items[j].name;
    }
  }

  lemma {:induction false} MemberRoundTrip(v: Value, omitType: bool, i: nat)
    requires v.Struct? && WellTyped(v) && !Opaque(v) && StructReconstructible(v, omitType)
    requires Renderable(v) && i < |v.members|
    ensures var m := v.members[i];
      var items := FieldEntriesFrom(v, 0);
      var j := ItemIndex(items, m.field.name);
      (j < |items| ==> Eval(items[j].value, m.field.ty, false) == Some(m.value)) &&
      (j == |items| ==> m.value == Zero(m.field.ty))
    decreases v, 0
  {
    var m := v.members[i];
    assert TypeOf(m.value) == m.field.ty && WellTyped(m.value);
    FieldEntriesLookup(v);
    if Included(m) {
      RoundTrip(m.value, false);
    } else {
      ZeroIff(m.value);
    }
  }

  /** A struct literal whose listed fields evaluate to the members' values, and whose other members are zero, evaluates to those members. */
  lemma EvalFieldsOfMembers(e: Expr, st: Type, ms: seq<Member>)
    requires e.StructLit? && st.TStruct? && st.fields == FieldsOf(ms)
    requires FieldItemsOk(e.fields, st.fields)
    requires forall i :: 0 <= i < |ms| && ItemIndex(e.fields, st.fields[i].name) < |e.fields| ==>
      Eval(e.fields[ItemIndex(e.fields, st.fields[i].name)].value, st.fields[i].ty, false) == Some(ms[i].value)
    requires forall i :: 0 <= i < |ms| && ItemIndex(e.fields, st.fields[i].name) == |e.fields| ==>
      ms[i].value == Zero(st.fields[i].ty)
    ensures EvalFields(e, st) == Some(Struct(st.name, st.jsonCodec, ms))
  {
    assert EvalFields(e, st).Some?;
    assert EvalFields(e, st).value.members == ms;
  }

  /**
   * What the round trip leaves out is lost: a struct without the JSON codec
   * renders as a field literal even when it has unexported fields, and the
   * field loop skips unexported and anonymous-struct-typed fields, so a
   * non-zero value in one of them comes back as its zero value.
   */
  lemma SkippedFieldLost(v: Value, omitType: bool, i: nat)
    requires v.Struct? && WellTyped(v) && Renderable(v) && !Opaque(v)
    requires i < |v.members| && !Included(v.members[i]) && !IsZero(v.members[i].value)
    ensures Eval(GenerateValue(v, omitType), TypeOf(v), omitType) != Some(v)
  {
    var e := GenerateValue(v, omitType);
    assert e == GenerateStructValue(v, false, omitType);
    assert e.StructLit? && e.fields == FieldEntriesFrom(v, 0);
    var st := TypeOf(v);
    var fs := FieldsOf(v.members);
    FieldEntriesLookup(v);
    var items := e.fields;
    assert ItemIndex(items, fs[i].name) == |items|;
    EvalFieldsUnlisted(e, st, i);
    EvalStructLitAt(e, st, omitType);
  }

  /** A field the struct literal does not list comes back as its zero value. */
  lemma EvalFieldsUnlisted(e: Expr, st: Type, i: nat)
    requires e.StructLit? && st.TStruct? && i < |st.fields|
    requires ItemIndex(e.fields, st.fields[i].name) == |e.fields|
    ensures EvalFields(e, st).Some? ==> EvalFields(e, st).value.members[i].value == Zero(st.fields[i].ty)
  {
  }

  /** A struct literal where a struct is expected means its keyed fields, or nothing when its prefix does not fit. */
  lemma EvalStructLitAt(e: Expr, st: Type, implied: bool)
    requires e.StructLit? && st.TStruct?
    ensures Eval(e, st, implied) == if PrefixOk(e.prefix, st, implied) then EvalFields(e, st) else None
  {
  }

  /** A struct with a set unexported field and no JSON codec is one such value. */
  lemma SkippedFieldExample()
    ensures var v := Struct(Some(TypeName("example.com/api", "Widget")), false,
                            [Member(Field("secret", false, TScalar(Int, None)), Scalar(Int, None, IntLit(5)))]);
      !Opaque(v) && Eval(GenerateValue(v, false), TypeOf(v), false) != Some(v)
  {
    var v := Struct(Some(TypeName("example.com/api", "Widget")), false,
                    [Member(Field("secret", false, TScalar(Int, None)), Scalar(Int, None, IntLit(5)))]);
    SkippedFieldLost(v, false, 0);
  }
}
