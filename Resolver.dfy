/**
 * The type resolver of lib/compiler/resolver.ts: `mapType`, the ordered
 * first-match chain that lowers a checker type to a type expression, with
 * `getTypeArgs`, `synthesizeMsg` and `seek`.
 *
 * `mapType` is a decision chain returning values; what it changes is the
 * resolver state: the `requires` set (kept in insertion order, as a
 * JavaScript `Set` iterates), the `artificialTypes` list and the counter that
 * gives each new message its identity. The chain is the function `MapTypeF`
 * threading that state; the loops of `getTypeArgs` and `synthesizeMsg` are
 * the methods of class `Resolver`, proved to compute the same as the
 * functions `TypeArgsF` and `SynthF`.
 *
 * The checker's type graph may be cyclic, so the chain carries a depth bound
 * `fuel`; a mapping that goes deeper fails, and, like every failure inside
 * `mapType`, gives `google.protobuf.Any`.
 */
module Resolver {
  import opened Wrappers
  import opened Strings
  import opened Base
  import opened Types
  import opened Udts
  import opened Ts

  /** A type expression with the option record that came with it (`TypeResolution`). */
  datatype Mapped = Mapped(ty: TypeExpr, attrs: Option<OptionMap>)

  /** The resolver state `mapType` changes. */
  datatype St = St(required: seq<TypeId>, artificial: seq<TypeDef>, nextId: nat)

  /** A value or a thrown error, with the state left behind either way. */
  datatype Out<T> = Out(r: Result<T>, st: St)

  /** No type is required twice. */
  predicate NoDup(ts: seq<TypeId>)
  {
    forall i, j :: 0 <= i < j < |ts| ==> ts[i] != ts[j]
  }

  /**
   * What `mapType` may do to the state: `requires` and `artificialTypes`
   * only grow at the end, `requires` stays free of duplicates, and every
   * message appended has a fresh identity, one handed out since.
   */
  predicate Extends(a: St, b: St)
  {
    a.required <= b.required && a.artificial <= b.artificial && a.nextId <= b.nextId
    && (NoDup(a.required) ==> NoDup(b.required))
    && forall i :: |a.artificial| <= i < |b.artificial| ==> a.nextId <= b.artificial[i].ref.id < b.nextId
  }

  lemma ExtendsTrans(a: St, b: St, c: St)
    requires Extends(a, b) && Extends(b, c)
    ensures Extends(a, c)
  {
    assert a.required == c.required[..|a.required|] by {
      assert b.required[..|a.required|] == c.required[..|b.required|][..|a.required|];
    }
    assert a.artificial == c.artificial[..|a.artificial|] by {
      assert b.artificial[..|a.artificial|] == c.artificial[..|b.artificial|][..|a.artificial|];
    }
    forall i | |a.artificial| <= i < |c.artificial|
      ensures a.nextId <= c.artificial[i].ref.id < c.nextId
    {
      if i < |b.artificial| {
        assert c.artificial[i] == b.artificial[i];
      }
    }
  }

  /** A new message for identity `st.nextId`, appended once its parameters are mapped. */
  lemma AppendExtends(st: St, mid: St, def: TypeDef)
    requires Extends(st.(nextId := st.nextId + 1), mid) && def.ref.id == st.nextId
    ensures Extends(st, mid.(artificial := mid.artificial + [def]))
  {
    var last := mid.(artificial := mid.artificial + [def]);
    assert mid.artificial <= last.artificial;
    forall i | |st.artificial| <= i < |last.artificial|
      ensures st.nextId <= last.artificial[i].ref.id < last.nextId
    {
      if i < |mid.artificial| {
        assert last.artificial[i] == mid.artificial[i];
      }
    }
  }

  /** The reference every failure maps to. */
  function AnyRef(source: Option<TypeId>): TypeExpr
  {
    TypeRef("google.protobuf.Any", TYPE_MESSAGE, source)
  }

  /** `requires.add(t)`: a `Set` keeps the first insertion's place. */
  function Require(st: St, t: TypeId): (r: St)
    ensures t in r.required && r.artificial == st.artificial && r.nextId == st.nextId
    ensures r.required == (if t in st.required then st.required else st.required + [t])
    ensures Extends(st, r)
  {
    if t in st.required then st else st.(required := st.required + [t])
  }

  /** The type of a symbol; where it is asked for does not change it in this model. */
  function SymType(c: Checker, s: Symbol): TypeId
  {
    SymbolOf(c, s).valueType
  }

  /** `ty.getProperty(name)`, when that property has a value declaration. */
  function Probe(c: Checker, t: TypeId, name: string): Option<Symbol>
  {
    match GetProperty(c, t, name)
    case Some(p) => if SymbolOf(c, p).hasValueDeclaration then Some(p) else None
    case None => None
  }

  /**
   * A member name `name$idx` is the name before the first `$` and the number
   * `parseInt` reads after it (`None` for NaN); any other name keeps number 0.
   */
  function SplitIndex(name: string): (r: (string, Option<int>))
    ensures '$' !in name ==> r == (name, Some(0))
    ensures '$' in name ==> '$' !in r.0 && StartsWith(name, r.0 + "$")
  {
    if '$' in name then
      var parts := Split(name, '$');
      SplitCons(name, '$', IndexOf(name, '$'));
      (parts[0], ParseInt(parts[1]))
    else (name, Some(0))
  }

  /** A field with `attrs` assigned onto its options, when there are any. */
  function WithAttrs(f: Field, attrs: Option<OptionMap>): (r: Field)
    ensures r.name == f.name && r.ty == f.ty && r.number == f.number
    ensures attrs.None? ==> r == f
  {
    if attrs.Some? then f.(options := AssignAll(f.options, Entries(attrs.value))) else f
  }

  // ------------------------------------------------------------------ chain

  /** What reading the name of a missing symbol throws. */
  const NoName := "Cannot read properties of undefined (reading 'name')"

  /** `mapType(ty)`, with the state it leaves; every failure gives `Any`. */
  function MapTypeF(c: Checker, cur: Option<NodeId>, st: St, t: TypeId, fuel: nat): (r: (Mapped, St))
    ensures Extends(st, r.1)
    ensures fuel == 0 ==> r.0 == Mapped(AnyRef(Some(t)), None)
    ensures !r.0.ty.DefType?
    decreases fuel, 0
  {
    if fuel == 0 then (Mapped(AnyRef(Some(t)), None), st)
    else
      var o := TryMap(c, cur, st, t, fuel - 1);
      match o.r
      case Ok(m) => (m, o.st)
      case Err(_) => (Mapped(AnyRef(Some(t)), None), o.st)
  }

  /** The body of `mapType`'s `try`: the rules in order, the first that applies deciding. */
  function TryMap(c: Checker, cur: Option<NodeId>, st: St, t: TypeId, fuel: nat): (r: Out<Mapped>)
    ensures Extends(st, r.st)
    ensures r.r.Ok? ==> !r.r.value.ty.DefType?
    decreases fuel, 9
  {
    var info := TypeOf(c, t);
    if info.symbol.Some? && SymbolOf(c, info.symbol.value).isEnum then
      var d := info.declaredType;
      var st1 := Require(st, d);
      match TypeOf(c, d).symbol
      case Some(ds) => Out(Ok(Mapped(TypeRef(ds.name, TYPE_ENUM, Some(d)), None)), st1)
      // Reading the name of a missing symbol throws, after `ty` was reassigned.
      case None => Out(Ok(Mapped(AnyRef(Some(d)), None)), st1)
    else if info.symbol.Some? && SymbolOf(c, info.symbol.value).isEnumMember then
      var st1 := Require(st, t);
      match info.symbol.value.parent
      case Some(p) => Out(Ok(Mapped(TypeRef(p.name, TYPE_ENUM, Some(t)), None)), st1)
      case None => Out(Err(NoName), st1)
    else if StringFlag in info.flags then Out(Ok(Mapped(BuiltinType(String), None)), st)
    else if NumberFlag in info.flags then Out(Ok(Mapped(BuiltinType(Double), None)), st)
    else if BooleanFlag in info.flags then Out(Ok(Mapped(BuiltinType(Bool), None)), st)
    else if VoidFlag in info.flags then Out(Ok(Mapped(TypeRef("google.protobuf.Empty", TYPE_MESSAGE, None), None)), st)
    else if AnyFlag in info.flags || UnknownFlag in info.flags then Out(Ok(Mapped(AnyRef(Some(t)), None)), st)
    else if info.union.Some? then UnionRule(c, cur, st, t, info.union.value, fuel)
    else ProbeRules(c, cur, st, t, fuel)
  }

  /** A union: one member maps as that member, a nullable type as optional, anything else as a oneof. */
  function UnionRule(c: Checker, cur: Option<NodeId>, st: St, t: TypeId, types: seq<TypeId>, fuel: nat): (r: Out<Mapped>)
    ensures Extends(st, r.st)
    ensures r.r.Ok? ==> !r.r.value.ty.DefType?
    decreases fuel, 8
  {
    if |types| == 1 then
      var (m, st1) := MapTypeF(c, cur, st, types[0], fuel);
      Out(Ok(m), st1)
    else
      var nonNull := TypeOf(c, t).nonNullable;
      if TypeOf(c, nonNull).union.None? then
        var (m, st1) := MapTypeF(c, cur, st, nonNull, fuel);
        Out(Ok(Mapped(OptionalType(m.ty), m.attrs)), st1)
      else
        var o := OneofMembers(c, cur, st, types, fuel);
        match o.r
        case Ok(fields) => Out(Ok(Mapped(OneofType(fields, NoOptions), None)), o.st)
        case Err(e) => Out(Err(e), o.st)
  }

  /** `ty.types.map(coerceToSingleFieldType)`: in order, stopping at the first member that throws. */
  function OneofMembers(c: Checker, cur: Option<NodeId>, st: St, types: seq<TypeId>, fuel: nat): (r: Out<seq<Field>>)
    ensures r.r.Ok? ==> |r.r.value| == |types|
    ensures Extends(st, r.st)
    decreases fuel, 7, |types|
  {
    if |types| == 0 then Out(Ok([]), st)
    else
      var o := OneofMember(c, cur, st, types[0], fuel);
      match o.r
      case Err(e) => Out(Err(e), o.st)
      case Ok(f) =>
        var rest := OneofMembers(c, cur, o.st, types[1..], fuel);
        ExtendsTrans(st, o.st, rest.st);
        match rest.r
        case Err(e) => Out(Err(e), rest.st)
        case Ok(fs) => Out(Ok([f] + fs), rest.st)
  }

  /** `coerceToSingleFieldType`: a member type must have exactly one property, which becomes the field. */
  function OneofMember(c: Checker, cur: Option<NodeId>, st: St, m: TypeId, fuel: nat): (r: Out<Field>)
    ensures Extends(st, r.st)
    decreases fuel, 6
  {
    var props := TypeOf(c, m).properties;
    if |props| != 1 then Out(Err("Oneof type must have exactly one member"), st)
    else
      var (mp, st1) := MapTypeF(c, cur, st, SymType(c, props[0]), fuel);
      var (name, idx) := SplitIndex(props[0].name);
      Out(Ok(WithAttrs(NewField(name, mp.ty, idx), mp.attrs)), st1)
  }

  /** The sentinel properties, in the order the source probes them. */
  function ProbeRules(c: Checker, cur: Option<NodeId>, st: St, t: TypeId, fuel: nat): (r: Out<Mapped>)
    ensures Extends(st, r.st)
    ensures r.r.Ok? ==> !r.r.value.ty.DefType?
    decreases fuel, 8
  {
    var rep := Probe(c, t, "__protobuf_rep");
    var opt := Probe(c, t, "__protobuf_opt");
    var mapKey := Probe(c, t, "__protobuf_map_key");
    var mapValue := if GetProperty(c, t, "__protobuf_map_key").Some? then Probe(c, t, "__protobuf_map_value") else None;
    var stream := Probe(c, t, "__protobuf_stream");
    var base := Probe(c, t, "__protobuf_base");
    var link := Probe(c, t, "__protobuf_link");
    if rep.Some? then
      var (m, st1) := MapTypeF(c, cur, st, SymType(c, rep.value), fuel);
      Out(Ok(Mapped(RepeatedType(m.ty), m.attrs)), st1)
    else if opt.Some? then
      var (m, st1) := MapTypeF(c, cur, st, SymType(c, opt.value), fuel);
      Out(Ok(Mapped(OptionalType(m.ty), m.attrs)), st1)
    else if mapKey.Some? && mapValue.Some? then
      var (k, st1) := MapTypeF(c, cur, st, SymType(c, mapKey.value), fuel);
      var (v, st2) := MapTypeF(c, cur, st1, SymType(c, mapValue.value), fuel);
      ExtendsTrans(st, st1, st2);
      Out(Ok(Mapped(MapType(k.ty, v.ty), None)), st2)
    else if stream.Some? then
      var (m, st1) := MapTypeF(c, cur, st, SymType(c, stream.value), fuel);
      Out(Ok(Mapped(StreamType(m.ty), m.attrs)), st1)
    else if base.Some? then
      var (m, st1) := MapTypeF(c, cur, st, SymType(c, base.value), fuel);
      match Probe(c, t, "__protobuf_ext")
      case Some(ext) =>
        var start := if m.attrs.Some? then m.attrs.value else NoOptions;
        Out(Ok(Mapped(m.ty, Some(ExtAttrs(c, start, TypeOf(c, SymType(c, ext)).properties)))), st1)
      case None => Out(Ok(m), st1)
    else if link.Some? then
      match TypeOf(c, SymType(c, link.value)).literal
      case StringLiteral(name) =>
        Out(Ok(Mapped(match FindBuiltin(name) case Some(b) => BuiltinType(b) case None => TypeRef(name, TYPE_MESSAGE, None), None)), st)
      case _ => Out(Err("Link name must be a string literal"), st)
    else SpecialRule(c, cur, st, t, fuel)
  }

  /** The literal an `Ext` option member's type stands for, if it is one of the kinds kept. */
  function ExtLiteral(c: Checker, v: TypeId): Option<Lit>
  {
    var info := TypeOf(c, v);
    if info.literal.StringLiteral? then Some(StrLit(info.literal.s))
    else if info.literal.NumberLiteral? then Some(NumLit(info.literal.n))
    else if v == c.trueType then Some(BoolLit(true))
    else if v == c.falseType then Some(BoolLit(false))
    else if info.literal.BigIntLiteral? then
      var magnitude: int := info.literal.magnitude;
      Some(BigLit(if info.literal.negative then -magnitude else magnitude))
    else None
  }

  /** `attrs[name] = value` for each member of the `Ext` option type whose type is a literal of a kept kind. */
  function ExtAttrs(c: Checker, attrs: OptionMap, members: seq<Symbol>): (r: OptionMap)
    decreases |members|
  {
    if |members| == 0 then attrs
    else
      var next: OptionMap := match ExtLiteral(c, SymType(c, members[0]))
        case Some(v) => SetOption(attrs, members[0].name, v)
        case None => attrs;
      ExtAttrs(c, next, members[1..])
  }

  /** The special-name table, on the name of the type's symbol. */
  function SpecialRule(c: Checker, cur: Option<NodeId>, st: St, t: TypeId, fuel: nat): (r: Out<Mapped>)
    ensures Extends(st, r.st)
    ensures r.r.Ok? ==> !r.r.value.ty.DefType?
    decreases fuel, 7
  {
    var info := TypeOf(c, t);
    var name := if info.symbol.Some? then Some(info.symbol.value.name) else None;
    match Special(name)
    case Some(ty) => Out(Ok(Mapped(ty, None)), st)
    case None =>
      if name == Some("Map") then
        var (args, st1) := TypeArgsF(c, cur, st, t, 2, fuel);
        Out(Ok(Mapped(MapType(args[0].ty, args[1].ty), None)), st1)
      else if name == Some("Set") then
        var (args, st1) := TypeArgsF(c, cur, st, t, 1, fuel);
        Out(Ok(Mapped(RepeatedType(args[0].ty), None)), st1)
      else if name == Some("Array") then
        match info.numberIndex
        case Some(elem) =>
          var (m, st1) := MapTypeF(c, cur, st, elem, fuel);
          Out(Ok(Mapped(RepeatedType(m.ty), None)), st1)
        case None =>
          var (args, st1) := TypeArgsF(c, cur, st, t, 1, fuel);
          Out(Ok(Mapped(RepeatedType(args[0].ty), None)), st1)
      else CallRule(c, cur, st, t, fuel)
  }

  /** The fixed entries of the special-name table. */
  function Special(name: Option<string>): Option<TypeExpr>
  {
    if name.None? then None
    else
      match name.value
      case "Number" => Some(BuiltinType(Double))
      case "BigInt" => Some(BuiltinType(Int64))
      case "String" => Some(BuiltinType(String))
      case "Boolean" => Some(BuiltinType(Bool))
      case "Date" => Some(TypeRef("google.protobuf.Timestamp", TYPE_MESSAGE, None))
      case "ArrayBuffer" => Some(BuiltinType(Bytes))
      case "Uint8Array" => Some(BuiltinType(Bytes))
      case "Int8Array" => Some(BuiltinType(Bytes))
      case "Uint32Array" => Some(RepeatedType(BuiltinType(Uint32)))
      case "Int32Array" => Some(RepeatedType(BuiltinType(Int32)))
      case "Uint64Array" => Some(RepeatedType(BuiltinType(Uint32)))
      case "BigUint64Array" => Some(RepeatedType(BuiltinType(Uint32)))
      case "Int64Array" => Some(RepeatedType(BuiltinType(Int64)))
      case "BigInt64Array" => Some(RepeatedType(BuiltinType(Int64)))
      case "Float32Array" => Some(RepeatedType(BuiltinType(Float)))
      case "Float64Array" => Some(RepeatedType(BuiltinType(Double)))
      case _ => None
  }

  /** A callable becomes an rpc; any other type with a symbol a message reference; the rest is unhandled. */
  function CallRule(c: Checker, cur: Option<NodeId>, st: St, t: TypeId, fuel: nat): (r: Out<Mapped>)
    ensures Extends(st, r.st)
    ensures r.r.Ok? ==> !r.r.value.ty.DefType?
    decreases fuel, 6
  {
    var info := TypeOf(c, t);
    if |info.callSignatures| > 0 then
      var sig := info.callSignatures[0];
      match info.symbol
      case None => Out(Err(NoName), st)
      case Some(sym) =>
        var o := SynthF(c, cur, st, sig.params, sym.name + "Request", Some(t), fuel);
        match o.r
        case Err(e) => Out(Err(e), o.st)
        case Ok(params) =>
          if VoidFlag in TypeOf(c, sig.returnType).flags then
            var o2 := SynthF(c, cur, o.st, [], sym.name + "Response", Some(t), fuel);
            ExtendsTrans(st, o.st, o2.st);
            match o2.r
            case Err(e) => Out(Err(e), o2.st)
            case Ok(ret) => Out(Ok(Mapped(RpcType(params, ret, NoOptions), None)), o2.st)
          else
            var (m, st2) := MapTypeF(c, cur, o.st, sig.returnType, fuel);
            ExtendsTrans(st, o.st, st2);
            Out(Ok(Mapped(RpcType(params, m.ty, NoOptions), None)), st2)
    else if info.symbol.Some? then
      Out(Ok(Mapped(TypeRef(info.symbol.value.name, TYPE_MESSAGE, Some(t)), None)), Require(st, t))
    else Out(Err("Unhandled type"), st)
  }

  // ------------------------------------------------------------ getTypeArgs

  /** `mapType` over a list, in order. */
  function MapAllF(c: Checker, cur: Option<NodeId>, st: St, ts: seq<TypeId>, fuel: nat): (r: (seq<Mapped>, St))
    ensures |r.0| == |ts|
    ensures Extends(st, r.1)
    decreases fuel, 4, |ts|
  {
    if |ts| == 0 then ([], st)
    else
      var (ms, st1) := MapAllF(c, cur, st, ts[..|ts| - 1], fuel);
      var (m, st2) := MapTypeF(c, cur, st1, ts[|ts| - 1], fuel);
      ExtendsTrans(st, st1, st2);
      (ms + [m], st2)
  }

  /** `result[i] = ...` for the first `|front|` places of `result`. */
  function Overwrite(result: seq<Mapped>, front: seq<Mapped>): (r: seq<Mapped>)
    ensures |r| == if |front| > |result| then |front| else |result|
    ensures forall i :: 0 <= i < |r| ==> r[i] == if i < |front| then front[i] else result[i]
  {
    if |front| >= |result| then front else front + result[|front|..]
  }

  /** The padding `getTypeArgs` adds: `google.protobuf.Any` references. */
  function Padding(k: nat): (r: seq<Mapped>)
    ensures |r| == k && forall i :: 0 <= i < k ==> r[i] == Mapped(AnyRef(None), None)
  {
    seq(k, i => Mapped(AnyRef(None), None))
  }

  function Min(a: nat, b: nat): nat
  {
    if a < b then a else b
  }

  /**
   * `getTypeArgs(ty, n)`: the checker's type arguments, or else those written
   * at the cursor's type reference, mapped, then padded to `n`.
   */
  function TypeArgsF(c: Checker, cur: Option<NodeId>, st: St, t: TypeId, n: nat, fuel: nat): (r: (seq<Mapped>, St))
    ensures |r.0| == n
    ensures Extends(st, r.1)
    decreases fuel, 5, 1
  {
    var args := TypeOf(c, t).typeArguments;
    // A throwing `getTypeArguments` leaves the result empty.
    var (first, st1) := if args.Some? then MapAllF(c, cur, st, args.value[..Min(n, |args.value|)], fuel) else ([], st);
    if |first| >= n then (first, st1)
    else
      var r2 := CursorArgs(c, cur, st1, first, n, fuel);
      ExtendsTrans(st, st1, r2.1);
      r2
  }

  /** The rest of `getTypeArgs`: the arguments written at the cursor's type reference overwrite the front, and `Any` pads to `n`. */
  function CursorArgs(c: Checker, cur: Option<NodeId>, st: St, first: seq<Mapped>, n: nat, fuel: nat): (r: (seq<Mapped>, St))
    requires |first| <= n
    ensures |r.0| == n
    ensures Extends(st, r.1)
    decreases fuel, 5, 0
  {
    var (result, st2) :=
      if cur.Some? && cur.value in c.nodeTypeArgs then
        var written := c.nodeTypeArgs[cur.value];
        var (front, st2) := MapAllF(c, cur, st, written[..Min(n, |written|)], fuel);
        (Overwrite(first, front), st2)
      else (first, st);
    (result + Padding(n - |result|), st2)
  }

  // ----------------------------------------------------------- synthesizeMsg

  /** What the parameter loop of `synthesizeMsg` has built: the body, its names and the two counters. */
  datatype Acc = Acc(body: seq<Stmt>, names: set<string>, artifIdx: nat, fieldIdx: nat)

  /** The field name of a parameter: its own name, or `a<k>` for the `k`-th unnamed one. */
  function ParamName(s: Symbol, artifIdx: nat): string
  {
    if s.name != "" then s.name else "a" + IntToString(artifIdx)
  }

  /** One parameter: named, mapped, numbered `++fieldIdx`, pushed, and given the attributes. */
  function ParamStep(c: Checker, cur: Option<NodeId>, st: St, acc: Acc, s: Symbol, fuel: nat): (r: Out<Acc>)
    ensures Extends(st, r.st)
    decreases fuel, 2
  {
    var (m, st1) := MapTypeF(c, cur, st, SymType(c, s), fuel);
    Pushed(acc, s, m, st1)
  }

  /** The parameter as a field, numbered `++fieldIdx`, pushed onto the body. */
  function Pushed(acc: Acc, s: Symbol, m: Mapped, st: St): (r: Out<Acc>)
    ensures r.st == st
  {
    var name := ParamName(s, acc.artifIdx);
    var artif := if s.name != "" then acc.artifIdx else acc.artifIdx + 1;
    var f := WithAttrs(NewField(name, m.ty, Some(acc.fieldIdx + 1)), m.attrs);
    match Push(acc.body, acc.names, FieldStmt(f))
    case Err(e) => Out(Err(e), st)
    case Ok((body, names)) => Out(Ok(Acc(body, names, artif, acc.fieldIdx + 1)), st)
  }

  /** The parameter loop, over the parameters in order, stopping at the first push that throws. */
  function ParamsF(c: Checker, cur: Option<NodeId>, st: St, syms: seq<Symbol>, fuel: nat): (r: Out<Acc>)
    ensures Extends(st, r.st)
    decreases fuel, 3, |syms|
  {
    if |syms| == 0 then Out(Ok(Acc([], {}, 0, 0)), st)
    else
      var o := ParamsF(c, cur, st, syms[..|syms| - 1], fuel);
      match o.r
      case Err(e) => Out(Err(e), o.st)
      case Ok(acc) =>
        var o2 := ParamStep(c, cur, o.st, acc, syms[|syms| - 1], fuel);
        ExtendsTrans(st, o.st, o2.st);
        o2
  }

  /** A new message named `name`, its identity the next one, with the parameters as its fields; it is appended to the artificial types. */
  function BuildMsg(c: Checker, cur: Option<NodeId>, st: St, syms: seq<Symbol>, name: string, source: Option<TypeId>, fuel: nat): (r: Out<TypeExpr>)
    ensures Extends(st, r.st)
    decreases fuel, 4
  {
    var ref := DefRef(st.nextId, MessageDef, name);
    var o := ParamsF(c, cur, st.(nextId := st.nextId + 1), syms, fuel);
    match o.r
    case Err(e) => Out(Err(e), o.st)
    case Ok(acc) =>
      var def := TypeDef(ref, source, NoOptions, acc.body, acc.names);
      AppendExtends(st, o.st, def);
      Out(Ok(DefType(ref)), o.st.(artificial := o.st.artificial + [def]))
  }

  /**
   * `synthesizeMsg(sym, name, sourceType)`. A single stream parameter makes
   * the source call itself on the same arguments without end, which is a
   * failure here; everything else builds a new message.
   */
  function SynthF(c: Checker, cur: Option<NodeId>, st: St, syms: seq<Symbol>, name: string, source: Option<TypeId>, fuel: nat): (r: Out<TypeExpr>)
    ensures Extends(st, r.st)
    decreases fuel, 5
  {
    if |syms| == 1 then
      var (m, st1) := MapTypeF(c, cur, st, SymType(c, syms[0]), fuel);
      // The source's test for a mapped message definition never holds: `mapType` gives no bare definition.
      if m.ty.StreamType? then Out(Err("Maximum call stack size exceeded"), st1)
      else
        var o := BuildMsg(c, cur, st1, syms, name, source, fuel);
        ExtendsTrans(st, st1, o.st);
        o
    else BuildMsg(c, cur, st, syms, name, source, fuel)
  }

  // ---------------------------------------------------------- loop steps

  lemma MapAllStep(c: Checker, cur: Option<NodeId>, st: St, ts: seq<TypeId>, i: nat, fuel: nat)
    requires i < |ts|
    ensures MapAllF(c, cur, st, ts[..i + 1], fuel) ==
      (MapAllF(c, cur, st, ts[..i], fuel).0 + [MapTypeF(c, cur, MapAllF(c, cur, st, ts[..i], fuel).1, ts[i], fuel).0],
       MapTypeF(c, cur, MapAllF(c, cur, st, ts[..i], fuel).1, ts[i], fuel).1)
  {
    assert ts[..i + 1][..i] == ts[..i];
    assert ts[..i + 1][i] == ts[i];
  }

  /** Writing one more entry at the front: an overwrite inside, an append at the end. */
  lemma OverwriteStep(result: seq<Mapped>, front: seq<Mapped>, m: Mapped)
    ensures Overwrite(result, front + [m]) ==
      if |front| < |Overwrite(result, front)| then Overwrite(result, front)[|front| := m]
      else Overwrite(result, front) + [m]
  {
    var a, b := Overwrite(result, front + [m]), Overwrite(result, front);
    if |front| < |b| {
      assert forall i :: 0 <= i < |a| ==> a[i] == b[|front| := m][i];
    } else {
      assert forall i :: 0 <= i < |a| ==> a[i] == (b + [m])[i];
    }
  }

  lemma PaddingStep(k: nat)
    ensures Padding(k + 1) == Padding(k) + [Mapped(AnyRef(None), None)]
  {
    assert forall i :: 0 <= i < k + 1 ==> Padding(k + 1)[i] == (Padding(k) + [Mapped(AnyRef(None), None)])[i];
  }

  lemma ParamsStep(c: Checker, cur: Option<NodeId>, st: St, syms: seq<Symbol>, i: nat, fuel: nat)
    requires i < |syms| && ParamsF(c, cur, st, syms[..i], fuel).r.Ok?
    ensures ParamsF(c, cur, st, syms[..i + 1], fuel) ==
      ParamStep(c, cur, ParamsF(c, cur, st, syms[..i], fuel).st, ParamsF(c, cur, st, syms[..i], fuel).r.value, syms[i], fuel)
  {
    assert syms[..i + 1][..i] == syms[..i];
    assert syms[..i + 1][i] == syms[i];
  }

  /** Once a parameter has thrown, the rest are never reached. */
  lemma {:induction false} ParamsStops(c: Checker, cur: Option<NodeId>, st: St, syms: seq<Symbol>, i: nat, fuel: nat)
    requires i <= |syms| && ParamsF(c, cur, st, syms[..i], fuel).r.Err?
    ensures ParamsF(c, cur, st, syms, fuel) == ParamsF(c, cur, st, syms[..i], fuel)
    decreases |syms| - i
  {
    if i < |syms| {
      assert syms[..i + 1][..i] == syms[..i];
      ParamsStops(c, cur, st, syms, i + 1, fuel);
    } else {
      assert syms[..i] == syms;
    }
  }

  // ------------------------------------------------------------ properties

  /** The number of unnamed parameters among `syms`. */
  function Unnamed(syms: seq<Symbol>): (r: nat)
    ensures r <= |syms|
  {
    if |syms| == 0 then 0
    else Unnamed(syms[..|syms| - 1]) + if syms[|syms| - 1].name == "" then 1 else 0
  }

  /** The field names `synthesizeMsg` gives the parameters: a parameter's own name, or `a0`, `a1`, ... for the unnamed ones in turn. */
  function FieldNames(syms: seq<Symbol>): (r: seq<string>)
    ensures |r| == |syms|
  {
    if |syms| == 0 then []
    else
      var pre := syms[..|syms| - 1];
      FieldNames(pre) + [ParamName(syms[|syms| - 1], Unnamed(pre))]
  }

  /** What the parameter loop has built from `syms` parameters named `names`: fields numbered 1, 2, ... in order. */
  ghost predicate Numbered(acc: Acc, names: seq<string>, unnamed: nat)
  {
    |acc.body| == |names| && acc.fieldIdx == |names| && acc.artifIdx == unnamed
    && (forall k :: k in acc.names <==> k in names)
    && forall i :: 0 <= i < |names| ==>
         acc.body[i].FieldStmt? && acc.body[i].field.name == names[i] && acc.body[i].field.number == i + 1
  }

  lemma NumberedStep(acc: Acc, names: seq<string>, unnamed: nat, s: Symbol, ty: TypeExpr, attrs: Option<OptionMap>, next: Acc)
    requires Numbered(acc, names, unnamed)
    requires var f := WithAttrs(NewField(ParamName(s, unnamed), ty, Some(acc.fieldIdx + 1)), attrs);
      Push(acc.body, acc.names, FieldStmt(f)) == Ok((next.body, next.names))
    requires next.fieldIdx == acc.fieldIdx + 1 && next.artifIdx == unnamed + if s.name == "" then 1 else 0
    ensures Numbered(next, names + [ParamName(s, unnamed)], next.artifIdx)
  {
    var f := WithAttrs(NewField(ParamName(s, unnamed), ty, Some(acc.fieldIdx + 1)), attrs);
    assert f.number == acc.fieldIdx + 1;
    var all := names + [ParamName(s, unnamed)];
    forall i | 0 <= i < |all|
      ensures next.body[i].FieldStmt? && next.body[i].field.name == all[i] && next.body[i].field.number == i + 1
    {
      if i < |names| {
        assert next.body[i] == acc.body[i];
      }
    }
  }

  lemma DistinctStep(names: seq<string>, k: string)
    ensures Distinct(names + [k]) <==> k !in names && Distinct(names)
  {
    assert (names + [k])[..|names|] == names;
  }

  /**
   * The parameter loop succeeds exactly when the field names are pairwise
   * distinct, and then its body is one field per parameter, in order,
   * numbered from 1, named as `FieldNames` says.
   */
  lemma {:induction false} ParamsShape(c: Checker, cur: Option<NodeId>, st: St, syms: seq<Symbol>, fuel: nat)
    ensures ParamsF(c, cur, st, syms, fuel).r.Ok? <==> Distinct(FieldNames(syms))
    ensures ParamsF(c, cur, st, syms, fuel).r.Ok? ==>
      Numbered(ParamsF(c, cur, st, syms, fuel).r.value, FieldNames(syms), Unnamed(syms))
    decreases |syms|
  {
    if |syms| > 0 {
      var pre, s := syms[..|syms| - 1], syms[|syms| - 1];
      ParamsShape(c, cur, st, pre, fuel);
      var o := ParamsF(c, cur, st, pre, fuel);
      DistinctStep(FieldNames(pre), ParamName(s, Unnamed(pre)));
      if o.r.Ok? {
        ShapeStep(c, cur, o.st, o.r.value, FieldNames(pre), Unnamed(pre), s, fuel);
      }
    }
  }

  /** One parameter more: the push succeeds exactly when its name is new, and then the body is numbered one further. */
  lemma ShapeStep(c: Checker, cur: Option<NodeId>, st: St, acc: Acc, names: seq<string>, unnamed: nat, s: Symbol, fuel: nat)
    requires Numbered(acc, names, unnamed)
    ensures ParamStep(c, cur, st, acc, s, fuel).r.Ok? <==> ParamName(s, unnamed) !in names
    ensures ParamStep(c, cur, st, acc, s, fuel).r.Ok? ==>
      Numbered(ParamStep(c, cur, st, acc, s, fuel).r.value, names + [ParamName(s, unnamed)], unnamed + if s.name == "" then 1 else 0)
  {
    var (m, st1) := MapTypeF(c, cur, st, SymType(c, s), fuel);
    PushedShape(acc, names, unnamed, s, m, st1);
  }

  lemma PushedShape(acc: Acc, names: seq<string>, unnamed: nat, s: Symbol, m: Mapped, st: St)
    requires Numbered(acc, names, unnamed)
    ensures Pushed(acc, s, m, st).r.Ok? <==> ParamName(s, unnamed) !in names
    ensures Pushed(acc, s, m, st).r.Ok? ==>
      Numbered(Pushed(acc, s, m, st).r.value, names + [ParamName(s, unnamed)], unnamed + if s.name == "" then 1 else 0)
  {
    var f := WithAttrs(NewField(ParamName(s, acc.artifIdx), m.ty, Some(acc.fieldIdx + 1)), m.attrs);
    assert NameOf(FieldStmt(f)) == ParamName(s, unnamed);
    match Push(acc.body, acc.names, FieldStmt(f))
    case Err(_) =>
    case Ok((body, ns)) =>
      var next := Acc(body, ns, if s.name != "" then acc.artifIdx else acc.artifIdx + 1, acc.fieldIdx + 1);
      NumberedStep(acc, names, unnamed, s, m.ty, m.attrs, next);
  }

  /**
   * With zero or several parameters `synthesizeMsg` makes a new message, of
   * the next identity and `name`, whose fields are the parameters numbered from 1,
   * and appends it to the artificial types.
   */
  lemma SynthBuilds(c: Checker, cur: Option<NodeId>, st: St, syms: seq<Symbol>, name: string, source: Option<TypeId>, fuel: nat)
    requires |syms| != 1
    ensures var o := SynthF(c, cur, st, syms, name, source, fuel);
      (o.r.Ok? <==> Distinct(FieldNames(syms)))
      && (o.r.Ok? ==>
        var ref := DefRef(st.nextId, MessageDef, name);
        o.r.value == DefType(ref) && |o.st.artificial| > 0
        && var def := o.st.artificial[|o.st.artificial| - 1];
        def.ref == ref && def.source == source
        && Numbered(Acc(def.body, def.names, Unnamed(syms), |syms|), FieldNames(syms), Unnamed(syms)))
  {
    ParamsShape(c, cur, st.(nextId := st.nextId + 1), syms, fuel);
  }

  /**
   * `mapType` never gives a bare definition, so a single parameter is never
   * taken as the message itself: a stream parameter fails and any other is
   * wrapped in a new message, as several parameters are.
   */
  lemma SynthSingle(c: Checker, cur: Option<NodeId>, st: St, syms: seq<Symbol>, name: string, source: Option<TypeId>, fuel: nat)
    requires |syms| == 1
    ensures var o := MapTypeF(c, cur, st, SymType(c, syms[0]), fuel);
      !o.0.ty.DefType?
      && (o.0.ty.StreamType? ==> SynthF(c, cur, st, syms, name, source, fuel) == Out(Err("Maximum call stack size exceeded"), o.1))
      && (!o.0.ty.StreamType? ==> SynthF(c, cur, st, syms, name, source, fuel) == BuildMsg(c, cur, o.1, syms, name, source, fuel))
  {
  }

  /** `getTypeArgs(ty, n)`: when the checker gives at least `n` arguments, they are the first `n` of them, mapped. */
  lemma TypeArgsChecker(c: Checker, cur: Option<NodeId>, st: St, t: TypeId, n: nat, fuel: nat)
    requires TypeOf(c, t).typeArguments.Some? && |TypeOf(c, t).typeArguments.value| >= n
    ensures TypeArgsF(c, cur, st, t, n, fuel) == MapAllF(c, cur, st, TypeOf(c, t).typeArguments.value[..n], fuel)
  {
  }

  /**
   * Every place neither the checker's arguments nor the arguments written
   * at the cursor fill is a `google.protobuf.Any` reference.
   */
  lemma TypeArgsPadding(c: Checker, cur: Option<NodeId>, st: St, t: TypeId, n: nat, fuel: nat)
    ensures var args := TypeOf(c, t).typeArguments;
      var given := if args.Some? then Min(n, |args.value|) else 0;
      var written := if cur.Some? && cur.value in c.nodeTypeArgs then Min(n, |c.nodeTypeArgs[cur.value]|) else 0;
      forall i :: given <= i < n && written <= i ==> TypeArgsF(c, cur, st, t, n, fuel).0[i] == Mapped(AnyRef(None), None)
  {
  }

  /** An enum maps to an enum reference to its declared type, which becomes required. */
  lemma EnumRule(c: Checker, cur: Option<NodeId>, st: St, t: TypeId, fuel: nat)
    requires TypeOf(c, t).symbol.Some? && SymbolOf(c, TypeOf(c, t).symbol.value).isEnum
    ensures var d := TypeOf(c, t).declaredType;
      var r := MapTypeF(c, cur, st, t, fuel + 1);
      d in r.1.required && r.1.artificial == st.artificial
      && r.0.ty.TypeRef? && r.0.ty.source == Some(d)
      && (TypeOf(c, d).symbol.Some? ==> r.0.ty == TypeRef(TypeOf(c, d).symbol.value.name, TYPE_ENUM, Some(d)))
  {
  }

  /** The basic flags, checked after the enum rules and in this order. */
  lemma BasicRules(c: Checker, cur: Option<NodeId>, st: St, t: TypeId, fuel: nat)
    requires var info := TypeOf(c, t); info.symbol.None? || !(SymbolOf(c, info.symbol.value).isEnum || SymbolOf(c, info.symbol.value).isEnumMember)
    ensures var flags, r := TypeOf(c, t).flags, MapTypeF(c, cur, st, t, fuel + 1);
      (StringFlag in flags ==> r == (Mapped(BuiltinType(String), None), st))
      && (StringFlag !in flags && NumberFlag in flags ==> r == (Mapped(BuiltinType(Double), None), st))
      && (StringFlag !in flags && NumberFlag !in flags && BooleanFlag in flags ==> r == (Mapped(BuiltinType(Bool), None), st))
  {
  }

  /** Every failure inside the chain gives `google.protobuf.Any` for the type asked about, keeping the state reached. */
  lemma FailureGivesAny(c: Checker, cur: Option<NodeId>, st: St, t: TypeId, fuel: nat)
    requires TryMap(c, cur, st, t, fuel).r.Err?
    ensures MapTypeF(c, cur, st, t, fuel + 1) == (Mapped(AnyRef(Some(t)), None), TryMap(c, cur, st, t, fuel).st)
  {
  }

  /** A oneof member type with other than one property makes the whole union `Any`. */
  lemma BadOneofMember(c: Checker, cur: Option<NodeId>, st: St, types: seq<TypeId>, fuel: nat)
    requires |types| > 0 && |TypeOf(c, types[0]).properties| != 1
    ensures OneofMembers(c, cur, st, types, fuel).r.Err?
  {
  }

  /** The typed arrays of the special-name table, as written. */
  lemma TypedArrays()
    ensures Special(Some("Uint64Array")) == Some(RepeatedType(BuiltinType(Uint32)))
    ensures Special(Some("BigUint64Array")) == Some(RepeatedType(BuiltinType(Uint32)))
    ensures Special(Some("Int64Array")) == Some(RepeatedType(BuiltinType(Int64)))
    ensures Special(Some("Int8Array")) == Some(BuiltinType(Bytes))
    ensures Special(Some("Date")) == Some(TypeRef("google.protobuf.Timestamp", TYPE_MESSAGE, None))
    ensures Special(Some("Map")) == None && Special(Some("Set")) == None && Special(Some("Array")) == None
  {
  }

  // ---------------------------------------------------------------- class

  /** The resolver: the cursor `seek` moves, and the state `mapType` grows. */
  class Resolver {
    const checker: Checker
    var cursor: Option<NodeId>
    var required: seq<TypeId>
    var artificial: seq<TypeDef>
    var nextId: nat

    function State(): St
      reads this
    {
      St(required, artificial, nextId)
    }

    /** A resolver over `checker`, handing out identities from `firstId`. */
    constructor (c: Checker, firstId: nat)
      ensures checker == c && cursor == None && State() == St([], [], firstId)
    {
      checker := c;
      cursor := None;
      required, artificial, nextId := [], [], firstId;
    }

    method SetState(st: St)
      modifies this
      ensures State() == st && cursor == old(cursor)
    {
      required, artificial, nextId := st.required, st.artificial, st.nextId;
    }

    /** A fresh identity for a definition made outside `mapType`: the identity of a new `TypeDef` object. */
    method FreshId() returns (id: nat)
      modifies this
      ensures id == old(nextId) && State() == old(State()).(nextId := id + 1) && cursor == old(cursor)
    {
      id := nextId;
      nextId := nextId + 1;
    }

    /** `mapType(ty)` at the current cursor. */
    method MapType(t: TypeId, fuel: nat) returns (m: Mapped)
      modifies this
      ensures (m, State()) == MapTypeF(checker, cursor, old(State()), t, fuel)
      ensures cursor == old(cursor)
    {
      var r := MapTypeF(checker, cursor, State(), t, fuel);
      m := r.0;
      SetState(r.1);
    }

    /** `seek(node, () => mapType(ty))`: maps at `node` when there is one and puts the cursor back. */
    method SeekMap(node: Option<NodeId>, t: TypeId, fuel: nat) returns (m: Mapped)
      modifies this
      ensures (m, State()) == MapTypeF(checker, if node.Some? then node else old(cursor), old(State()), t, fuel)
      ensures cursor == old(cursor)
    {
      if node.None? {
        m := MapType(t, fuel);
        return;
      }
      var prev := cursor;
      cursor := node;
      m := MapType(t, fuel);
      cursor := prev;
    }

    /** The last loop of `getTypeArgs`: `google.protobuf.Any` up to `n` entries. */
    static method Pad(filled: seq<Mapped>, n: nat) returns (result: seq<Mapped>)
      requires |filled| <= n
      ensures result == filled + Padding(n - |filled|)
    {
      result := filled;
      var i := |result|;
      while i < n
        invariant |filled| <= i <= n
        invariant result == filled + Padding(i - |filled|)
      {
        PaddingStep(i - |filled|);
        result := result + [Mapped(AnyRef(None), None)];
        i := i + 1;
      }
    }

    /** `mapType` on each of `ts` in turn. */
    method MapAll(ts: seq<TypeId>, fuel: nat) returns (result: seq<Mapped>)
      modifies this
      ensures (result, State()) == MapAllF(checker, cursor, old(State()), ts, fuel)
      ensures cursor == old(cursor)
    {
      ghost var st0 := State();
      result := [];
      for i := 0 to |ts|
        invariant (result, State()) == MapAllF(checker, cursor, st0, ts[..i], fuel)
        invariant cursor == old(cursor)
      {
        MapAllStep(checker, cursor, st0, ts, i, fuel);
        var m := MapType(ts[i], fuel);
        result := result + [m];
      }
      assert ts[..|ts|] == ts;
    }

    /** `result[i] = mapType(ts[i])` for each `i` in turn. */
    method OverwriteAll(first: seq<Mapped>, ts: seq<TypeId>, fuel: nat) returns (result: seq<Mapped>)
      modifies this
      ensures result == Overwrite(first, MapAllF(checker, cursor, old(State()), ts, fuel).0)
      ensures State() == MapAllF(checker, cursor, old(State()), ts, fuel).1
      ensures cursor == old(cursor)
    {
      ghost var st0 := State();
      result := first;
      for i := 0 to |ts|
        invariant result == Overwrite(first, MapAllF(checker, cursor, st0, ts[..i], fuel).0)
        invariant State() == MapAllF(checker, cursor, st0, ts[..i], fuel).1
        invariant cursor == old(cursor)
      {
        MapAllStep(checker, cursor, st0, ts, i, fuel);
        OverwriteStep(first, MapAllF(checker, cursor, st0, ts[..i], fuel).0, MapTypeF(checker, cursor, State(), ts[i], fuel).0);
        var m := MapType(ts[i], fuel);
        if i < |result| {
          result := result[i := m];
        } else {
          result := result + [m];
        }
      }
      assert ts[..|ts|] == ts;
    }

    /** `getTypeArgs(ty, n)`. */
    method GetTypeArgs(t: TypeId, n: nat, fuel: nat) returns (result: seq<Mapped>)
      modifies this
      ensures (result, State()) == TypeArgsF(checker, cursor, old(State()), t, n, fuel)
      ensures cursor == old(cursor)
    {
      var args := TypeOf(checker, t).typeArguments;
      if args.Some? {
        result := MapAll(args.value[..Min(n, |args.value|)], fuel);
      } else {
        result := [];
      }
      if |result| >= n {
        return;
      }
      result := FromCursor(result, n, fuel);
    }

    /** The part of `getTypeArgs` after the checker's arguments fell short. */
    method FromCursor(first: seq<Mapped>, n: nat, fuel: nat) returns (result: seq<Mapped>)
      requires |first| <= n
      modifies this
      ensures (result, State()) == CursorArgs(checker, cursor, old(State()), first, n, fuel)
      ensures cursor == old(cursor)
    {
      result := first;
      if cursor.Some? && cursor.value in checker.nodeTypeArgs {
        var written := checker.nodeTypeArgs[cursor.value];
        result := OverwriteAll(result, written[..Min(n, |written|)], fuel);
      }
      result := Pad(result, n);
    }

    /** One parameter of `synthesizeMsg`: named, mapped, numbered, pushed, given its attributes. */
    method AddParam(acc: Acc, s: Symbol, fuel: nat) returns (r: Result<Acc>)
      modifies this
      ensures Out(r, State()) == ParamStep(checker, cursor, old(State()), acc, s, fuel)
      ensures cursor == old(cursor)
    {
      var artifIdx, fieldIdx := acc.artifIdx, acc.fieldIdx;
      var name := ParamName(s, artifIdx);
      if s.name == "" {
        artifIdx := artifIdx + 1;
      }
      var m := MapType(SymType(checker, s), fuel);
      fieldIdx := fieldIdx + 1;
      var f := WithAttrs(NewField(name, m.ty, Some(fieldIdx)), m.attrs);
      match Push(acc.body, acc.names, FieldStmt(f))
      case Err(e) =>
        r := Err(e);
      case Ok((body, names)) =>
        r := Ok(Acc(body, names, artifIdx, fieldIdx));
      assert Out(r, State()) == Pushed(acc, s, m, State());
    }

    /** The parameter loop of `synthesizeMsg`, stopping at the first push that throws. */
    method Params(syms: seq<Symbol>, fuel: nat) returns (r: Result<Acc>)
      modifies this
      ensures Out(r, State()) == ParamsF(checker, cursor, old(State()), syms, fuel)
      ensures cursor == old(cursor)
    {
      ghost var st0 := State();
      var acc := Acc([], {}, 0, 0);
      for i := 0 to |syms|
        invariant ParamsF(checker, cursor, st0, syms[..i], fuel) == Out(Ok(acc), State())
        invariant cursor == old(cursor)
      {
        ParamsStep(checker, cursor, st0, syms, i, fuel);
        var next := AddParam(acc, syms[i], fuel);
        match next
        case Err(e) =>
          ParamsStops(checker, cursor, st0, syms, i + 1, fuel);
          return Err(e);
        case Ok(a) =>
          acc := a;
      }
      assert syms[..|syms|] == syms;
      r := Ok(acc);
    }

    /** A new message of the next identity, filled by the parameter loop, then appended to the artificial types. */
    method NewMessage(syms: seq<Symbol>, name: string, source: Option<TypeId>, fuel: nat) returns (r: Result<TypeExpr>)
      modifies this
      ensures Out(r, State()) == BuildMsg(checker, cursor, old(State()), syms, name, source, fuel)
      ensures cursor == old(cursor)
    {
      ghost var st0 := State();
      var ref := DefRef(nextId, MessageDef, name);
      nextId := nextId + 1;
      var params := Params(syms, fuel);
      ghost var o := ParamsF(checker, cursor, st0.(nextId := st0.nextId + 1), syms, fuel);
      assert params == o.r && State() == o.st;
      match params
      case Err(e) =>
        r := Err(e);
      case Ok(acc) =>
        artificial := artificial + [TypeDef(ref, source, NoOptions, acc.body, acc.names)];
        r := Ok(DefType(ref));
    }

    /** `synthesizeMsg(sym, name, sourceType)`. */
    method SynthesizeMsg(syms: seq<Symbol>, name: string, source: Option<TypeId>, fuel: nat) returns (r: Result<TypeExpr>)
      modifies this
      ensures Out(r, State()) == SynthF(checker, cursor, old(State()), syms, name, source, fuel)
      ensures cursor == old(cursor)
    {
      if |syms| == 1 {
        var m := MapType(SymType(checker, syms[0]), fuel);
        if m.ty.StreamType? {
          return Err("Maximum call stack size exceeded");
        }
      }
      r := NewMessage(syms, name, source, fuel);
    }
  }
}
