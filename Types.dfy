/**
 * Type expressions (lib/proto/types.ts, with the oneof and rpc expressions
 * and the type-definition predicates of lib/proto/udts.ts): the closed sum of
 * builtin, named reference, defined type, map, stream, repeated, optional,
 * oneof and rpc, with `print`, `comparable`, `normal`, `kind` and `inner`.
 */
module Types {
  import opened Wrappers
  import opened Strings
  import opened Base

  /** The `Builtin` enum: ordinals 0..14 in this order. */
  datatype Builtin =
    | Int32 | Int64 | Uint32 | Uint64 | Sint32 | Sint64 | Fixed32 | Fixed64
    | Sfixed32 | Sfixed64 | Bool | String | Double | Float | Bytes

  /** `Builtin.MAX`. */
  const MAX: nat := 15

  function Ordinal(b: Builtin): nat
  {
    match b
    case Int32 => 0 case Int64 => 1 case Uint32 => 2 case Uint64 => 3
    case Sint32 => 4 case Sint64 => 5 case Fixed32 => 6 case Fixed64 => 7
    case Sfixed32 => 8 case Sfixed64 => 9 case Bool => 10 case String => 11
    case Double => 12 case Float => 13 case Bytes => 14
  }

  /** The proto name of a builtin type. */
  function BuiltinName(b: Builtin): string
  {
    match b
    case Int32 => "int32" case Int64 => "int64" case Uint32 => "uint32" case Uint64 => "uint64"
    case Sint32 => "sint32" case Sint64 => "sint64" case Fixed32 => "fixed32" case Fixed64 => "fixed64"
    case Sfixed32 => "sfixed32" case Sfixed64 => "sfixed64" case Bool => "bool" case String => "string"
    case Double => "double" case Float => "float" case Bytes => "bytes"
  }

  /** The wire kind of a builtin type. */
  function BuiltinKind(b: Builtin): TypeKind
  {
    match b
    case Int32 => TYPE_INT32 case Int64 => TYPE_INT64 case Uint32 => TYPE_UINT32 case Uint64 => TYPE_UINT64
    case Sint32 => TYPE_SINT32 case Sint64 => TYPE_SINT64 case Fixed32 => TYPE_FIXED32 case Fixed64 => TYPE_FIXED64
    case Sfixed32 => TYPE_SFIXED32 case Sfixed64 => TYPE_SFIXED64 case Bool => TYPE_BOOL case String => TYPE_STRING
    case Double => TYPE_DOUBLE case Float => TYPE_FLOAT case Bytes => TYPE_BYTES
  }

  /** The three builtins that cannot be map keys (`nonComparable`). */
  predicate NonComparableName(name: string)
  {
    name == "double" || name == "float" || name == "bytes"
  }

  /** The three kinds of type a definition can be. */
  datatype DefKind = MessageDef | EnumDef | ServiceDef

  /** A type definition used as a type: its identity, its kind and its name. */
  datatype DefRef = DefRef(id: nat, kind: DefKind, name: string)

  datatype TypeExpr =
    | BuiltinType(b: Builtin)
    /** A named reference; `source` is the checker type it stands for, when known. */
    | TypeRef(name: string, kind: TypeKind, source: Option<nat>)
    | DefType(def: DefRef)
    | MapType(key: TypeExpr, value: TypeExpr)
    | StreamType(elem: TypeExpr)
    | RepeatedType(elem: TypeExpr)
    | OptionalType(elem: TypeExpr)
    | OneofType(fields: seq<Field>, options: OptionMap)
    | RpcType(input: TypeExpr, output: TypeExpr, options: OptionMap)

  /** A `SimpleFieldDef`: a name, a type, a number (0 while unassigned) and options. */
  datatype Field = Field(name: string, ty: TypeExpr, number: int, options: OptionMap)

  /** The `Builtins` list. */
  const Builtins: seq<TypeExpr> := [
    BuiltinType(Int32), BuiltinType(Int64), BuiltinType(Uint32), BuiltinType(Uint64),
    BuiltinType(Sint32), BuiltinType(Sint64), BuiltinType(Fixed32), BuiltinType(Fixed64),
    BuiltinType(Sfixed32), BuiltinType(Sfixed64), BuiltinType(Bool), BuiltinType(String),
    BuiltinType(Double), BuiltinType(Float), BuiltinType(Bytes)]

  /** ASCII upper case of one character. */
  function UpperChar(c: char): char
  {
    if 'a' <= c <= 'z' then (c as int - 32) as char else c
  }

  /** ASCII upper case. */
  function Upper(s: string): (r: string)
    ensures |r| == |s|
    ensures forall i :: 0 <= i < |s| ==> r[i] == UpperChar(s[i])
  {
    seq(|s|, i requires 0 <= i < |s| => UpperChar(s[i]))
  }

  /**
   * The list has `MAX` entries, entry `i` is the builtin of ordinal `i`, no
   * name occurs twice, and each kind is `TYPE_` and the upper-cased name.
   */
  lemma BuiltinsTable()
    ensures |Builtins| == MAX
    ensures forall b: Builtin :: 0 <= Ordinal(b) < MAX && Builtins[Ordinal(b)] == BuiltinType(b)
    ensures forall b: Builtin, c: Builtin :: BuiltinName(b) == BuiltinName(c) ==> b == c
    ensures forall b: Builtin :: KindName(BuiltinKind(b)) == "TYPE_" + Upper(BuiltinName(b))
  {
    OrdinalsListed();
    forall b: Builtin, c: Builtin | BuiltinName(b) == BuiltinName(c) ensures b == c {
      NameDetermines(b, c);
    }
    forall b: Builtin ensures KindName(BuiltinKind(b)) == "TYPE_" + Upper(BuiltinName(b)) {
      UpperName(b);
    }
  }

  lemma NameDetermines(b: Builtin, c: Builtin)
    requires BuiltinName(b) == BuiltinName(c)
    ensures b == c
  {
    assert Ordinal(b) == Ordinal(c) by {
      assert KindName(BuiltinKind(b)) == KindName(BuiltinKind(c)) by {
        UpperName(b);
        UpperName(c);
      }
    }
  }

  lemma UpperName(b: Builtin)
    ensures KindName(BuiltinKind(b)) == "TYPE_" + Upper(BuiltinName(b))
  {
    match b
    case Int32 => UpperInt32();
    case Int64 => UpperInt64();
    case Uint32 => UpperUint32();
    case Uint64 => UpperUint64();
    case Sint32 => UpperSint32();
    case Sint64 => UpperSint64();
    case Fixed32 => UpperFixed32();
    case Fixed64 => UpperFixed64();
    case Sfixed32 => UpperSfixed32();
    case Sfixed64 => UpperSfixed64();
    case Bool => UpperBool();
    case String => UpperString();
    case Double => UpperDouble();
    case Float => UpperFloat();
    case Bytes => UpperBytes();
  }

  lemma UpperInt32() ensures KindName(BuiltinKind(Int32)) == "TYPE_" + Upper(BuiltinName(Int32)) { assert Upper(BuiltinName(Int32)) == "INT32"; }
  lemma UpperInt64() ensures KindName(BuiltinKind(Int64)) == "TYPE_" + Upper(BuiltinName(Int64)) { assert Upper(BuiltinName(Int64)) == "INT64"; }
  lemma UpperUint32() ensures KindName(BuiltinKind(Uint32)) == "TYPE_" + Upper(BuiltinName(Uint32)) { assert Upper(BuiltinName(Uint32)) == "UINT32"; }
  lemma UpperUint64() ensures KindName(BuiltinKind(Uint64)) == "TYPE_" + Upper(BuiltinName(Uint64)) { assert Upper(BuiltinName(Uint64)) == "UINT64"; }
  lemma UpperSint32() ensures KindName(BuiltinKind(Sint32)) == "TYPE_" + Upper(BuiltinName(Sint32)) { assert Upper(BuiltinName(Sint32)) == "SINT32"; }
  lemma UpperSint64() ensures KindName(BuiltinKind(Sint64)) == "TYPE_" + Upper(BuiltinName(Sint64)) { assert Upper(BuiltinName(Sint64)) == "SINT64"; }
  lemma UpperFixed32() ensures KindName(BuiltinKind(Fixed32)) == "TYPE_" + Upper(BuiltinName(Fixed32)) { assert Upper(BuiltinName(Fixed32)) == "FIXED32"; }
  lemma UpperFixed64() ensures KindName(BuiltinKind(Fixed64)) == "TYPE_" + Upper(BuiltinName(Fixed64)) { assert Upper(BuiltinName(Fixed64)) == "FIXED64"; }
  lemma UpperSfixed32() ensures KindName(BuiltinKind(Sfixed32)) == "TYPE_" + Upper(BuiltinName(Sfixed32)) { assert Upper(BuiltinName(Sfixed32)) == "SFIXED32"; }
  lemma UpperSfixed64() ensures KindName(BuiltinKind(Sfixed64)) == "TYPE_" + Upper(BuiltinName(Sfixed64)) { assert Upper(BuiltinName(Sfixed64)) == "SFIXED64"; }
  lemma UpperBool() ensures KindName(BuiltinKind(Bool)) == "TYPE_" + Upper(BuiltinName(Bool)) { assert Upper(BuiltinName(Bool)) == "BOOL"; }
  lemma UpperString() ensures KindName(BuiltinKind(String)) == "TYPE_" + Upper(BuiltinName(String)) { assert Upper(BuiltinName(String)) == "STRING"; }
  lemma UpperDouble() ensures KindName(BuiltinKind(Double)) == "TYPE_" + Upper(BuiltinName(Double)) { assert Upper(BuiltinName(Double)) == "DOUBLE"; }
  lemma UpperFloat() ensures KindName(BuiltinKind(Float)) == "TYPE_" + Upper(BuiltinName(Float)) { assert Upper(BuiltinName(Float)) == "FLOAT"; }
  lemma UpperBytes() ensures KindName(BuiltinKind(Bytes)) == "TYPE_" + Upper(BuiltinName(Bytes)) { assert Upper(BuiltinName(Bytes)) == "BYTES"; }

  /** The builtin of a name, looked up in the list (`Builtins.find(b => b.name === name)`). */
  function FindBuiltin(name: string): (r: Option<Builtin>)
    ensures r.Some? ==> BuiltinName(r.value) == name
    ensures r.None? ==> forall b: Builtin :: BuiltinName(b) != name
  {
    OrdinalsListed();
    FindFrom(name, 0)
  }

  lemma OrdinalsListed()
    ensures |Builtins| == MAX
    ensures forall b: Builtin :: 0 <= Ordinal(b) < MAX && Builtins[Ordinal(b)] == BuiltinType(b)
  {
    forall b: Builtin ensures 0 <= Ordinal(b) < MAX && Builtins[Ordinal(b)] == BuiltinType(b) {
      OrdinalListed(b);
    }
  }

  lemma OrdinalListed(b: Builtin)
    ensures 0 <= Ordinal(b) < |Builtins| && Builtins[Ordinal(b)] == BuiltinType(b)
  {
    match b
    case _ =>
  }

  function FindFrom(name: string, i: nat): (r: Option<Builtin>)
    requires i <= |Builtins|
    requires forall b: Builtin :: 0 <= Ordinal(b) < |Builtins| && Builtins[Ordinal(b)] == BuiltinType(b)
    ensures r.Some? ==> BuiltinName(r.value) == name
    ensures r.None? ==> forall b: Builtin :: Ordinal(b) >= i ==> BuiltinName(b) != name
    decreases |Builtins| - i
  {
    if i == |Builtins| then None
    else if BuiltinName(Builtins[i].b) == name then Some(Builtins[i].b)
    else
      var r := FindFrom(name, i + 1);
      assert forall b: Builtin :: Ordinal(b) == i ==> Builtins[i] == BuiltinType(b);
      r
  }

  // ---------------------------------------------------------------------
  // The getters of every type expression.

  /** `comparable`: usable as a map key. */
  predicate Comparable(t: TypeExpr)
  {
    match t
    case BuiltinType(b) => !NonComparableName(BuiltinName(b))
    case DefType(d) => d.kind == EnumDef
    case _ => false
  }

  /** `normal`: usable as the type of a plain field. */
  predicate Normal(t: TypeExpr)
  {
    match t
    case BuiltinType(_) => true
    case TypeRef(_, _, _) => true
    case DefType(d) => d.kind != ServiceDef
    case _ => false
  }

  /** `kind`: the wire kind, `Err` where the getter throws. */
  function Kind(t: TypeExpr): Result<TypeKind>
  {
    match t
    case BuiltinType(b) => Ok(BuiltinKind(b))
    case TypeRef(_, k, _) => Ok(k)
    case DefType(d) =>
      (match d.kind
       case MessageDef => Ok(TYPE_MESSAGE)
       case EnumDef => Ok(TYPE_ENUM)
       case ServiceDef => Err("Services are not types."))
    case OneofType(_, _) => Err("This is a special type.")
    case RpcType(_, _, _) => Err("This is a special type.")
    case _ => Err("This is a complex type.")
  }

  /** `inner`: the component types, in order. */
  function Inner(t: TypeExpr): seq<TypeExpr>
  {
    match t
    case MapType(k, v) => [k, v]
    case StreamType(e) => [e]
    case RepeatedType(e) => [e]
    case OptionalType(e) => [e]
    case OneofType(fields, _) => seq(|fields|, i requires 0 <= i < |fields| => fields[i].ty)
    case RpcType(a, b, _) => [a, b]
    case _ => []
  }

  /** A type has a kind exactly when it is normal. */
  lemma KindIffNormal(t: TypeExpr)
    ensures Kind(t).Ok? <==> Normal(t)
  {
  }

  /** Only enums and the integral, bool and string builtins are comparable, and all of them have a kind. */
  lemma ComparableKinds(t: TypeExpr)
    ensures Comparable(t) ==> Normal(t) && Kind(t).Ok?
    ensures Comparable(t) ==> Kind(t).value !in {TYPE_DOUBLE, TYPE_FLOAT, TYPE_BYTES, TYPE_MESSAGE}
    ensures t.BuiltinType? ==> (Comparable(t) <==> Kind(t).value !in {TYPE_DOUBLE, TYPE_FLOAT, TYPE_BYTES})
  {
  }

  /** The map and wrapper types are neither comparable nor normal and have no kind; oneof and rpc likewise. */
  lemma ComplexHasNoKind(t: TypeExpr)
    requires t.MapType? || t.StreamType? || t.RepeatedType? || t.OptionalType? || t.OneofType? || t.RpcType?
    ensures !Comparable(t) && !Normal(t) && Kind(t).Err?
  {
  }

  /** `key` and `value` of a map are its first and second inner types; each wrapper has one inner type. */
  lemma InnerShape(t: TypeExpr)
    ensures t.MapType? ==> |Inner(t)| == 2 && Inner(t)[0] == t.key && Inner(t)[1] == t.value
    ensures t.StreamType? || t.RepeatedType? || t.OptionalType? ==> Inner(t) == [t.elem]
    ensures t.OneofType? ==> |Inner(t)| == |t.fields| && forall i :: 0 <= i < |t.fields| ==> Inner(t)[i] == t.fields[i].ty
    ensures t.BuiltinType? || t.TypeRef? || t.DefType? ==> Inner(t) == []
  {
  }

  // ---------------------------------------------------------------------
  // Printing.

  /**
   * The print flags the compiler passes: none, `FullyQualified`, or
   * `SemiQualified` relative to a scope, given as its chain (own scope name
   * first, up to the root's), `None` when no scope is passed.
   */
  datatype PrintMode = Plain | FullyQualified | SemiQualified(scope: Option<seq<string>>)

  /**
   * Where each definition sits: the chain of the scope a definition was
   * pushed into, by definition identity. A definition not listed sits in no
   * scope.
   */
  type Placement = map<nat, seq<string>>

  /** The chain of a definition: its own name, then its enclosing scopes. */
  function Chain(d: DefRef, env: Placement): (r: seq<string>)
    ensures |r| >= 1 && r[0] == d.name
  {
    [d.name] + (if d.id in env then env[d.id] else [])
  }

  /** What the map and wrapper types pass down: the same flags, no scope. */
  function Dropped(m: PrintMode): PrintMode
  {
    if m.SemiQualified? then SemiQualified(None) else m
  }

  /** `print(fl, scope)`; `Err` where a oneof or rpc is printed outside debugging output. */
  function Print(t: TypeExpr, m: PrintMode, env: Placement): Result<string>
  {
    match t
    case BuiltinType(b) => Ok(BuiltinName(b))
    case TypeRef(name, _, _) => Ok(name)
    case DefType(d) =>
      if m.SemiQualified? then
        Ok(ToSemiQualified(Reverse(Chain(d, env)), if m.scope.Some? then Reverse(m.scope.value) else []))
      else if m == FullyQualified then Ok(QualifiedScopeName(Chain(d, env)))
      else Ok(d.name)
    case MapType(k, v) =>
      var ks := Print(k, Dropped(m), env);
      var vs := Print(v, Dropped(m), env);
      if ks.Err? then ks
      else if vs.Err? then vs
      else Ok("map<" + ks.value + ", " + vs.value + ">")
    case StreamType(e) => Wrap("stream ", Print(e, Dropped(m), env))
    case RepeatedType(e) => Wrap("repeated ", Print(e, Dropped(m), env))
    case OptionalType(e) => Wrap("optional ", Print(e, Dropped(m), env))
    case OneofType(_, _) => Err("Method not implemented.")
    case RpcType(_, _, _) => Err("Method not implemented.")
  }

  function Wrap(prefix: string, r: Result<string>): Result<string>
  {
    match r
    case Ok(s) => Ok(prefix + s)
    case Err(e) => Err(e)
  }

  /** No oneof or rpc on the printed spine of `t` (the map and wrapper layers). */
  predicate Prints(t: TypeExpr)
  {
    match t
    case MapType(k, v) => Prints(k) && Prints(v)
    case StreamType(e) => Prints(e)
    case RepeatedType(e) => Prints(e)
    case OptionalType(e) => Prints(e)
    case OneofType(_, _) => false
    case RpcType(_, _, _) => false
    case _ => true
  }

  /** Printing fails exactly when a oneof or rpc is reached. */
  lemma {:induction false} PrintOk(t: TypeExpr, m: PrintMode, env: Placement)
    ensures Print(t, m, env).Ok? <==> Prints(t)
  {
    match t
    case MapType(k, v) => PrintOk(k, Dropped(m), env); PrintOk(v, Dropped(m), env);
    case StreamType(e) => PrintOk(e, Dropped(m), env);
    case RepeatedType(e) => PrintOk(e, Dropped(m), env);
    case OptionalType(e) => PrintOk(e, Dropped(m), env);
    case _ =>
  }

  /** No defined type on the printed spine. */
  predicate NoDefs(t: TypeExpr)
  {
    match t
    case MapType(k, v) => NoDefs(k) && NoDefs(v)
    case StreamType(e) => NoDefs(e)
    case RepeatedType(e) => NoDefs(e)
    case OptionalType(e) => NoDefs(e)
    case DefType(_) => false
    case _ => true
  }

  /** Builtins and named references print the same in every mode and placement: only definitions are qualified. */
  lemma {:induction false} PrintModeFree(t: TypeExpr, m: PrintMode, env: Placement, m': PrintMode, env': Placement)
    requires NoDefs(t)
    ensures Print(t, m, env) == Print(t, m', env')
  {
    match t
    case MapType(k, v) =>
      PrintModeFree(k, Dropped(m), env, Dropped(m'), env');
      PrintModeFree(v, Dropped(m), env, Dropped(m'), env');
    case StreamType(e) => PrintModeFree(e, Dropped(m), env, Dropped(m'), env');
    case RepeatedType(e) => PrintModeFree(e, Dropped(m), env, Dropped(m'), env');
    case OptionalType(e) => PrintModeFree(e, Dropped(m), env, Dropped(m'), env');
    case _ =>
  }

  /**
   * A definition printed semi-qualified inside its own enclosing scope, or
   * inside a map or wrapper (where the scope is dropped), is its bare name;
   * printed fully qualified it is the dot-joined non-empty names of its chain.
   */
  lemma DefPrint(d: DefRef, env: Placement)
    requires d.id in env
    ensures Print(DefType(d), SemiQualified(None), env) == Ok(d.name)
    ensures d.name != "" ==> Print(DefType(d), FullyQualified, env) == Ok(Join(NonEmpty(Reverse(Chain(d, env))), "."))
    ensures Print(DefType(d), SemiQualified(Some(env[d.id])), env) == Ok(d.name)
  {
    var own := Reverse(Chain(d, env));
    var other := Reverse(env[d.id]);
    assert own[|own| - 1] == d.name;
    QualifiedScopeNameJoins(Chain(d, env));
    SemiQualifiedSelf(own);
    assert forall j :: 0 <= j < |other| ==> j < |own| && own[j] == other[j];
    SemiQualifiedSpec(own, other, 0);
    forall m | 0 <= m ensures !FirstMismatch(own, other, m) {
    }
  }
}
