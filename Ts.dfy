/**
 * What the compiler asks of the TypeScript type checker, as data. The
 * checker's type graph is a table from type identities to what the compiler
 * reads of each type; symbols are values carrying their parent chain, so an
 * ancestor walk always ends.
 */
module Ts {
  import opened Wrappers

  /** The identity of a checker type (`ts.Type` objects are compared by identity). */
  type TypeId = nat
  /** The identity of a syntax node (the resolver's cursor, a declaration's position). */
  type NodeId = nat
  /** The identity of a source file. */
  type FileId = nat

  /** A symbol: its identity, its name, and the symbol it is declared in. */
  datatype Symbol = Symbol(id: nat, name: string, parent: Option<Symbol>)

  /** The `ts.TypeFlags` bits the resolver tests. */
  datatype Flag = StringFlag | NumberFlag | BooleanFlag | VoidFlag | AnyFlag | UnknownFlag | EnumLiteralFlag

  /** The literal a literal type stands for. */
  datatype Literal =
    | NoLiteral
    | StringLiteral(s: string)
    | NumberLiteral(n: int)
    | BigIntLiteral(negative: bool, magnitude: nat)

  /** A call signature: its parameter symbols and its return type. */
  datatype Signature = Signature(params: seq<Symbol>, returnType: TypeId)

  /** What the compiler reads of one checker type. */
  datatype TypeInfo = TypeInfo(
    symbol: Option<Symbol>,
    flags: set<Flag>,
    /** `ty.isUnion() ? ty.types : undefined`. */
    union: Option<seq<TypeId>>,
    /** `ty.getNonNullableType()`. */
    nonNullable: TypeId,
    /** `checker.getPropertiesOfType(ty)`, in order. */
    properties: seq<Symbol>,
    /** `checker.getTypeArguments(ty)`, `None` where that call throws. */
    typeArguments: Option<seq<TypeId>>,
    /** `ty.getNumberIndexType()` or the checker's number index type. */
    numberIndex: Option<TypeId>,
    callSignatures: seq<Signature>,
    literal: Literal,
    /** `checker.getDeclaredTypeOfSymbol(ty.symbol)`. */
    declaredType: TypeId,
    isClassOrInterface: bool
  )

  /** What the compiler reads of one symbol. */
  datatype SymbolInfo = SymbolInfo(
    isEnum: bool,
    isEnumMember: bool,
    hasValueDeclaration: bool,
    /** `checker.getTypeOfSymbolAtLocation(sym, decl)`. */
    valueType: TypeId,
    /** The source file of the first declaration. */
    declFile: Option<FileId>,
    /** The text of each `@option` JSDoc tag, `None` for a tag without text. */
    optionTags: seq<Option<string>>
  )

  /** The checker, as the tables the compiler consults. */
  datatype Checker = Checker(
    types: map<TypeId, TypeInfo>,
    symbols: map<nat, SymbolInfo>,
    trueType: TypeId,
    falseType: TypeId,
    /** The type arguments written at a type reference node. */
    nodeTypeArgs: map<NodeId, seq<TypeId>>
  )

  /** The information of a type; a type the tables do not describe has none of the traits the resolver reads. */
  function TypeOf(c: Checker, t: TypeId): TypeInfo
  {
    if t in c.types then c.types[t]
    else TypeInfo(None, {}, None, t, [], None, None, [], NoLiteral, t, false)
  }

  /** The information of a symbol; a symbol the tables do not describe has no declaration. */
  function SymbolOf(c: Checker, s: Symbol): SymbolInfo
  {
    if s.id in c.symbols then c.symbols[s.id] else SymbolInfo(false, false, false, 0, None, [])
  }

  /** `ty.getProperty(name)`: the first property of that name. */
  function GetProperty(c: Checker, t: TypeId, name: string): (r: Option<Symbol>)
    ensures r.Some? ==> r.value in TypeOf(c, t).properties && r.value.name == name
    ensures r.None? ==> forall p :: p in TypeOf(c, t).properties ==> p.name != name
  {
    FindNamed(TypeOf(c, t).properties, name)
  }

  function FindNamed(ps: seq<Symbol>, name: string): (r: Option<Symbol>)
    ensures r.Some? ==> r.value in ps && r.value.name == name
    ensures r.None? ==> forall p :: p in ps ==> p.name != name
  {
    if |ps| == 0 then None else if ps[0].name == name then Some(ps[0]) else FindNamed(ps[1..], name)
  }
}
