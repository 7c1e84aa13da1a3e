/**
 * Statements and type definitions (lib/proto/udts.ts, with `Scope.push`,
 * `Scope.write`, `Root.write` and the `IndexAllocator` passes of
 * lib/proto/base.ts): how each statement is added to a scope, written as
 * proto text, and how fields are numbered by the mark/sweep allocator.
 */
module Udts {
  import opened Wrappers
  import opened Strings
  import opened Base
  import opened Types

  /** One value of a `reserved` statement: a name, a number, or a `[lo, hi]` pair. */
  datatype ReservedValue = ReservedName(name: string) | ReservedNumber(n: int) | ReservedRange(lo: int, hi: int)

  /** The statements a scope body holds. */
  datatype Stmt =
    | FieldStmt(field: Field)
    | ReservedStmt(values: seq<ReservedValue>)
    | EnumValueStmt(name: string, number: EnumNumber, options: OptionMap)
    | DefStmt(def: TypeDef)

  /**
   * The number an `EnumFieldDef` holds: the literal of its enum member, which
   * for a string-valued member is the string itself.
   */
  datatype EnumNumber = IntNumber(n: int) | TextNumber(s: string)

  /**
   * A message, enum or service: its identity and kind, the checker type it
   * was made from, its options, its body and the names its scope has
   * registered.
   */
  datatype TypeDef = TypeDef(ref: DefRef, source: Option<nat>, options: OptionMap, body: seq<Stmt>, names: set<string>)

  /** The name `push` checks: every statement is a `TypeDef` or a `FieldDef`, and a reserved statement is named `reserved`. */
  function NameOf(s: Stmt): string
  {
    match s
    case FieldStmt(f) => f.name
    case ReservedStmt(_) => "reserved"
    case EnumValueStmt(name, _, _) => name
    case DefStmt(d) => d.ref.name
  }

  /** `new SimpleFieldDef(name, type, number)`: `number || 0`, where `None` is a missing number or NaN. */
  function NewField(name: string, ty: TypeExpr, number: Option<int>): (f: Field)
    ensures f.name == name && f.ty == ty && f.options == NoOptions
    ensures f.number == 0 <==> number.None? || number.value == 0
    ensures f.number != 0 ==> number == Some(f.number)
  {
    Field(name, ty, if number.Some? then number.value else 0, NoOptions)
  }

  /** `push(stmt)`: refuses a name the scope already has, otherwise appends the statement and records its name. */
  function Push(body: seq<Stmt>, names: set<string>, s: Stmt): (r: Result<(seq<Stmt>, set<string>)>)
    ensures r.Ok? <==> NameOf(s) !in names
    ensures r.Ok? ==> r.value.0 == body + [s] && r.value.1 == names + {NameOf(s)}
  {
    if NameOf(s) in names then Err("Field " + NameOf(s) + " already exists in scope")
    else Ok((body + [s], names + {NameOf(s)}))
  }

  /** The names of a body's statements, in order. */
  function BodyNames(body: seq<Stmt>): (r: seq<string>)
    ensures |r| == |body| && forall i :: 0 <= i < |body| ==> r[i] == NameOf(body[i])
  {
    seq(|body|, i requires 0 <= i < |body| => NameOf(body[i]))
  }

  /** The name table records exactly the body's names, and no body name occurs twice. */
  predicate Registered(body: seq<Stmt>, names: set<string>)
  {
    Distinct(BodyNames(body)) && names == set i | 0 <= i < |body| :: NameOf(body[i])
  }

  /** A scope built by `push` alone keeps its table exact and its names unique. */
  lemma PushRegistered(body: seq<Stmt>, names: set<string>, s: Stmt)
    requires Registered(body, names)
    ensures Push(body, names, s).Ok? ==> Registered(Push(body, names, s).value.0, Push(body, names, s).value.1)
  {
    if NameOf(s) !in names {
      assert BodyNames(body + [s]) == BodyNames(body) + [NameOf(s)];
      DistinctSnoc(BodyNames(body), NameOf(s));
    }
  }

  // ---------------------------------------------------------------------
  // Writing. A scope is passed to type printing as its chain: its own scope
  // name first, up to the root's.

  datatype Import = Import(path: string, flag: Option<string>)

  /** A proto file: its name, its package, its imports, its options and its top-level definitions. */
  datatype Root = Root(name: string, package: Option<string>, imports: seq<Import>, options: OptionMap, body: seq<Stmt>)

  /** `new Root(name)`: every backslash of the name becomes a slash; no package, imports or body yet. */
  function NewRoot(name: string, options: OptionMap): (r: Root)
    ensures |r.name| == |name| && '\\' !in r.name
    ensures forall i :: 0 <= i < |name| && name[i] != '\\' ==> r.name[i] == name[i]
    ensures r.package.None? && r.imports == [] && r.body == [] && r.options == options
  {
    Root(ReplaceChar(name, '\\', '/'), None, [], options, [])
  }

  function PrintIn(t: TypeExpr, scope: seq<string>, env: Placement): Result<string>
  {
    Print(t, SemiQualified(Some(scope)), env)
  }

  /** `SimpleFieldDef.write`: oneof and rpc fields write themselves named; any other is one line. */
  function WriteField(f: Field, scope: seq<string>, env: Placement): (r: Result<seq<string>>)
    ensures !f.ty.OneofType? && !f.ty.RpcType? ==>
      (r.Ok? <==> Prints(f.ty)) && (r.Ok? ==> |r.value| == 1)
  {
    PrintOk(f.ty, SemiQualified(Some(scope)), env);
    match f.ty
    case OneofType(fields, opts) => WriteOneof(f.name, fields, opts, scope, env)
    case RpcType(input, output, opts) => WriteRpc(f.name, input, output, opts, scope, env)
    case _ =>
      match PrintIn(f.ty, scope, env)
      case Err(m) => Err(m)
      case Ok(t) => Ok([t + " " + f.name + " = " + IntToString(f.number) + Short(f.options) + ";"])
  }

  /** One member line of a oneof: tab, type, name, `=`, number and short options. */
  function MemberLine(f: Field, scope: seq<string>, env: Placement): (r: Result<string>)
    ensures r.Ok? <==> Prints(f.ty)
  {
    PrintOk(f.ty, SemiQualified(Some(scope)), env);
    match PrintIn(f.ty, scope, env)
    case Err(m) => Err(m)
    case Ok(t) => Ok("\t" + t + " " + f.name + " = " + IntToString(f.number) + Short(f.options) + ";")
  }

  /** Every member of a non-empty list prints exactly when every member of its front and its last one do. */
  lemma PrintsSplit(fields: seq<Field>, front: seq<Field>)
    requires |fields| > 0 && front == fields[..|fields| - 1]
    ensures (forall i :: 0 <= i < |fields| ==> Prints(fields[i].ty))
      <==> (forall i :: 0 <= i < |front| ==> Prints(front[i].ty)) && Prints(fields[|fields| - 1].ty)
  {
    assert forall i :: 0 <= i < |front| ==> front[i] == fields[i];
  }

  function MemberLines(fields: seq<Field>, scope: seq<string>, env: Placement): (r: Result<seq<string>>)
    ensures r.Ok? <==> forall i :: 0 <= i < |fields| ==> Prints(fields[i].ty)
    ensures r.Ok? ==> |r.value| == |fields|
  {
    if |fields| == 0 then Ok([])
    else
      var front := fields[..|fields| - 1];
      PrintsSplit(fields, front);
      var rest := MemberLines(front, scope, env);
      var line := MemberLine(fields[|fields| - 1], scope, env);
      if rest.Err? then Err(rest.msg)
      else if line.Err? then Err(line.msg)
      else Ok(rest.value + [line.value])
  }

  /** `OneofTypeExpr.writeNamed`: header, option lines, one line per member, closing brace. */
  function WriteOneof(name: string, fields: seq<Field>, opts: OptionMap, scope: seq<string>, env: Placement): (r: Result<seq<string>>)
    ensures r.Ok? <==> forall i :: 0 <= i < |fields| ==> Prints(fields[i].ty)
    ensures r.Ok? ==> (|r.value| == |opts.keys| + |fields| + 2
      && r.value[0] == "oneof " + name + " {" && r.value[|r.value| - 1] == "}")
  {
    var members := MemberLines(fields, scope, env);
    if members.Err? then Err(members.msg)
    else Ok(["oneof " + name + " {"] + Long(opts, "\t") + members.value + ["}"])
  }

  /** `RpcTypeExpr.writeNamed`: `rpc n (In) returns (Out);`, or a braced block of option lines when it has options. */
  function WriteRpc(name: string, input: TypeExpr, output: TypeExpr, opts: OptionMap, scope: seq<string>, env: Placement): (r: Result<seq<string>>)
    ensures r.Ok? <==> Prints(input) && Prints(output)
    ensures r.Ok? ==> (|r.value| == 1 <==> |opts.keys| == 0)
    ensures r.Ok? && |opts.keys| != 0 ==> |r.value| == |opts.keys| + 2 && r.value[|r.value| - 1] == "}"
  {
    PrintOk(input, SemiQualified(Some(scope)), env);
    PrintOk(output, SemiQualified(Some(scope)), env);
    var a := PrintIn(input, scope, env);
    var b := PrintIn(output, scope, env);
    if a.Err? then Err(a.msg)
    else if b.Err? then Err(b.msg)
    else
      var head := "rpc " + name + " (" + a.value + ") returns (" + b.value + ")";
      if |opts.keys| == 0 then Ok([head + ";"]) else Ok([head + "{"] + Long(opts, "\t") + ["}"])
  }

  /** One value of a reserved statement: a name as it is, a number, or `lo to hi`. */
  function ReservedText(v: ReservedValue): string
  {
    match v
    case ReservedName(n) => n
    case ReservedNumber(n) => IntToString(n)
    case ReservedRange(lo, hi) => IntToString(lo) + " to " + IntToString(hi)
  }

  /** `ReservedFieldDef.write`: the values in order, joined by `, `. */
  function WriteReserved(values: seq<ReservedValue>): (r: seq<string>)
    ensures |r| == 1
  {
    ["reserved " + Join(seq(|values|, i requires 0 <= i < |values| => ReservedText(values[i])), ", ") + ";"]
  }

  /** The reserved line starts with `reserved ` and ends with `;`; a single value is written alone between them. */
  lemma ReservedLine(values: seq<ReservedValue>)
    ensures var line := WriteReserved(values)[0];
      StartsWith(line, "reserved ") && EndsWith(line, ";")
      && (|values| == 1 ==> line == "reserved " + ReservedText(values[0]) + ";")
  {
    var mid := Join(seq(|values|, i requires 0 <= i < |values| => ReservedText(values[i])), ", ");
    Affixes("reserved ", mid + ";");
    Affixes("reserved " + mid, ";");
    assert "reserved " + mid + ";" == "reserved " + (mid + ";");
  }

  /** `EnumFieldDef.write`. */
  function WriteEnumValue(name: string, number: EnumNumber, opts: OptionMap): string
  {
    name + " = " + NumberText(number) + Short(opts) + ";"
  }

  /** `${number}`: a number in decimal, a string as it is. */
  function NumberText(v: EnumNumber): string
  {
    match v
    case IntNumber(n) => IntToString(n)
    case TextNumber(s) => s
  }

  function Keyword(k: DefKind): string
  {
    match k
    case MessageDef => "message"
    case EnumDef => "enum"
    case ServiceDef => "service"
  }

  /** `Scope.write(pad)`: every line of every statement, each prefixed by `pad`. */
  function Indent(pad: string, lines: seq<string>): (r: seq<string>)
    ensures |r| == |lines| && forall i :: 0 <= i < |lines| ==> r[i] == pad + lines[i]
  {
    seq(|lines|, i requires 0 <= i < |lines| => pad + lines[i])
  }

  /** The lines of a statement whose enclosing scope has chain `scope`. */
  function WriteStmt(s: Stmt, scope: seq<string>, env: Placement): Result<seq<string>>
    decreases s, 1
  {
    match s
    case FieldStmt(f) => WriteField(f, scope, env)
    case ReservedStmt(values) => Ok(WriteReserved(values))
    case EnumValueStmt(name, number, opts) => Ok([WriteEnumValue(name, number, opts)])
    case DefStmt(d) => WriteDef(d, scope, env)
  }

  /** `message|enum|service name {`, the option lines, the body one tab in, `}`. */
  function WriteDef(d: TypeDef, scope: seq<string>, env: Placement): (r: Result<seq<string>>)
    ensures r.Ok? ==> (|r.value| >= |d.options.keys| + 2
      && r.value[0] == Keyword(d.ref.kind) + " " + d.ref.name + " {" && r.value[|r.value| - 1] == "}")
    decreases d, 1
  {
    var body := WriteBody(d.body, [d.ref.name] + scope, env);
    if body.Err? then Err(body.msg)
    else Ok([Keyword(d.ref.kind) + " " + d.ref.name + " {"] + Long(d.options, "\t") + Indent("\t", body.value) + ["}"])
  }

  /** `Scope.write()` without padding: the statements' lines in body order. */
  function WriteBody(body: seq<Stmt>, scope: seq<string>, env: Placement): Result<seq<string>>
    decreases body, 0
  {
    if |body| == 0 then Ok([])
    else
      var rest := WriteBody(body[..|body| - 1], scope, env);
      var last := WriteStmt(body[|body| - 1], scope, env);
      if rest.Err? then Err(rest.msg)
      else if last.Err? then Err(last.msg)
      else Ok(rest.value + last.value)
  }

  /** The text of an import line. */
  function ImportLine(i: Import): string
  {
    "import " + (if i.flag.Some? && i.flag.value != "" then i.flag.value + " " else "") + EncodeLiteral(StrLit(i.path)) + ";"
  }

  /**
   * `Root.write`: the generated-code header, the syntax line, the package
   * line (empty without a package), the option lines, the import lines and
   * the body, whose statements sit in the root scope, named by the package.
   */
  function WriteRoot(pkg: string, opts: OptionMap, imports: seq<Import>, body: seq<Stmt>, env: Placement): Result<seq<string>>
  {
    match WriteBody(body, [pkg], env)
    case Err(m) => Err(m)
    case Ok(lines) => Ok(Header(pkg, opts, imports) + lines)
  }

  /** The first line of every written file. */
  const GeneratedNotice := "// Code generated by Troto. DO NOT EDIT."

  /** The second line: the file is proto3. */
  const SyntaxLine := "syntax = \"proto3\";"

  /** The lines before the body: header, syntax, package, options and imports. */
  function Header(pkg: string, opts: OptionMap, imports: seq<Import>): seq<string>
  {
    var head := [GeneratedNotice, SyntaxLine, if pkg == "" then "" else "package " + pkg + ";"];
    head + Long(opts, "") + ImportLines(imports)
  }

  function ImportLines(imports: seq<Import>): (r: seq<string>)
    ensures |r| == |imports| && forall i :: 0 <= i < |imports| ==> r[i] == ImportLine(imports[i])
  {
    seq(|imports|, i requires 0 <= i < |imports| => ImportLine(imports[i]))
  }

  /**
   * A written file starts with the generated-code header and the syntax
   * line, then the package line, one line per option, one per import in
   * import order, and then the body.
   */
  lemma WriteRootShape(pkg: string, opts: OptionMap, imports: seq<Import>, body: seq<Stmt>, env: Placement)
    ensures var r := WriteRoot(pkg, opts, imports, body, env);
      r.Ok? ==> (|r.value| >= 3 + |opts.keys| + |imports|
        && r.value[0] == GeneratedNotice
        && r.value[1] == SyntaxLine
        && r.value[2] == (if pkg == "" then "" else "package " + pkg + ";")
        && forall i :: 0 <= i < |imports| ==> r.value[3 + |opts.keys| + i] == ImportLine(imports[i]))
  {
    var r := WriteRoot(pkg, opts, imports, body, env);
    if r.Ok? {
      var h := Header(pkg, opts, imports);
      HeaderShape(pkg, opts, imports);
      var lines := WriteBody(body, [pkg], env).value;
      assert r.value == h + lines;
      assert forall i :: 0 <= i < |h| ==> r.value[i] == h[i];
    }
  }

  lemma HeaderShape(pkg: string, opts: OptionMap, imports: seq<Import>)
    ensures var h := Header(pkg, opts, imports);
      |h| == 3 + |opts.keys| + |imports|
      && h[0] == GeneratedNotice
      && h[1] == SyntaxLine
      && h[2] == (if pkg == "" then "" else "package " + pkg + ";")
      && forall i :: 0 <= i < |imports| ==> h[3 + |opts.keys| + i] == ImportLine(imports[i])
  {
    var head := [GeneratedNotice, SyntaxLine, if pkg == "" then "" else "package " + pkg + ";"];
    var long := Long(opts, "");
    var lines := ImportLines(imports);
    assert Header(pkg, opts, imports) == (head + long) + lines;
    assert forall i :: 0 <= i < 3 ==> (head + long)[i] == head[i];
  }

  // ---------------------------------------------------------------------
  // Placement. `push` sets each definition's `parent` to the scope it is
  // pushed into, and a scope's chain follows `parent` up to the root, whose
  // scope name is the package. The placement of a list of files is that
  // chain, by definition identity.

  /** The chain of a root scope: its scope name, the package or `''` without one. */
  function RootScope(r: Root): seq<string>
  {
    [if r.package.Some? then r.package.value else ""]
  }

  /** The enclosing chain of every definition in a body whose scope has chain `scope`. */
  function PlaceBody(body: seq<Stmt>, scope: seq<string>): Placement
    decreases body, 0
  {
    if |body| == 0 then map[]
    else PlaceBody(body[..|body| - 1], scope) + PlaceStmt(body[|body| - 1], scope)
  }

  function PlaceStmt(s: Stmt, scope: seq<string>): Placement
    decreases s, 1
  {
    match s
    case DefStmt(d) => PlaceBody(d.body, [d.ref.name] + scope)[d.ref.id := scope]
    case _ => map[]
  }

  /** What `push` places in a list of files: each root's definitions under the root's chain. */
  function PushedOf(roots: seq<Root>): Placement
  {
    if |roots| == 0 then map[]
    else PushedOf(roots[..|roots| - 1]) + PlaceBody(roots[|roots| - 1].body, RootScope(roots[|roots| - 1]))
  }

  /**
   * The identities of the definitions a type holds, in the order `visit`
   * reaches them: a synthesised request or response message sits directly in
   * its rpc type.
   */
  function TypeIds(t: TypeExpr): seq<nat>
    decreases t, 1
  {
    match t
    case DefType(d) => [d.id]
    case MapType(k, v) => TypeIds(k) + TypeIds(v)
    case StreamType(e) => TypeIds(e)
    case RepeatedType(e) => TypeIds(e)
    case OptionalType(e) => TypeIds(e)
    case OneofType(fields, _) => FieldsIds(fields)
    case RpcType(i, o, _) => TypeIds(i) + TypeIds(o)
    case _ => []
  }

  function FieldsIds(fs: seq<Field>): seq<nat>
    decreases fs, 0
  {
    if |fs| == 0 then [] else FieldsIds(fs[..|fs| - 1]) + TypeIds(fs[|fs| - 1].ty)
  }

  /**
   * The parent-marking pass over a body whose scope has chain `scope`: a
   * definition held in a field's type gets the chain of the scope whose body
   * holds the field, and the first visit wins (`parent ??= parent`). A field
   * directly in a root body (`top`) is visited with no parent.
   */
  function ReachBody(body: seq<Stmt>, scope: seq<string>, top: bool): Placement
    decreases body, 0
  {
    if |body| == 0 then map[]
    else ReachStmt(body[|body| - 1], scope, top) + ReachBody(body[..|body| - 1], scope, top)
  }

  function ReachStmt(s: Stmt, scope: seq<string>, top: bool): Placement
    decreases s, 1
  {
    match s
    case FieldStmt(f) => if top then map[] else map id | id in TypeIds(f.ty) :: scope
    case DefStmt(d) => ReachBody(d.body, [d.ref.name] + scope, false)
    case _ => map[]
  }

  /** The marking pass over the files in order, the earlier file winning. */
  function ReachedOf(roots: seq<Root>): Placement
  {
    if |roots| == 0 then map[]
    else ReachBody(roots[|roots| - 1].body, RootScope(roots[|roots| - 1]), true) + ReachedOf(roots[..|roots| - 1])
  }

  /**
   * The placement of a list of files: where `push` put a definition, else
   * where the marking pass first reached it. Relocation pushes before the
   * marking pass runs, so `??=` keeps the pushed parent.
   */
  function PlacementOf(roots: seq<Root>): Placement
  {
    ReachedOf(roots) + PushedOf(roots)
  }

  /** The identities the marking pass reaches through field types, in visit order. */
  function ReachIds(body: seq<Stmt>, top: bool): seq<nat>
    decreases body, 0
  {
    if |body| == 0 then [] else ReachIds(body[..|body| - 1], top) + StmtReachIds(body[|body| - 1], top)
  }

  function StmtReachIds(s: Stmt, top: bool): seq<nat>
    decreases s, 1
  {
    match s
    case FieldStmt(f) => if top then [] else TypeIds(f.ty)
    case DefStmt(d) => ReachIds(d.body, false)
    case _ => []
  }

  function ReachedIds(roots: seq<Root>): seq<nat>
  {
    if |roots| == 0 then [] else ReachedIds(roots[..|roots| - 1]) + ReachIds(roots[|roots| - 1].body, true)
  }

  /** The identities of the definitions in a body, nested ones after their parent. */
  function BodyIds(body: seq<Stmt>): seq<nat>
    decreases body, 0
  {
    if |body| == 0 then [] else BodyIds(body[..|body| - 1]) + StmtIds(body[|body| - 1])
  }

  function StmtIds(s: Stmt): seq<nat>
    decreases s, 1
  {
    match s
    case DefStmt(d) => [d.ref.id] + BodyIds(d.body)
    case _ => []
  }

  function RootIds(roots: seq<Root>): seq<nat>
  {
    if |roots| == 0 then [] else RootIds(roots[..|roots| - 1]) + BodyIds(roots[|roots| - 1].body)
  }

  /** No identity occurs twice: each definition is one object. */
  predicate Unique(ids: seq<nat>)
  {
    forall i, j :: 0 <= i < j < |ids| ==> ids[i] != ids[j]
  }

  /**
   * `d` sits in `body`, directly or nested, in a scope of chain `at`: the
   * chain the writer passes to `d` there, when the body is written with
   * chain `scope`.
   */
  predicate InBody(d: TypeDef, body: seq<Stmt>, scope: seq<string>, at: seq<string>)
    decreases body, 0
  {
    exists i :: 0 <= i < |body| && InStmt(d, body[i], scope, at)
  }

  predicate InStmt(d: TypeDef, s: Stmt, scope: seq<string>, at: seq<string>)
    decreases s, 1
  {
    match s
    case DefStmt(e) => (e == d && at == scope) || InBody(d, e.body, [e.ref.name] + scope, at)
    case _ => false
  }

  /** The placement of a body has exactly the body's identities as keys. */
  lemma {:induction false} PlaceBodyKeys(body: seq<Stmt>, scope: seq<string>)
    ensures PlaceBody(body, scope).Keys == set k | k in BodyIds(body)
    decreases body, 0
  {
    if |body| > 0 {
      PlaceBodyKeys(body[..|body| - 1], scope);
      PlaceStmtKeys(body[|body| - 1], scope);
    }
  }

  lemma {:induction false} PlaceStmtKeys(s: Stmt, scope: seq<string>)
    ensures PlaceStmt(s, scope).Keys == set k | k in StmtIds(s)
    decreases s, 1
  {
    match s
    case DefStmt(d) => PlaceBodyKeys(d.body, [d.ref.name] + scope);
    case _ =>
  }

  /** A definition found in a body has its identity among the body's. */
  lemma {:induction false} InBodyIds(d: TypeDef, body: seq<Stmt>, scope: seq<string>, at: seq<string>)
    requires InBody(d, body, scope, at)
    ensures d.ref.id in BodyIds(body)
    decreases body, 0
  {
    var i :| 0 <= i < |body| && InStmt(d, body[i], scope, at);
    if i == |body| - 1 {
      InStmtIds(d, body[i], scope, at);
    } else {
      assert InBody(d, body[..|body| - 1], scope, at) by {
        assert body[..|body| - 1][i] == body[i];
      }
      InBodyIds(d, body[..|body| - 1], scope, at);
    }
  }

  lemma {:induction false} InStmtIds(d: TypeDef, s: Stmt, scope: seq<string>, at: seq<string>)
    requires InStmt(d, s, scope, at)
    ensures d.ref.id in StmtIds(s)
    decreases s, 1
  {
    match s
    case DefStmt(e) =>
      if !(e == d && at == scope) {
        InBodyIds(d, e.body, [e.ref.name] + scope, at);
      }
  }

  /** Two parts of a sequence without repeats share no element, and each part has none. */
  lemma UniqueSplit(a: seq<nat>, b: seq<nat>)
    requires Unique(a + b)
    ensures Unique(a) && Unique(b) && forall k :: k in a ==> k !in b
  {
    forall i, j | 0 <= i < j < |a| ensures a[i] != a[j] {
      assert (a + b)[i] == a[i] && (a + b)[j] == a[j];
    }
    forall i, j | 0 <= i < j < |b| ensures b[i] != b[j] {
      assert (a + b)[|a| + i] == b[i] && (a + b)[|a| + j] == b[j];
    }
    forall i, j | 0 <= i < |a| && 0 <= j < |b| ensures a[i] != b[j] {
      assert (a + b)[i] == a[i] && (a + b)[|a| + j] == b[j];
    }
  }

  /**
   * With distinct identities, the placement of a body gives each definition
   * in it the chain the writer passes to that definition.
   */
  lemma {:induction false} PlaceBodyAt(d: TypeDef, body: seq<Stmt>, scope: seq<string>, at: seq<string>)
    requires Unique(BodyIds(body)) && InBody(d, body, scope, at)
    ensures d.ref.id in PlaceBody(body, scope) && PlaceBody(body, scope)[d.ref.id] == at
    decreases body, 0
  {
    var front := body[..|body| - 1];
    var last := body[|body| - 1];
    UniqueSplit(BodyIds(front), StmtIds(last));
    var i :| 0 <= i < |body| && InStmt(d, body[i], scope, at);
    if i == |body| - 1 {
      PlaceStmtAt(d, last, scope, at);
    } else {
      assert InBody(d, front, scope, at) by {
        assert front[i] == body[i];
      }
      PlaceBodyAt(d, front, scope, at);
      InBodyIds(d, front, scope, at);
      PlaceStmtKeys(last, scope);
    }
  }

  lemma {:induction false} PlaceStmtAt(d: TypeDef, s: Stmt, scope: seq<string>, at: seq<string>)
    requires Unique(StmtIds(s)) && InStmt(d, s, scope, at)
    ensures d.ref.id in PlaceStmt(s, scope) && PlaceStmt(s, scope)[d.ref.id] == at
    decreases s, 1
  {
    match s
    case DefStmt(e) =>
      if !(e == d && at == scope) {
        UniqueSplit([e.ref.id], BodyIds(e.body));
        InBodyIds(d, e.body, [e.ref.name] + scope, at);
        PlaceBodyAt(d, e.body, [e.ref.name] + scope, at);
      }
  }

  /**
   * With distinct identities across the files, a definition of file `k`
   * written there with chain `at` has the chain `[name] + at` in the
   * placement of the files: the chain `WriteDef` passes to its body.
   */
  lemma PlacementAt(roots: seq<Root>, k: nat, d: TypeDef, at: seq<string>)
    requires Unique(RootIds(roots)) && k < |roots| && InBody(d, roots[k].body, RootScope(roots[k]), at)
    ensures d.ref.id in PlacementOf(roots) && PlacementOf(roots)[d.ref.id] == at
    ensures Chain(d.ref, PlacementOf(roots)) == [d.ref.name] + at
  {
    PushedAt(roots, k, d, at);
  }

  /** `push` alone places a definition of file `k` in the scope of chain `at`. */
  lemma {:induction false} PushedAt(roots: seq<Root>, k: nat, d: TypeDef, at: seq<string>)
    requires Unique(RootIds(roots)) && k < |roots| && InBody(d, roots[k].body, RootScope(roots[k]), at)
    ensures d.ref.id in PushedOf(roots) && PushedOf(roots)[d.ref.id] == at
  {
    var front := roots[..|roots| - 1];
    var last := roots[|roots| - 1];
    UniqueSplit(RootIds(front), BodyIds(last.body));
    if k == |roots| - 1 {
      PlaceBodyAt(d, last.body, RootScope(last), at);
    } else {
      assert front[k] == roots[k];
      PushedAt(front, k, d, at);
      InBodyIds(d, roots[k].body, RootScope(roots[k]), at);
      RootIdsHas(front, k);
      PlaceBodyKeys(last.body, RootScope(last));
    }
  }

  /** The identities of file `k` are among those of the files. */
  lemma {:induction false} RootIdsHas(roots: seq<Root>, k: nat)
    requires k < |roots|
    ensures forall x :: x in BodyIds(roots[k].body) ==> x in RootIds(roots)
  {
    if k < |roots| - 1 {
      assert roots[..|roots| - 1][k] == roots[k];
      RootIdsHas(roots[..|roots| - 1], k);
    }
  }

  /** What `push` places has exactly the identities of the files as keys. */
  lemma {:induction false} PushedKeys(roots: seq<Root>)
    ensures PushedOf(roots).Keys == set x | x in RootIds(roots)
  {
    if |roots| > 0 {
      PushedKeys(roots[..|roots| - 1]);
      PlaceBodyKeys(roots[|roots| - 1].body, RootScope(roots[|roots| - 1]));
    }
  }

  /** What the marking pass places in a body has exactly the identities it reaches as keys. */
  lemma {:induction false} ReachBodyKeys(body: seq<Stmt>, scope: seq<string>, top: bool)
    ensures ReachBody(body, scope, top).Keys == set x | x in ReachIds(body, top)
    decreases body, 0
  {
    if |body| > 0 {
      ReachBodyKeys(body[..|body| - 1], scope, top);
      ReachStmtKeys(body[|body| - 1], scope, top);
    }
  }

  lemma {:induction false} ReachStmtKeys(s: Stmt, scope: seq<string>, top: bool)
    ensures ReachStmt(s, scope, top).Keys == set x | x in StmtReachIds(s, top)
    decreases s, 1
  {
    match s
    case DefStmt(d) => ReachBodyKeys(d.body, [d.ref.name] + scope, false);
    case _ =>
  }

  lemma {:induction false} ReachedKeys(roots: seq<Root>)
    ensures ReachedOf(roots).Keys == set x | x in ReachedIds(roots)
  {
    if |roots| > 0 {
      ReachedKeys(roots[..|roots| - 1]);
      ReachBodyKeys(roots[|roots| - 1].body, RootScope(roots[|roots| - 1]), true);
    }
  }

  /**
   * A field of a body that is not a root's marks what its type holds with
   * the body's chain, when nothing else in the body reaches it.
   */
  lemma {:induction false} FieldReach(body: seq<Stmt>, scope: seq<string>, f: Field, id: nat)
    requires FieldStmt(f) in body && id in TypeIds(f.ty) && multiset(ReachIds(body, false))[id] <= 1
    ensures id in ReachBody(body, scope, false) && ReachBody(body, scope, false)[id] == scope
  {
    var front := body[..|body| - 1];
    var last := body[|body| - 1];
    assert body == front + [last];
    if last == FieldStmt(f) {
      assert multiset(StmtReachIds(last, false))[id] >= 1;
      ReachBodyKeys(front, scope, false);
    } else {
      assert FieldStmt(f) in front;
      FieldReach(front, scope, f, id);
    }
  }

  /**
   * A definition held in the type of a field of `d`, where `d` sits in a
   * body at chain `at` and nothing else in the body reaches it, is marked
   * with `d`'s chain.
   */
  lemma {:induction false} ReachBodyAt(d: TypeDef, f: Field, id: nat, body: seq<Stmt>, scope: seq<string>, top: bool, at: seq<string>)
    requires InBody(d, body, scope, at) && FieldStmt(f) in d.body && id in TypeIds(f.ty)
    requires multiset(ReachIds(body, top))[id] <= 1
    ensures id in ReachBody(body, scope, top) && ReachBody(body, scope, top)[id] == [d.ref.name] + at
    decreases body, 0
  {
    var front := body[..|body| - 1];
    var last := body[|body| - 1];
    var i :| 0 <= i < |body| && InStmt(d, body[i], scope, at);
    if i == |body| - 1 {
      ReachStmtAt(d, f, id, last, scope, top, at);
      ReachStmtKeys(last, scope, top);
      ReachBodyKeys(front, scope, top);
    } else {
      assert InBody(d, front, scope, at) by {
        assert front[i] == body[i];
      }
      ReachBodyAt(d, f, id, front, scope, top, at);
    }
  }

  lemma {:induction false} ReachStmtAt(d: TypeDef, f: Field, id: nat, s: Stmt, scope: seq<string>, top: bool, at: seq<string>)
    requires InStmt(d, s, scope, at) && FieldStmt(f) in d.body && id in TypeIds(f.ty)
    requires multiset(StmtReachIds(s, top))[id] <= 1
    ensures id in ReachStmt(s, scope, top) && ReachStmt(s, scope, top)[id] == [d.ref.name] + at
    decreases s, 1
  {
    match s
    case DefStmt(e) =>
      if e == d && at == scope {
        FieldReach(d.body, [d.ref.name] + scope, f, id);
      } else {
        ReachBodyAt(d, f, id, e.body, [e.ref.name] + scope, false, at);
      }
  }

  /** Across the files: the first file reaching a definition marks it. */
  lemma {:induction false} ReachedAt(roots: seq<Root>, k: nat, d: TypeDef, f: Field, id: nat, at: seq<string>)
    requires k < |roots| && InBody(d, roots[k].body, RootScope(roots[k]), at)
    requires FieldStmt(f) in d.body && id in TypeIds(f.ty) && multiset(ReachedIds(roots))[id] <= 1
    ensures id in ReachedOf(roots) && ReachedOf(roots)[id] == [d.ref.name] + at
  {
    var front := roots[..|roots| - 1];
    var last := roots[|roots| - 1];
    if k == |roots| - 1 {
      ReachBodyAt(d, f, id, last.body, RootScope(last), true, at);
      ReachBodyKeys(last.body, RootScope(last), true);
      ReachedKeys(front);
    } else {
      assert front[k] == roots[k];
      ReachedAt(front, k, d, f, id, at);
    }
  }

  /**
   * A definition that no file holds in a body, and that the type of a field
   * of `d` alone reaches (a synthesised request or response message that
   * relocation put nowhere, held by an rpc of service `d`), is placed in `d`:
   * its chain is its name, `d`'s name, then `d`'s scopes.
   */
  lemma PlacementReached(roots: seq<Root>, k: nat, d: TypeDef, f: Field, r: DefRef, at: seq<string>)
    requires k < |roots| && InBody(d, roots[k].body, RootScope(roots[k]), at)
    requires FieldStmt(f) in d.body && r.id in TypeIds(f.ty)
    requires r.id !in RootIds(roots) && multiset(ReachedIds(roots))[r.id] <= 1
    ensures r.id in PlacementOf(roots) && PlacementOf(roots)[r.id] == [d.ref.name] + at
    ensures Chain(r, PlacementOf(roots)) == [r.name, d.ref.name] + at
  {
    ReachedAt(roots, k, d, f, r.id, at);
    PushedKeys(roots);
  }

  // ---------------------------------------------------------------------
  // Allocation. What the two passes see of a body is a flat list of items in
  // visit order: a slot per numbered field (oneof members in place of their
  // oneof, rpc fields skipped) and a claim per reserved number or range.

  datatype Item = Slot(n: int) | Reserve(lo: int, hi: Option<int>)

  /** The indices the mark pass claims for an item: none for an unassigned slot. */
  function ClaimOf(item: Item): set<int>
  {
    match item
    case Slot(n) => if n == 0 then {} else Range(n, n)
    case Reserve(lo, hi) => Range(lo, RangeEnd(lo, hi))
  }

  function FieldItems(f: Field): seq<Item>
    decreases f, 1
  {
    match f.ty
    case OneofType(fields, _) => MembersItems(fields)
    case RpcType(_, _, _) => []
    case _ => [Slot(f.number)]
  }

  function MembersItems(fields: seq<Field>): seq<Item>
    decreases fields, 0
  {
    if |fields| == 0 then [] else MembersItems(fields[..|fields| - 1]) + FieldItems(fields[|fields| - 1])
  }

  /** The claim of one reserved value: a number alone, `[lo, hi]` as `mark(lo, hi)`, a name none. */
  function ValueItems(v: ReservedValue): (r: seq<Item>)
    ensures |r| <= 1 && forall i :: 0 <= i < |r| ==> r[i].Reserve?
  {
    match v
    case ReservedName(_) => []
    case ReservedNumber(n) => [Reserve(n, None)]
    case ReservedRange(lo, hi) => [Reserve(lo, Some(hi))]
  }

  function ReservedItems(values: seq<ReservedValue>): (r: seq<Item>)
    ensures forall i :: 0 <= i < |r| ==> r[i].Reserve?
  {
    if |values| == 0 then [] else ReservedItems(values[..|values| - 1]) + ValueItems(values[|values| - 1])
  }

  /** The items of a statement; enum values and nested definitions have none (`runPass` only visits field definitions, and an enum value's `allocate` does nothing). */
  function StmtItems(s: Stmt): seq<Item>
  {
    match s
    case FieldStmt(f) => FieldItems(f)
    case ReservedStmt(values) => ReservedItems(values)
    case _ => []
  }

  function BodyItems(body: seq<Stmt>): seq<Item>
  {
    if |body| == 0 then [] else BodyItems(body[..|body| - 1]) + StmtItems(body[|body| - 1])
  }

  /** The mark pass on items: claim each in order; `None` at the first clash. */
  function MarkAll(taken: set<int>, items: seq<Item>): Option<set<int>>
  {
    if |items| == 0 then Some(taken)
    else
      match MarkAll(taken, items[..|items| - 1])
      case None => None
      case Some(t) => if t !! ClaimOf(items[|items| - 1]) then Some(t + ClaimOf(items[|items| - 1])) else None
  }

  /** Everything the items claim. */
  function Claimed(items: seq<Item>): set<int>
  {
    if |items| == 0 then {} else Claimed(items[..|items| - 1]) + ClaimOf(items[|items| - 1])
  }

  /** No two items claim a common index. */
  predicate PairwiseDisjoint(items: seq<Item>)
  {
    |items| == 0 || (Claimed(items[..|items| - 1]) !! ClaimOf(items[|items| - 1]) && PairwiseDisjoint(items[..|items| - 1]))
  }

  /** The mark pass succeeds exactly when no two claims overlap and none was taken before; it then adds all of them. */
  lemma {:induction false} MarkAllSpec(taken: set<int>, items: seq<Item>)
    ensures MarkAll(taken, items).Some? <==> taken !! Claimed(items) && PairwiseDisjoint(items)
    ensures MarkAll(taken, items).Some? ==> MarkAll(taken, items).value == taken + Claimed(items)
  {
    if |items| > 0 {
      MarkAllSpec(taken, items[..|items| - 1]);
    }
  }

  /** The sweep pass on items: each unassigned slot gets the lowest free positive index, which is then taken. */
  function Fill(taken: set<int>, items: seq<Item>): (r: (seq<Item>, set<int>))
    ensures |r.0| == |items|
  {
    if |items| == 0 then ([], taken)
    else
      var (p, t) := Fill(taken, items[..|items| - 1]);
      var last := items[|items| - 1];
      if last.Slot? && last.n == 0 then
        var x := LowestFree(t, 1);
        (p + [Slot(x)], t + {x})
      else (p + [last], t)
  }

  /**
   * What the sweep promises for items `items` after a mark pass that took
   * `taken`: every claim and assigned slot kept, each unassigned slot given
   * a positive index nothing has claimed, no slot left unassigned, no two
   * items overlapping, and `t` everything now taken.
   */
  predicate Swept(taken: set<int>, items: seq<Item>, out: seq<Item>, t: set<int>)
  {
    |out| == |items|
    && (forall i :: 0 <= i < |items| && !(items[i].Slot? && items[i].n == 0) ==> out[i] == items[i])
    && (forall i :: 0 <= i < |items| && items[i].Slot? && items[i].n == 0 ==>
          out[i].Slot? && out[i].n >= 1 && out[i].n !in taken)
    && (forall i :: 0 <= i < |out| ==> !(out[i].Slot? && out[i].n == 0))
    && PairwiseDisjoint(out) && t == taken + Claimed(out)
  }

  lemma {:induction false} FillSpec(taken: set<int>, items: seq<Item>)
    requires Claimed(items) <= taken && PairwiseDisjoint(items)
    ensures Swept(taken, items, Fill(taken, items).0, Fill(taken, items).1)
  {
    if |items| > 0 {
      var pre := items[..|items| - 1];
      var last := items[|items| - 1];
      assert items == pre + [last];
      SnocParts(pre, last);
      FillSpec(taken, pre);
      var (p, t) := Fill(taken, pre);
      if last.Slot? && last.n == 0 {
        var x := LowestFree(t, 1);
        assert Fill(taken, items) == (p + [Slot(x)], t + {x});
        SweptSlot(taken, pre, last, p, t, x);
      } else {
        assert Fill(taken, items) == (p + [last], t);
        SweptKeep(taken, pre, last, p, t);
      }
    }
  }

  /** An unassigned slot last: it gets the lowest free index. */
  lemma SweptSlot(taken: set<int>, pre: seq<Item>, last: Item, p: seq<Item>, t: set<int>, x: int)
    requires last.Slot? && last.n == 0 && x == LowestFree(t, 1)
    requires Swept(taken, pre, p, t)
    ensures Swept(taken, pre + [last], p + [Slot(x)], t + {x})
  {
    assert ClaimOf(Slot(x)) == {x} by { assert x != 0; }
    SweptAppend(taken, pre, last, p, t, Slot(x));
  }

  /** A claim or an assigned slot last: it is kept. */
  lemma SweptKeep(taken: set<int>, pre: seq<Item>, last: Item, p: seq<Item>, t: set<int>)
    requires !(last.Slot? && last.n == 0)
    requires Claimed(pre) <= taken && ClaimOf(last) <= taken && Claimed(pre) !! ClaimOf(last)
    requires Fill(taken, pre) == (p, t) && Swept(taken, pre, p, t)
    ensures Swept(taken, pre + [last], p + [last], t)
  {
    FillKeepsOld(taken, pre, last);
    SweptAppend(taken, pre, last, p, t, last);
  }

  /** The sweep's promise for one more item, given what became of it. */
  lemma SweptAppend(taken: set<int>, pre: seq<Item>, last: Item, p: seq<Item>, t: set<int>, y: Item)
    requires Swept(taken, pre, p, t)
    requires !(y.Slot? && y.n == 0) && Claimed(p) !! ClaimOf(y)
    requires !(last.Slot? && last.n == 0) ==> y == last && ClaimOf(y) <= taken
    requires last.Slot? && last.n == 0 ==> y.Slot? && y.n >= 1 && y.n !in taken
    ensures Swept(taken, pre + [last], p + [y], t + ClaimOf(y))
  {
    var items, out := pre + [last], p + [y];
    SnocParts(p, y);
    SnocIndex(pre, last);
    SnocIndex(p, y);
    forall i | 0 <= i < |items| && !(items[i].Slot? && items[i].n == 0)
      ensures out[i] == items[i]
    {
      if i < |pre| { assert items[i] == pre[i] && out[i] == p[i]; }
    }
    forall i | 0 <= i < |items| && items[i].Slot? && items[i].n == 0
      ensures out[i].Slot? && out[i].n >= 1 && out[i].n !in taken
    {
      if i < |pre| { assert items[i] == pre[i] && out[i] == p[i]; }
    }
    forall i | 0 <= i < |out|
      ensures !(out[i].Slot? && out[i].n == 0)
    {
      if i < |p| { assert out[i] == p[i]; }
    }
  }

  /** Claims and disjointness of a sequence with one more item. */
  lemma SnocParts(p: seq<Item>, y: Item)
    ensures Claimed(p + [y]) == Claimed(p) + ClaimOf(y)
    ensures PairwiseDisjoint(p + [y]) <==> Claimed(p) !! ClaimOf(y) && PairwiseDisjoint(p)
  {
    assert (p + [y])[..|p|] == p;
  }

  /** Indexing a sequence with one more item. */
  lemma SnocIndex<T>(p: seq<T>, y: T)
    ensures |p + [y]| == |p| + 1 && (p + [y])[|p|] == y
    ensures forall i :: 0 <= i < |p| ==> (p + [y])[i] == p[i]
  {
  }

  lemma FillKeepsOld(taken: set<int>, pre: seq<Item>, last: Item)
    requires Claimed(pre) <= taken && ClaimOf(last) <= taken && Claimed(pre) !! ClaimOf(last)
    requires var (p, t) := Fill(taken, pre);
      t == taken + Claimed(p)
      && (forall i :: 0 <= i < |pre| && !(pre[i].Slot? && pre[i].n == 0) ==> p[i] == pre[i])
      && (forall i :: 0 <= i < |pre| && pre[i].Slot? && pre[i].n == 0 ==> p[i].Slot? && p[i].n >= 1 && p[i].n !in taken)
    ensures Claimed(Fill(taken, pre).0) !! ClaimOf(last)
  {
    var p := Fill(taken, pre).0;
    forall c | c in ClaimOf(last) ensures c !in Claimed(p) {
      if c in Claimed(p) {
        var i := ClaimedBy(p, c);
        assert !(pre[i].Slot? && pre[i].n == 0);
        ClaimedByIn(pre, i, c);
        assert false;
      }
    }
  }

  /** The item that claims a claimed index. */
  lemma {:induction false} ClaimedBy(items: seq<Item>, c: int) returns (i: nat)
    requires c in Claimed(items)
    ensures i < |items| && c in ClaimOf(items[i])
  {
    if c in ClaimOf(items[|items| - 1]) {
      i := |items| - 1;
    } else {
      i := ClaimedBy(items[..|items| - 1], c);
    }
  }

  lemma {:induction false} ClaimedByIn(items: seq<Item>, i: nat, c: int)
    requires i < |items| && c in ClaimOf(items[i])
    ensures c in Claimed(items)
  {
    if i < |items| - 1 {
      ClaimedByIn(items[..|items| - 1], i, c);
    }
  }

  /** Two different slots of a disjoint list carry different numbers, and no slot number is reserved by another item. */
  lemma {:induction false} DisjointSlots(items: seq<Item>, i: nat, j: nat)
    requires PairwiseDisjoint(items) && i < j < |items|
    requires items[j].Slot? && items[j].n != 0
    ensures items[j].n !in ClaimOf(items[i])
  {
    if j == |items| - 1 {
      if items[j].n in ClaimOf(items[i]) {
        ClaimedByIn(items[..j], i, items[j].n);
        assert false;
      }
    } else {
      DisjointSlots(items[..|items| - 1], i, j);
    }
  }

  // The sweep on the body itself: the same as `Fill` on its items.

  datatype Pass = MarkPass | SweepPass

  function SweepField(taken: set<int>, f: Field): (r: (Field, set<int>))
    decreases f, 1
  {
    match f.ty
    case OneofType(fields, opts) =>
      var (fs, t) := SweepFields(taken, fields);
      (f.(ty := OneofType(fs, opts)), t)
    case RpcType(_, _, _) => (f, taken)
    case _ =>
      if f.number == 0 then
        var x := LowestFree(taken, 1);
        (f.(number := x), taken + {x})
      else (f, taken)
  }

  function SweepFields(taken: set<int>, fields: seq<Field>): (r: (seq<Field>, set<int>))
    ensures |r.0| == |fields|
    decreases fields, 0
  {
    if |fields| == 0 then ([], taken)
    else
      var (p, t) := SweepFields(taken, fields[..|fields| - 1]);
      var (f, t') := SweepField(t, fields[|fields| - 1]);
      (p + [f], t')
  }

  function SweepStmt(taken: set<int>, s: Stmt): (Stmt, set<int>)
  {
    match s
    case FieldStmt(f) => var (g, t) := SweepField(taken, f); (FieldStmt(g), t)
    case _ => (s, taken)
  }

  function SweepBody(taken: set<int>, body: seq<Stmt>): (r: (seq<Stmt>, set<int>))
    ensures |r.0| == |body|
  {
    if |body| == 0 then ([], taken)
    else
      var (p, t) := SweepBody(taken, body[..|body| - 1]);
      var (s, t') := SweepStmt(t, body[|body| - 1]);
      (p + [s], t')
  }

  /** Sweeping two lists of items one after the other is sweeping their concatenation. */
  lemma {:induction false} FillAppend(taken: set<int>, a: seq<Item>, b: seq<Item>)
    ensures Fill(taken, a + b) == (Fill(taken, a).0 + Fill(Fill(taken, a).1, b).0, Fill(Fill(taken, a).1, b).1)
  {
    if |b| == 0 {
      assert a + b == a;
      assert Fill(Fill(taken, a).1, b) == ([], Fill(taken, a).1);
      assert Fill(taken, a).0 + [] == Fill(taken, a).0;
    } else {
      var b' := b[..|b| - 1];
      assert (a + b)[..|a + b| - 1] == a + b';
      assert (a + b)[|a + b| - 1] == b[|b| - 1];
      FillAppend(taken, a, b');
      var (pa, ta) := Fill(taken, a);
      var (pb, tb) := Fill(ta, b');
      var (pab, tab) := Fill(taken, a + b');
      assert pab == pa + pb && tab == tb;
      var last := b[|b| - 1];
      if last.Slot? && last.n == 0 {
        var x := LowestFree(tb, 1);
        assert Fill(ta, b) == (pb + [Slot(x)], tb + {x});
        assert Fill(taken, a + b) == (pab + [Slot(x)], tab + {x});
        assert pab + [Slot(x)] == pa + (pb + [Slot(x)]);
      } else {
        assert Fill(ta, b) == (pb + [last], tb);
        assert Fill(taken, a + b) == (pab + [last], tab);
        assert pab + [last] == pa + (pb + [last]);
      }
    }
  }

  lemma {:induction false} SweepFieldItems(taken: set<int>, f: Field)
    ensures FieldItems(SweepField(taken, f).0) == Fill(taken, FieldItems(f)).0
    ensures SweepField(taken, f).1 == Fill(taken, FieldItems(f)).1
    decreases f, 1
  {
    if f.ty.OneofType? {
      SweepFieldsItems(taken, f.ty.fields);
    } else if !f.ty.RpcType? {
      FillOne(taken, Slot(f.number));
    }
  }

  /** The sweep of a single item. */
  lemma FillOne(taken: set<int>, item: Item)
    ensures Fill(taken, [item]) ==
      if item.Slot? && item.n == 0 then ([Slot(LowestFree(taken, 1))], taken + {LowestFree(taken, 1)}) else ([item], taken)
  {
    assert [item][..0] == [];
    assert Fill(taken, []) == ([], taken);
    assert forall x: Item :: [] + [x] == [x];
  }

  lemma {:induction false} SweepFieldsItems(taken: set<int>, fields: seq<Field>)
    ensures MembersItems(SweepFields(taken, fields).0) == Fill(taken, MembersItems(fields)).0
    ensures SweepFields(taken, fields).1 == Fill(taken, MembersItems(fields)).1
    decreases fields, 0
  {
    if |fields| > 0 {
      var pre := fields[..|fields| - 1];
      var (p, t) := SweepFields(taken, pre);
      SweepFieldsItems(taken, pre);
      SweepFieldItems(t, fields[|fields| - 1]);
      FillAppend(taken, MembersItems(pre), FieldItems(fields[|fields| - 1]));
      var out := SweepFields(taken, fields).0;
      assert out[..|out| - 1] == p;
    }
  }

  lemma {:induction false} SweepBodyItems(taken: set<int>, body: seq<Stmt>)
    ensures BodyItems(SweepBody(taken, body).0) == Fill(taken, BodyItems(body)).0
    ensures SweepBody(taken, body).1 == Fill(taken, BodyItems(body)).1
  {
    if |body| > 0 {
      var pre := body[..|body| - 1];
      var last := body[|body| - 1];
      var (p, t) := SweepBody(taken, pre);
      SweepBodyItems(taken, pre);
      FillAppend(taken, BodyItems(pre), StmtItems(last));
      var out := SweepBody(taken, body).0;
      assert out[..|out| - 1] == p;
      match last
      case FieldStmt(f) => SweepFieldItems(t, f);
      case ReservedStmt(values) => FillReserved(t, ReservedItems(values));
      case _ =>
    }
  }

  /** The sweep passes over reserved claims. */
  lemma {:induction false} FillReserved(taken: set<int>, items: seq<Item>)
    requires forall i :: 0 <= i < |items| ==> items[i].Reserve?
    ensures Fill(taken, items) == (items, taken)
  {
    if |items| > 0 {
      FillReserved(taken, items[..|items| - 1]);
      assert items[..|items| - 1] + [items[|items| - 1]] == items;
    }
  }

  /** A field with every number set to 0: what the sweep may not change. */
  function EraseField(f: Field): Field
    decreases f, 1
  {
    match f.ty
    case OneofType(fields, opts) => f.(ty := OneofType(EraseFields(fields), opts))
    case RpcType(_, _, _) => f
    case _ => f.(number := 0)
  }

  function EraseFields(fields: seq<Field>): (r: seq<Field>)
    ensures |r| == |fields|
    decreases fields, 0
  {
    if |fields| == 0 then [] else EraseFields(fields[..|fields| - 1]) + [EraseField(fields[|fields| - 1])]
  }

  function EraseBody(body: seq<Stmt>): (r: seq<Stmt>)
    ensures |r| == |body|
  {
    if |body| == 0 then []
    else
      var last := body[|body| - 1];
      EraseBody(body[..|body| - 1]) + [if last.FieldStmt? then FieldStmt(EraseField(last.field)) else last]
  }

  /** The sweep changes nothing but field numbers. */
  lemma {:induction false} SweepFieldErase(taken: set<int>, f: Field)
    ensures EraseField(SweepField(taken, f).0) == EraseField(f)
    decreases f, 1
  {
    match f.ty
    case OneofType(fields, opts) => SweepFieldsErase(taken, fields);
    case _ =>
  }

  lemma {:induction false} SweepFieldsErase(taken: set<int>, fields: seq<Field>)
    ensures EraseFields(SweepFields(taken, fields).0) == EraseFields(fields)
    decreases fields, 0
  {
    if |fields| > 0 {
      var pre := fields[..|fields| - 1];
      var (p, t) := SweepFields(taken, pre);
      SweepFieldsErase(taken, pre);
      SweepFieldErase(t, fields[|fields| - 1]);
      var out := SweepFields(taken, fields).0;
      assert out[..|out| - 1] == p;
    }
  }

  lemma {:induction false} SweepBodyErase(taken: set<int>, body: seq<Stmt>)
    ensures EraseBody(SweepBody(taken, body).0) == EraseBody(body)
  {
    if |body| > 0 {
      var pre := body[..|body| - 1];
      var (p, t) := SweepBody(taken, pre);
      SweepBodyErase(taken, pre);
      var out := SweepBody(taken, body).0;
      assert out[..|out| - 1] == p;
      if body[|body| - 1].FieldStmt? {
        SweepFieldErase(t, body[|body| - 1].field);
      }
    }
  }

  /**
   * The allocation theorem: when the mark pass over a body succeeds from an
   * empty allocator, the sweep changes only field numbers, keeps every
   * non-zero number, leaves no number 0, gives each new number a positive
   * index that was neither used nor reserved, and afterwards no two numbers
   * or reservations overlap: marking the result again succeeds.
   */
  lemma AllocationTheorem(body: seq<Stmt>)
    requires MarkAll({}, BodyItems(body)).Some?
    ensures var taken := MarkAll({}, BodyItems(body)).value;
      var out := SweepBody(taken, body).0;
      var before := BodyItems(body);
      var after := BodyItems(out);
      && EraseBody(out) == EraseBody(body)
      && |after| == |before|
      && (forall i :: 0 <= i < |before| && !(before[i].Slot? && before[i].n == 0) ==> after[i] == before[i])
      && (forall i :: 0 <= i < |before| && before[i].Slot? && before[i].n == 0 ==>
            after[i].Slot? && after[i].n >= 1 && after[i].n !in taken)
      && (forall i :: 0 <= i < |after| ==> !(after[i].Slot? && after[i].n == 0))
      && MarkAll({}, after).Some?
  {
    var items := BodyItems(body);
    MarkAllSpec({}, items);
    var taken := MarkAll({}, items).value;
    FillSpec(taken, items);
    SweepBodyItems(taken, body);
    SweepBodyErase(taken, body);
    MarkAllSpec({}, BodyItems(SweepBody(taken, body).0));
  }

  // ---------------------------------------------------------------------
  // The passes, run on the allocator.

  lemma MarkAllAppendOne(taken: set<int>, items: seq<Item>, item: Item)
    ensures MarkAll(taken, items + [item]) ==
      match MarkAll(taken, items)
      case None => None
      case Some(t) => if t !! ClaimOf(item) then Some(t + ClaimOf(item)) else None
  {
    assert (items + [item])[..|items|] == items;
  }

  /** Marking two lists one after the other is marking their concatenation. */
  lemma {:induction false} MarkAllAppend(taken: set<int>, a: seq<Item>, b: seq<Item>)
    ensures MarkAll(taken, a + b) == if MarkAll(taken, a).None? then None else MarkAll(MarkAll(taken, a).value, b)
  {
    if |b| == 0 {
      assert a + b == a;
    } else {
      assert (a + b)[..|a + b| - 1] == a + b[..|b| - 1];
      MarkAllAppend(taken, a, b[..|b| - 1]);
    }
  }

  /** One slot or claim, marked on the allocator. */
  method MarkItem(alloc: IndexAllocator, item: Item) returns (ok: bool)
    requires alloc.Valid()
    modifies alloc
    ensures alloc.Valid()
    ensures ok <==> MarkAll(old(alloc.taken), [item]).Some?
    ensures ok ==> alloc.taken == MarkAll(old(alloc.taken), [item]).value
  {
    assert [item][..0] == [];
    match item
    case Slot(n) =>
      if n == 0 {
        ok := true;
      } else {
        assert RangeEnd(n, None) == n;
        ok := alloc.Mark(n, None);
      }
    case Reserve(lo, hi) =>
      ok := alloc.Mark(lo, hi);
  }

  /** `SimpleFieldDef.allocate(alloc, pass)`. */
  method AllocateField(alloc: IndexAllocator, f: Field, pass: Pass) returns (r: Field, ok: bool)
    requires alloc.Valid()
    modifies alloc
    ensures alloc.Valid()
    ensures pass == MarkPass ==> (r == f
      && (ok <==> MarkAll(old(alloc.taken), FieldItems(f)).Some?)
      && (ok ==> alloc.taken == MarkAll(old(alloc.taken), FieldItems(f)).value))
    ensures pass == SweepPass ==> ok && (r, alloc.taken) == SweepField(old(alloc.taken), f)
    decreases f, 1
  {
    match f.ty
    case OneofType(fields, opts) =>
      var fs;
      fs, ok := AllocateMembers(alloc, fields, pass);
      r := if pass == MarkPass then f else f.(ty := OneofType(fs, opts));
    case RpcType(_, _, _) =>
      r, ok := f, true;
    case _ =>
      r, ok := f, true;
      if pass == MarkPass {
        ok := MarkItem(alloc, Slot(f.number));
      } else if f.number == 0 {
        var x := alloc.Next();
        r := f.(number := x);
      }
  }

  /** The oneof case of `allocate`: each member in turn. */
  method AllocateMembers(alloc: IndexAllocator, fields: seq<Field>, pass: Pass) returns (fs: seq<Field>, ok: bool)
    requires alloc.Valid()
    modifies alloc
    ensures alloc.Valid()
    ensures pass == MarkPass ==> (fs == fields
      && (ok <==> MarkAll(old(alloc.taken), MembersItems(fields)).Some?)
      && (ok ==> alloc.taken == MarkAll(old(alloc.taken), MembersItems(fields)).value))
    ensures pass == SweepPass ==> ok && (fs, alloc.taken) == SweepFields(old(alloc.taken), fields)
    decreases fields, 0
  {
    fs := if pass == MarkPass then fields else [];
    var i := 0;
    while i < |fields|
      invariant 0 <= i <= |fields| && alloc.Valid()
      invariant pass == MarkPass ==> fs == fields && MarkAll(old(alloc.taken), MembersItems(fields[..i])) == Some(alloc.taken)
      invariant pass == SweepPass ==> (fs, alloc.taken) == SweepFields(old(alloc.taken), fields[..i])
    {
      MembersStep(old(alloc.taken), fields, i);
      MarkAllAppend(old(alloc.taken), MembersItems(fields[..i]), FieldItems(fields[i]));
      var g, fine := AllocateField(alloc, fields[i], pass);
      if !fine {
        MembersStops(old(alloc.taken), fields, i);
        return fields, false;
      }
      if pass == SweepPass {
        fs := fs + [g];
      }
      i := i + 1;
    }
    assert fields[..i] == fields;
    ok := true;
  }

  lemma ReservedItemsStep(values: seq<ReservedValue>, i: nat)
    requires i < |values|
    ensures ReservedItems(values[..i + 1]) == ReservedItems(values[..i]) + ValueItems(values[i])
  {
    assert values[..i + 1][..i] == values[..i];
  }

  /** Marking one more reserved value goes on from what the earlier ones took. */
  lemma ReservedMarkStep(taken: set<int>, values: seq<ReservedValue>, i: nat, t: set<int>)
    requires i < |values| && MarkAll(taken, ReservedItems(values[..i])) == Some(t)
    ensures MarkAll(taken, ReservedItems(values[..i + 1])) == MarkAll(t, ValueItems(values[i]))
  {
    ReservedItemsStep(values, i);
    MarkAllAppend(taken, ReservedItems(values[..i]), ValueItems(values[i]));
  }

  /** A clash among the first `i + 1` reserved values is a clash of them all. */
  lemma ReservedStops(taken: set<int>, values: seq<ReservedValue>, i: nat)
    requires i < |values| && MarkAll(taken, ReservedItems(values[..i + 1])).None?
    ensures MarkAll(taken, ReservedItems(values)).None?
  {
    assert values[..i + 1] + values[i + 1..] == values;
    ReservedItemsAppend(values[..i + 1], values[i + 1..]);
    MarkAllAppend(taken, ReservedItems(values[..i + 1]), ReservedItems(values[i + 1..]));
  }

  lemma MembersStep(taken: set<int>, fields: seq<Field>, i: nat)
    requires i < |fields|
    ensures MembersItems(fields[..i + 1]) == MembersItems(fields[..i]) + FieldItems(fields[i])
    ensures SweepFields(taken, fields[..i + 1]) ==
      (SweepFields(taken, fields[..i]).0 + [SweepField(SweepFields(taken, fields[..i]).1, fields[i]).0],
       SweepField(SweepFields(taken, fields[..i]).1, fields[i]).1)
  {
    assert fields[..i + 1][..i] == fields[..i];
  }

  lemma MembersStops(taken: set<int>, fields: seq<Field>, i: nat)
    requires i < |fields| && MarkAll(taken, MembersItems(fields[..i + 1])).None?
    ensures MarkAll(taken, MembersItems(fields)).None?
  {
    assert fields[..i + 1] + fields[i + 1..] == fields;
    MembersItemsAppend(fields[..i + 1], fields[i + 1..]);
    MarkAllAppend(taken, MembersItems(fields[..i + 1]), MembersItems(fields[i + 1..]));
  }

  lemma BodyStep(taken: set<int>, body: seq<Stmt>, i: nat)
    requires i < |body|
    ensures BodyItems(body[..i + 1]) == BodyItems(body[..i]) + StmtItems(body[i])
    ensures SweepBody(taken, body[..i + 1]) ==
      (SweepBody(taken, body[..i]).0 + [SweepStmt(SweepBody(taken, body[..i]).1, body[i]).0],
       SweepStmt(SweepBody(taken, body[..i]).1, body[i]).1)
  {
    assert body[..i + 1][..i] == body[..i];
  }

  lemma BodyStops(taken: set<int>, body: seq<Stmt>, i: nat)
    requires i < |body| && MarkAll(taken, BodyItems(body[..i + 1])).None?
    ensures MarkAll(taken, BodyItems(body)).None?
  {
    assert body[..i + 1] + body[i + 1..] == body;
    BodyItemsAppend(body[..i + 1], body[i + 1..]);
    MarkAllAppend(taken, BodyItems(body[..i + 1]), BodyItems(body[i + 1..]));
  }

  lemma {:induction false} MembersItemsAppend(a: seq<Field>, b: seq<Field>)
    ensures MembersItems(a + b) == MembersItems(a) + MembersItems(b)
  {
    if |b| == 0 {
      assert a + b == a;
    } else {
      assert (a + b)[..|a + b| - 1] == a + b[..|b| - 1];
      MembersItemsAppend(a, b[..|b| - 1]);
    }
  }

  lemma {:induction false} BodyItemsAppend(a: seq<Stmt>, b: seq<Stmt>)
    ensures BodyItems(a + b) == BodyItems(a) + BodyItems(b)
  {
    if |b| == 0 {
      assert a + b == a;
    } else {
      var b' := b[..|b| - 1];
      assert (a + b)[..|a + b| - 1] == a + b';
      assert (a + b)[|a + b| - 1] == b[|b| - 1];
      BodyItemsAppend(a, b');
      calc {
        BodyItems(a + b);
        BodyItems(a + b') + StmtItems(b[|b| - 1]);
        (BodyItems(a) + BodyItems(b')) + StmtItems(b[|b| - 1]);
        { ConcatAssoc(BodyItems(a), BodyItems(b'), StmtItems(b[|b| - 1])); }
        BodyItems(a) + (BodyItems(b') + StmtItems(b[|b| - 1]));
      }
    }
  }

  lemma {:induction false} ReservedItemsAppend(a: seq<ReservedValue>, b: seq<ReservedValue>)
    ensures ReservedItems(a + b) == ReservedItems(a) + ReservedItems(b)
  {
    if |b| == 0 {
      assert a + b == a;
    } else {
      assert (a + b)[..|a + b| - 1] == a + b[..|b| - 1];
      ReservedItemsAppend(a, b[..|b| - 1]);
    }
  }

  /** One reserved value on the mark pass: a number or a range is marked, a name is skipped. */
  method MarkValue(alloc: IndexAllocator, v: ReservedValue) returns (ok: bool)
    requires alloc.Valid()
    modifies alloc
    ensures alloc.Valid()
    ensures ok <==> MarkAll(old(alloc.taken), ValueItems(v)).Some?
    ensures ok ==> alloc.taken == MarkAll(old(alloc.taken), ValueItems(v)).value
  {
    if v.ReservedName? {
      ok := true;
    } else {
      var item := if v.ReservedNumber? then Reserve(v.n, None) else Reserve(v.lo, Some(v.hi));
      assert ValueItems(v) == [item];
      ok := MarkItem(alloc, item);
    }
  }

  /** `ReservedFieldDef.allocate`: on the mark pass, each number and range in order; names are ignored. */
  method AllocateReserved(alloc: IndexAllocator, values: seq<ReservedValue>, pass: Pass) returns (ok: bool)
    requires alloc.Valid()
    modifies alloc
    ensures alloc.Valid()
    ensures pass == MarkPass ==> ((ok <==> MarkAll(old(alloc.taken), ReservedItems(values)).Some?)
      && (ok ==> alloc.taken == MarkAll(old(alloc.taken), ReservedItems(values)).value))
    ensures pass == SweepPass ==> ok && alloc.taken == old(alloc.taken)
  {
    ok := true;
    if pass == SweepPass {
      return;
    }
    var i := 0;
    while i < |values|
      invariant 0 <= i <= |values| && alloc.Valid()
      invariant MarkAll(old(alloc.taken), ReservedItems(values[..i])) == Some(alloc.taken)
      decreases |values| - i
    {
      ReservedMarkStep(old(alloc.taken), values, i, alloc.taken);
      ok := MarkValue(alloc, values[i]);
      if !ok {
        ReservedStops(old(alloc.taken), values, i);
        return false;
      }
      i := i + 1;
    }
    assert values[..i] == values;
  }

  /** `field.allocate(alloc, pass)` for one statement of a body, dispatched on its class; other statements are left alone. */
  method AllocateStmt(alloc: IndexAllocator, s: Stmt, pass: Pass) returns (r: Stmt, ok: bool)
    requires alloc.Valid()
    modifies alloc
    ensures alloc.Valid()
    ensures pass == MarkPass ==> (r == s
      && (ok <==> MarkAll(old(alloc.taken), StmtItems(s)).Some?)
      && (ok ==> alloc.taken == MarkAll(old(alloc.taken), StmtItems(s)).value))
    ensures pass == SweepPass ==> ok && (r, alloc.taken) == SweepStmt(old(alloc.taken), s)
  {
    r, ok := s, true;
    if s.FieldStmt? {
      var g;
      g, ok := AllocateField(alloc, s.field, pass);
      r := FieldStmt(g);
    } else if s.ReservedStmt? {
      ok := AllocateReserved(alloc, s.values, pass);
    }
  }

  /** `runPass(scope, pass)`: `allocate` on every field definition of the body, in order. */
  method RunPass(alloc: IndexAllocator, body: seq<Stmt>, pass: Pass) returns (out: seq<Stmt>, ok: bool)
    requires alloc.Valid()
    modifies alloc
    ensures alloc.Valid()
    ensures pass == MarkPass ==> (out == body
      && (ok <==> MarkAll(old(alloc.taken), BodyItems(body)).Some?)
      && (ok ==> alloc.taken == MarkAll(old(alloc.taken), BodyItems(body)).value))
    ensures pass == SweepPass ==> ok && (out, alloc.taken) == SweepBody(old(alloc.taken), body)
  {
    out := if pass == MarkPass then body else [];
    var i := 0;
    while i < |body|
      invariant 0 <= i <= |body| && alloc.Valid()
      decreases |body| - i
      invariant pass == MarkPass ==> out == body && MarkAll(old(alloc.taken), BodyItems(body[..i])) == Some(alloc.taken)
      invariant pass == SweepPass ==> (out, alloc.taken) == SweepBody(old(alloc.taken), body[..i])
    {
      BodyStep(old(alloc.taken), body, i);
      MarkAllAppend(old(alloc.taken), BodyItems(body[..i]), StmtItems(body[i]));
      var s, fine := AllocateStmt(alloc, body[i], pass);
      if !fine {
        BodyStops(old(alloc.taken), body, i);
        return body, false;
      }
      if pass == SweepPass {
        out := out + [s];
      }
      i := i + 1;
    }
    assert body[..i] == body;
    ok := true;
  }

  /** `markSweep(scope)`: the mark pass, then the sweep pass, then `reset`; a clash in the mark pass is an error. */
  method MarkSweep(alloc: IndexAllocator, body: seq<Stmt>) returns (r: Result<seq<Stmt>>)
    requires alloc.Valid()
    modifies alloc
    ensures alloc.Valid()
    ensures r.Ok? <==> MarkAll(old(alloc.taken), BodyItems(body)).Some?
    ensures r.Err? ==> r == Err("Index is already taken")
    ensures r.Ok? ==> (r.value == SweepBody(MarkAll(old(alloc.taken), BodyItems(body)).value, body).0
      && alloc.taken == {} && alloc.hint == 1)
  {
    var marked, ok := RunPass(alloc, body, MarkPass);
    if !ok {
      return Err("Index is already taken");
    }
    var swept, _ := RunPass(alloc, body, SweepPass);
    alloc.Reset();
    r := Ok(swept);
  }
}
