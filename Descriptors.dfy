/**
 * The descriptor builders of lib/proto/cvt.ts: a message, enum or service
 * definition, a file and a set of files turned into the descriptor.proto
 * values `DescriptorProto`, `EnumDescriptorProto`, `ServiceDescriptorProto`,
 * `FileDescriptorProto` and `FileDescriptorSet`. Each builder is a loop
 * over a body, proved equal to a function that states what it builds.
 *
 * What the builders take from the rest of the compiler is one parameter,
 * `cx`: where each definition sits (for fully qualified names), the
 * `pascalCase` function of the change-case package, and the option
 * converter `convertOptions`, which `Cvt.ConvertOptions` computes as
 * `Cvt.Converted`. Everything proved here holds for any converter.
 */
module Descriptors {
  import opened Wrappers
  import opened Strings
  import opened Base
  import opened Types
  import opened Udts
  import opened Registry
  import opened Cvt

  /** The builders' context; `Compiling` is the one the compiler runs with. */
  datatype Ctx = Ctx(env: Placement, pascal: string -> string, convert: (OptionMap, Owner) -> seq<Written>)

  /** The context for a list of files: each definition placed where the files hold it, and the option converter of lib/proto/cvt.ts. */
  function Compiling(roots: seq<Root>, pascal: string -> string): (cx: Ctx)
    ensures cx.env == PlacementOf(roots) && cx.pascal == pascal
    ensures forall opts, o :: cx.convert(opts, o) == Converted(opts, o)
  {
    Ctx(PlacementOf(roots), pascal, Converted)
  }

  /**
   * Compiling a list of files with distinct identities, a message or enum
   * held in file `k` in a scope of chain `at` has the type name `.` and the
   * qualified name of `[name] + at`, and a message has that qualified name
   * as the scope of its fields.
   */
  lemma QualifiedAt(roots: seq<Root>, pascal: string -> string, k: nat, d: TypeDef, at: seq<string>)
    requires Unique(RootIds(roots)) && k < |roots| && InBody(d, roots[k].body, RootScope(roots[k]), at)
    requires d.ref.kind != ServiceDef
    ensures var cx := Compiling(roots, pascal);
      TypeNameOf(DefType(d.ref), TYPE_MESSAGE, cx) == Some("." + QualifiedScopeName([d.ref.name] + at))
      && TypeNameOf(DefType(d.ref), TYPE_ENUM, cx) == Some("." + QualifiedScopeName([d.ref.name] + at))
      && MessageOf(d, cx) == BodyInto(QualifiedScopeName([d.ref.name] + at), EmptyMessage(d.ref.name, Converted(d.options, MessageOwner)), d.body, cx)
  {
    PlacementAt(roots, k, d, at);
  }

  /** Package `p` holding `message M { message N {} }`: a field of type `N` names `.p.M.N`. */
  lemma NestedTypeName(pascal: string -> string)
    ensures var n := TypeDef(DefRef(1, MessageDef, "N"), None, NoOptions, [], {});
      var m := TypeDef(DefRef(0, MessageDef, "M"), None, NoOptions, [DefStmt(n)], {"N"});
      var roots := [Root("a.proto", Some("p"), [], NoOptions, [DefStmt(m)])];
      TypeNameOf(DefType(n.ref), TYPE_MESSAGE, Compiling(roots, pascal)) == Some(".p.M.N")
  {
    var n := TypeDef(DefRef(1, MessageDef, "N"), None, NoOptions, [], {});
    var m := TypeDef(DefRef(0, MessageDef, "M"), None, NoOptions, [DefStmt(n)], {"N"});
    var roots := [Root("a.proto", Some("p"), [], NoOptions, [DefStmt(m)])];
    NestedPlacement(n, m, roots);
    var env := PlacementOf(roots);
    assert Chain(n.ref, env) == ["N", "M", "p"];
    NestedName();
    assert Print(DefType(n.ref), FullyQualified, env) == Ok("p.M.N");
    assert "." + "p.M.N" == ".p.M.N";
  }

  lemma NestedPlacement(n: TypeDef, m: TypeDef, roots: seq<Root>)
    requires n.ref.id == 1 && n.body == [] && m.ref == DefRef(0, MessageDef, "M") && m.body == [DefStmt(n)]
    requires roots == [Root("a.proto", Some("p"), [], NoOptions, [DefStmt(m)])]
    ensures n.ref.id in PlacementOf(roots) && PlacementOf(roots)[n.ref.id] == ["M", "p"]
  {
    assert InStmt(n, m.body[0], ["M", "p"], ["M", "p"]);
    assert InStmt(n, roots[0].body[0], RootScope(roots[0]), ["M", "p"]);
    assert m.body[..0] == [] && roots[0].body[..0] == [] && roots[..0] == [];
    assert StmtIds(DefStmt(n)) == [1];
    assert BodyIds(m.body) == [1];
    assert BodyIds(roots[0].body) == [0, 1];
    assert RootIds(roots) == [0, 1];
    PlacementAt(roots, 0, n, ["M", "p"]);
  }

  lemma NestedName()
    ensures QualifiedScopeName(["N", "M", "p"]) == "p.M.N"
  {
    assert ["N", "M", "p"][1..] == ["M", "p"];
    assert ["M", "p"][1..] == ["p"];
    assert ["p"][1..] == [];
    assert QualifiedScopeName(["p"]) == "p";
    assert QualifiedScopeName(["M", "p"]) == "p.M";
  }

  /**
   * Compiling a list of files, a message or enum that no file holds in a
   * body, and that the type of a field of `d` alone reaches (a request or
   * response message that relocation placed nowhere, held by an rpc of
   * service `d`), is named under `d`: `.` and the qualified name of its own
   * name, `d`'s name and `d`'s scopes.
   */
  lemma ReachedTypeName(roots: seq<Root>, pascal: string -> string, k: nat, d: TypeDef, f: Field, r: DefRef, at: seq<string>)
    requires k < |roots| && InBody(d, roots[k].body, RootScope(roots[k]), at)
    requires FieldStmt(f) in d.body && r.id in TypeIds(f.ty) && r.kind != ServiceDef
    requires r.id !in RootIds(roots) && multiset(ReachedIds(roots))[r.id] <= 1
    ensures TypeNameOf(DefType(r), TYPE_MESSAGE, Compiling(roots, pascal)) == Some("." + QualifiedScopeName([r.name, d.ref.name] + at))
  {
    PlacementReached(roots, k, d, f, r, at);
  }

  /**
   * Package `p` holding service `S` with `rpc m`, whose request and response
   * messages no file holds: the method names `.p.S.mRequest` and
   * `.p.S.mResponse`, the service being their parent.
   */
  lemma UnplacedRequestName(pascal: string -> string)
    ensures var f := Field("m", RpcType(DefType(DefRef(1, MessageDef, "mRequest")), DefType(DefRef(2, MessageDef, "mResponse")), NoOptions), 0, NoOptions);
      var svc := TypeDef(DefRef(0, ServiceDef, "S"), None, NoOptions, [FieldStmt(f)], {"m"});
      var roots := [Root("a.proto", Some("p"), [], NoOptions, [DefStmt(svc)])];
      MethodOf(f, Compiling(roots, pascal))
        == Ok(MethodDesc("m", ".p.S.mRequest", ".p.S.mResponse", false, false, Converted(NoOptions, MethodOwner)))
  {
    var req := DefRef(1, MessageDef, "mRequest");
    var res := DefRef(2, MessageDef, "mResponse");
    var f := Field("m", RpcType(DefType(req), DefType(res), NoOptions), 0, NoOptions);
    var svc := TypeDef(DefRef(0, ServiceDef, "S"), None, NoOptions, [FieldStmt(f)], {"m"});
    var roots := [Root("a.proto", Some("p"), [], NoOptions, [DefStmt(svc)])];
    UnplacedPlacement(req, res, f, svc, roots);
    var cx := Compiling(roots, pascal);
    ServiceName(req, cx.env, "mRequest");
    ServiceName(res, cx.env, "mResponse");
    RpcMethod(f, cx);
    assert ".p.S." + "mRequest" == ".p.S.mRequest" && ".p.S." + "mResponse" == ".p.S.mResponse";
    assert cx.convert(NoOptions, MethodOwner) == Converted(NoOptions, MethodOwner);
  }

  /** A method of an rpc between two definitions is named after their fully qualified names. */
  lemma RpcMethod(f: Field, cx: Ctx)
    requires f.ty.RpcType? && f.ty.input.DefType? && f.ty.output.DefType?
    ensures MethodOf(f, cx) == Ok(MethodDesc(f.name, "." + Print(f.ty.input, FullyQualified, cx.env).value,
      "." + Print(f.ty.output, FullyQualified, cx.env).value, false, false, cx.convert(f.options, MethodOwner)))
  {
  }

  lemma UnplacedPlacement(req: DefRef, res: DefRef, f: Field, svc: TypeDef, roots: seq<Root>)
    requires req == DefRef(1, MessageDef, "mRequest") && res == DefRef(2, MessageDef, "mResponse")
    requires f == Field("m", RpcType(DefType(req), DefType(res), NoOptions), 0, NoOptions)
    requires svc == TypeDef(DefRef(0, ServiceDef, "S"), None, NoOptions, [FieldStmt(f)], {"m"})
    requires roots == [Root("a.proto", Some("p"), [], NoOptions, [DefStmt(svc)])]
    ensures req.id in PlacementOf(roots) && PlacementOf(roots)[req.id] == ["S", "p"]
    ensures res.id in PlacementOf(roots) && PlacementOf(roots)[res.id] == ["S", "p"]
  {
    assert InStmt(svc, roots[0].body[0], RootScope(roots[0]), ["p"]);
    assert InBody(svc, roots[0].body, RootScope(roots[0]), ["p"]);
    assert roots[..0] == [] && roots[0].body[..0] == [] && svc.body[..0] == [];
    assert TypeIds(f.ty) == [1, 2];
    assert ReachIds(svc.body, false) == [1, 2];
    assert ReachIds(roots[0].body, true) == StmtReachIds(DefStmt(svc), true) == [1, 2];
    assert ReachedIds(roots) == [1, 2];
    assert BodyIds(svc.body) == [];
    assert BodyIds(roots[0].body) == StmtIds(DefStmt(svc)) == [0];
    assert RootIds(roots) == [0];
    PlacementReached(roots, 0, svc, f, req, ["p"]);
    PlacementReached(roots, 0, svc, f, res, ["p"]);
  }

  lemma ServiceName(d: DefRef, env: Placement, x: string)
    requires d.name == x && (x == "mRequest" || x == "mResponse")
    requires d.id in env && env[d.id] == ["S", "p"]
    ensures "." + Print(DefType(d), FullyQualified, env).value == ".p.S." + x
  {
    assert Chain(d, env) == [x, "S", "p"];
    assert [x, "S", "p"][1..] == ["S", "p"];
    assert ["S", "p"][1..] == ["p"];
    assert ["p"][1..] == [];
    assert QualifiedScopeName(["p"]) == "p";
    assert QualifiedScopeName(["S", "p"]) == "p.S";
    assert QualifiedScopeName([x, "S", "p"]) == "p.S." + x;
  }

  // ---------------------------------------------------------------------
  // The descriptor values. A field left unset is `None`; a repeated field
  // is a sequence in the order of the `add` calls.

  datatype Label = LABEL_OPTIONAL | LABEL_REPEATED

  datatype FieldDesc = FieldDesc(
    name: string,
    number: int,
    fieldLabel: Option<Label>,
    kind: TypeKind,
    typeName: Option<string>,
    proto3Optional: bool,
    oneofIndex: Option<nat>,
    defaultValue: Option<string>,
    options: Option<seq<Written>>)

  datatype OneofDesc = OneofDesc(name: string, options: seq<Written>)

  /** A reserved range, `start` and `end` as the compiler sets them (both inclusive). */
  datatype RangeDesc = RangeDesc(start: int, end: int)

  /** `setNumber(field.number)` stores the value as given: a string-valued member's text stays a string. */
  datatype EnumValueDesc = EnumValueDesc(name: string, number: EnumNumber, options: seq<Written>)

  datatype EnumDesc = EnumDesc(
    name: string, options: seq<Written>, values: seq<EnumValueDesc>,
    reservedRanges: seq<RangeDesc>, reservedNames: seq<string>)

  datatype MethodDesc = MethodDesc(
    name: string, inputType: string, outputType: string,
    clientStreaming: bool, serverStreaming: bool, options: seq<Written>)

  datatype ServiceDesc = ServiceDesc(name: string, options: seq<Written>, methods: seq<MethodDesc>)

  datatype MessageDesc = MessageDesc(
    name: string, options: seq<Written>, fields: seq<FieldDesc>, nested: seq<MessageDesc>,
    enums: seq<EnumDesc>, oneofs: seq<OneofDesc>, reservedRanges: seq<RangeDesc>, reservedNames: seq<string>)

  datatype FileDesc = FileDesc(
    name: Option<string>, package: string, dependencies: seq<string>,
    publicDeps: seq<nat>, weakDeps: seq<nat>, options: seq<Written>,
    messages: seq<MessageDesc>, enums: seq<EnumDesc>, services: seq<ServiceDesc>, syntax: string)

  /** The class name an "Invalid ... type" error reports for a statement. */
  function ClassName(s: Stmt): string
  {
    match s
    case FieldStmt(_) => "SimpleFieldDef"
    case ReservedStmt(_) => "ReservedFieldDef"
    case EnumValueStmt(_, _, _) => "EnumFieldDef"
    case DefStmt(d) =>
      (match d.ref.kind
       case MessageDef => "MessageDef"
       case EnumDef => "EnumDef"
       case ServiceDef => "ServiceDef")
  }

  // ---------------------------------------------------------------------
  // Reserved statements: a number `n` is the range `[n, n]`, a pair is its
  // range, a name is a reserved name.

  function ValueRange(v: ReservedValue): seq<RangeDesc>
  {
    match v
    case ReservedNumber(n) => [RangeDesc(n, n)]
    case ReservedRange(lo, hi) => [RangeDesc(lo, hi)]
    case ReservedName(_) => []
  }

  function ValueName(v: ReservedValue): seq<string>
  {
    match v
    case ReservedName(s) => [s]
    case _ => []
  }

  /** The ranges a reserved statement adds, in order. */
  function RangesOf(values: seq<ReservedValue>): seq<RangeDesc>
  {
    if |values| == 0 then [] else RangesOf(values[..|values| - 1]) + ValueRange(values[|values| - 1])
  }

  /** The names a reserved statement adds, in order. */
  function NamesOf(values: seq<ReservedValue>): seq<string>
  {
    if |values| == 0 then [] else NamesOf(values[..|values| - 1]) + ValueName(values[|values| - 1])
  }

  /** Each value adds one range or one name. */
  lemma {:induction false} ReservedCount(values: seq<ReservedValue>)
    ensures |RangesOf(values)| + |NamesOf(values)| == |values|
  {
    if |values| > 0 {
      ReservedCount(values[..|values| - 1]);
    }
  }

  /** A number `n` is reserved as `[n, n]`, a pair as its range, a name as a name. */
  lemma {:induction false} ReservedCovered(values: seq<ReservedValue>, i: nat)
    requires i < |values|
    ensures values[i].ReservedNumber? ==> RangeDesc(values[i].n, values[i].n) in RangesOf(values)
    ensures values[i].ReservedRange? ==> RangeDesc(values[i].lo, values[i].hi) in RangesOf(values)
    ensures values[i].ReservedName? ==> values[i].name in NamesOf(values)
  {
    var init := values[..|values| - 1];
    if i < |init| {
      assert values[i] == init[i];
      ReservedCovered(init, i);
    }
  }

  /** Nothing but the statement's values is reserved. */
  lemma {:induction false} ReservedOnly(values: seq<ReservedValue>)
    ensures forall r :: r in RangesOf(values) ==>
      ReservedNumber(r.start) in values || ReservedRange(r.start, r.end) in values
    ensures forall s :: s in NamesOf(values) ==> ReservedName(s) in values
  {
    if |values| > 0 {
      var init := values[..|values| - 1];
      var last := values[|values| - 1];
      ReservedOnly(init);
      assert values == init + [last];
      assert forall v :: v in init ==> v in values;
    }
  }

  lemma ReservedStep(values: seq<ReservedValue>, i: nat)
    requires i < |values|
    ensures RangesOf(values[..i + 1]) == RangesOf(values[..i]) + ValueRange(values[i])
    ensures NamesOf(values[..i + 1]) == NamesOf(values[..i]) + ValueName(values[i])
    ensures values[i].ReservedName? ==> RangesOf(values[..i + 1]) == RangesOf(values[..i])
    ensures !values[i].ReservedName? ==> NamesOf(values[..i + 1]) == NamesOf(values[..i])
  {
    assert values[..i + 1][..i] == values[..i];
    assert RangesOf(values[..i]) + [] == RangesOf(values[..i]);
    assert NamesOf(values[..i]) + [] == NamesOf(values[..i]);
  }

  /** The reserved ranges and names one reserved statement adds: the loop of the builders. */
  method AddReserved(values: seq<ReservedValue>) returns (ranges: seq<RangeDesc>, names: seq<string>)
    ensures ranges == RangesOf(values) && names == NamesOf(values)
  {
    ranges, names := [], [];
    var i := 0;
    while i < |values|
      invariant 0 <= i <= |values|
      invariant ranges == RangesOf(values[..i]) && names == NamesOf(values[..i])
    {
      ReservedStep(values, i);
      var v := values[i];
      if v.ReservedNumber? {
        ranges := ranges + [RangeDesc(v.n, v.n)];
      } else if v.ReservedRange? {
        ranges := ranges + [RangeDesc(v.lo, v.hi)];
      } else {
        names := names + [v.name];
      }
      i := i + 1;
    }
    assert values[..i] == values;
  }

  // ---------------------------------------------------------------------
  // Enums.

  function EnumValueOf(s: Stmt, cx: Ctx): EnumValueDesc
    requires s.EnumValueStmt?
  {
    EnumValueDesc(s.name, s.number, cx.convert(s.options, EnumValueOwner))
  }

  /** The enum after the rest of its body: values and reserved statements are added, anything else is refused. */
  function EnumBody(out: EnumDesc, body: seq<Stmt>, cx: Ctx): Result<EnumDesc>
    decreases |body|
  {
    if |body| == 0 then Ok(out)
    else
      var s := body[0];
      if s.EnumValueStmt? then EnumBody(out.(values := out.values + [EnumValueOf(s, cx)]), body[1..], cx)
      else if s.ReservedStmt? then
        EnumBody(out.(reservedRanges := out.reservedRanges + RangesOf(s.values),
                      reservedNames := out.reservedNames + NamesOf(s.values)), body[1..], cx)
      else Err("Invalid field type: " + ClassName(s))
  }

  /** `createEnumDesc(enm)`. */
  function EnumOf(d: TypeDef, cx: Ctx): Result<EnumDesc>
  {
    EnumBody(EnumDesc(d.ref.name, cx.convert(d.options, EnumOwner), [], [], []), d.body, cx)
  }

  method CreateEnumDesc(d: TypeDef, cx: Ctx) returns (r: Result<EnumDesc>)
    ensures r == EnumOf(d, cx)
  {
    var opts := cx.convert(d.options, EnumOwner);
    var out := EnumDesc(d.ref.name, opts, [], [], []);
    var i := 0;
    while i < |d.body|
      invariant 0 <= i <= |d.body|
      invariant EnumBody(out, d.body[i..], cx) == EnumOf(d, cx)
    {
      assert d.body[i..][1..] == d.body[i + 1..];
      var s := d.body[i];
      if s.EnumValueStmt? {
        var vopts := cx.convert(s.options, EnumValueOwner);
        out := out.(values := out.values + [EnumValueDesc(s.name, s.number, vopts)]);
      } else if s.ReservedStmt? {
        var ranges, names := AddReserved(s.values);
        out := out.(reservedRanges := out.reservedRanges + ranges, reservedNames := out.reservedNames + names);
      } else {
        return Err("Invalid field type: " + ClassName(s));
      }
      i := i + 1;
    }
    return Ok(out);
  }

  predicate EnumMember(s: Stmt)
  {
    s.EnumValueStmt? || s.ReservedStmt?
  }

  /**
   * An enum body builds exactly when it holds only enum values and reserved
   * statements; then the values are its enum values, in order, and the
   * name and options are the definition's.
   */
  lemma {:induction false} EnumBodySpec(out: EnumDesc, body: seq<Stmt>, cx: Ctx)
    ensures EnumBody(out, body, cx).Ok? <==> forall i :: 0 <= i < |body| ==> EnumMember(body[i])
    ensures EnumBody(out, body, cx).Ok? ==>
      var e := EnumBody(out, body, cx).value;
      e.name == out.name && e.options == out.options
      && |e.values| == |out.values| + |EnumValues(body, cx)|
      && e.values == out.values + EnumValues(body, cx)
    decreases |body|
  {
    if |body| > 0 {
      var s := body[0];
      assert forall i :: 1 <= i < |body| ==> body[i] == body[1..][i - 1];
      if s.EnumValueStmt? {
        var v := EnumValueOf(s, cx);
        EnumBodySpec(out.(values := out.values + [v]), body[1..], cx);
        assert EnumValues(body, cx) == [v] + EnumValues(body[1..], cx);
        assert out.values + [v] + EnumValues(body[1..], cx) == out.values + ([v] + EnumValues(body[1..], cx));
      } else if s.ReservedStmt? {
        EnumBodySpec(out.(reservedRanges := out.reservedRanges + RangesOf(s.values),
                          reservedNames := out.reservedNames + NamesOf(s.values)), body[1..], cx);
        assert EnumValues(body, cx) == EnumValues(body[1..], cx);
      }
    }
  }

  /** The enum values of a body, in order. */
  function EnumValues(body: seq<Stmt>, cx: Ctx): seq<EnumValueDesc>
  {
    if |body| == 0 then []
    else (if body[0].EnumValueStmt? then [EnumValueOf(body[0], cx)] else []) + EnumValues(body[1..], cx)
  }

  /** One value per enum-value statement: its name, its number, its options. */
  lemma {:induction false} EnumValuesPointwise(body: seq<Stmt>, cx: Ctx)
    requires forall i :: 0 <= i < |body| ==> body[i].EnumValueStmt?
    ensures |EnumValues(body, cx)| == |body|
    ensures forall i :: 0 <= i < |body| ==>
      EnumValues(body, cx)[i].name == body[i].name && EnumValues(body, cx)[i].number == body[i].number
  {
    if |body| > 0 {
      assert forall i :: 1 <= i < |body| ==> body[i] == body[1..][i - 1];
      EnumValuesPointwise(body[1..], cx);
    }
  }

  // ---------------------------------------------------------------------
  // Services.

  /** One rpc as a method: a stream input or output is unwrapped once and sets the streaming flag. */
  function MethodOf(f: Field, cx: Ctx): (r: Result<MethodDesc>)
    requires f.ty.RpcType?
    ensures r.Ok? ==> r.value.name == f.name
  {
    var cs := f.ty.input.StreamType?;
    var ss := f.ty.output.StreamType?;
    var input := if cs then f.ty.input.elem else f.ty.input;
    var output := if ss then f.ty.output.elem else f.ty.output;
    match Print(input, FullyQualified, cx.env)
    case Err(m) => Err(m)
    case Ok(i) =>
      match Print(output, FullyQualified, cx.env)
      case Err(m) => Err(m)
      case Ok(o) => Ok(MethodDesc(f.name, "." + i, "." + o, cs, ss, cx.convert(f.options, MethodOwner)))
  }

  predicate IsRpc(s: Stmt)
  {
    s.FieldStmt? && s.field.ty.RpcType?
  }

  /** One statement of a service body: an rpc field is a method, anything else is refused. */
  function MethodStmt(s: Stmt, cx: Ctx): Result<MethodDesc>
  {
    if IsRpc(s) then MethodOf(s.field, cx) else Err("Invalid method type: " + ClassName(s))
  }

  function MethodMaker(cx: Ctx): Stmt -> Result<MethodDesc>
  {
    s => MethodStmt(s, cx)
  }

  /** `createServiceDesc(svc)`: named after the definition, its options converted, a method per statement of its body. */
  function ServiceOf(d: TypeDef, cx: Ctx): Result<ServiceDesc>
  {
    match EachOk(d.body, MethodMaker(cx))
    case Err(m) => Err(m)
    case Ok(ms) => Ok(ServiceDesc(d.ref.name, cx.convert(d.options, ServiceOwner), ms))
  }

  method CreateServiceDesc(d: TypeDef, cx: Ctx) returns (r: Result<ServiceDesc>)
    ensures r == ServiceOf(d, cx)
  {
    var opts := cx.convert(d.options, ServiceOwner);
    var methods := [];
    var i := 0;
    while i < |d.body|
      invariant 0 <= i <= |d.body|
      invariant EachOk(d.body[..i], MethodMaker(cx)) == Ok(methods)
    {
      var s := d.body[i];
      var next: Result<MethodDesc>;
      if !IsRpc(s) {
        next := Err("Invalid method type: " + ClassName(s));
      } else {
        var f := s.field;
        var input, output := f.ty.input, f.ty.output;
        var cs, ss := false, false;
        if input.StreamType? {
          input := input.elem;
          cs := true;
        }
        if output.StreamType? {
          output := output.elem;
          ss := true;
        }
        var inName := Print(input, FullyQualified, cx.env);
        var outName := Print(output, FullyQualified, cx.env);
        if inName.Err? {
          next := Err(inName.msg);
        } else if outName.Err? {
          next := Err(outName.msg);
        } else {
          var mopts := cx.convert(f.options, MethodOwner);
          next := Ok(MethodDesc(f.name, "." + inName.value, "." + outName.value, cs, ss, mopts));
        }
      }
      assert next == MethodStmt(s, cx);
      EachOkStep(d.body, MethodMaker(cx), i, methods, next);
      if next.Err? {
        return Err(next.msg);
      }
      methods := methods + [next.value];
      i := i + 1;
    }
    assert d.body[..i] == d.body;
    return Ok(ServiceDesc(d.ref.name, opts, methods));
  }

  /**
   * A method is streaming on a side exactly when that side is a stream, and
   * its type name is the fully qualified name of what the stream carries.
   */
  lemma MethodStreaming(f: Field, cx: Ctx)
    requires f.ty.RpcType?
    ensures MethodOf(f, cx).Ok? <==>
      Prints(if f.ty.input.StreamType? then f.ty.input.elem else f.ty.input)
      && Prints(if f.ty.output.StreamType? then f.ty.output.elem else f.ty.output)
    ensures MethodOf(f, cx).Ok? ==>
      var md := MethodOf(f, cx).value;
      md.name == f.name
      && (md.clientStreaming <==> f.ty.input.StreamType?)
      && (md.serverStreaming <==> f.ty.output.StreamType?)
      && (f.ty.input.StreamType? ==> md.inputType == "." + Print(f.ty.input.elem, FullyQualified, cx.env).value)
      && (!f.ty.input.StreamType? ==> md.inputType == "." + Print(f.ty.input, FullyQualified, cx.env).value)
      && (f.ty.output.StreamType? ==> md.outputType == "." + Print(f.ty.output.elem, FullyQualified, cx.env).value)
      && (!f.ty.output.StreamType? ==> md.outputType == "." + Print(f.ty.output, FullyQualified, cx.env).value)
      && md.options == cx.convert(f.options, MethodOwner)
  {
    PrintOk(if f.ty.input.StreamType? then f.ty.input.elem else f.ty.input, FullyQualified, cx.env);
    PrintOk(if f.ty.output.StreamType? then f.ty.output.elem else f.ty.output, FullyQualified, cx.env);
  }

  /**
   * A service builds exactly when every statement of its body is an rpc
   * whose two types print; it then keeps the definition's name and
   * options, and has one method per rpc, in order.
   */
  lemma ServiceSpec(d: TypeDef, cx: Ctx)
    ensures ServiceOf(d, cx).Ok? <==>
      forall i :: 0 <= i < |d.body| ==> IsRpc(d.body[i]) && MethodOf(d.body[i].field, cx).Ok?
    ensures ServiceOf(d, cx).Ok? ==>
      var sd := ServiceOf(d, cx).value;
      sd.name == d.ref.name && sd.options == cx.convert(d.options, ServiceOwner)
      && |sd.methods| == |d.body|
      && forall i :: 0 <= i < |d.body| ==> IsRpc(d.body[i]) && sd.methods[i] == MethodOf(d.body[i].field, cx).value
  {
    EachOkOrder(d.body, MethodMaker(cx));
  }

  /** The first statement that is not an rpc is the service's refusal, when every rpc before it builds. */
  lemma ServiceRefused(d: TypeDef, cx: Ctx, n: nat)
    requires n < |d.body| && !IsRpc(d.body[n])
    requires forall i :: 0 <= i < n ==> IsRpc(d.body[i]) && MethodOf(d.body[i].field, cx).Ok?
    ensures ServiceOf(d, cx) == Err("Invalid method type: " + ClassName(d.body[n]))
  {
    EachOkOrder(d.body[..n], MethodMaker(cx));
    assert forall i :: 0 <= i < n ==> d.body[..n][i] == d.body[i];
    EachOkStep(d.body, MethodMaker(cx), n, EachOk(d.body[..n], MethodMaker(cx)).value, MethodStmt(d.body[n], cx));
  }


  // ---------------------------------------------------------------------
  // Fields.

  /** The entry message of a map field: `map_entry` set, `key = 1` and `value = 2`, both `TYPE_INT32`. */
  function MapEntry(name: string): MessageDesc
  {
    MessageDesc(name, [Known(7, BoolValue(true))],
      [FieldDesc("key", 1, Some(LABEL_OPTIONAL), TYPE_INT32, None, false, None, None, None),
       FieldDesc("value", 2, Some(LABEL_OPTIONAL), TYPE_INT32, None, false, None, None, None)],
      [], [], [], [], [])
  }

  /** The `default_value` option of a field, encoded as a literal. */
  function DefaultOf(opts: OptionMap): Option<string>
  {
    if "default_value" in opts.values then Some(EncodeLiteral(opts.values["default_value"])) else None
  }

  /** The type a field is declared with, one repeated or optional layer taken off. */
  function Unwrapped(t: TypeExpr): TypeExpr
  {
    if t.RepeatedType? || t.OptionalType? then t.elem else t
  }

  /** The label the wrapper layer sets: repeated, none for optional, optional otherwise. */
  function LabelOf(t: TypeExpr): Option<Label>
  {
    if t.RepeatedType? then Some(LABEL_REPEATED) else if t.OptionalType? then None else Some(LABEL_OPTIONAL)
  }

  /** The type name of a message or enum field: a dot and its fully qualified name. */
  function TypeNameOf(t: TypeExpr, k: TypeKind, cx: Ctx): Option<string>
    requires Normal(t)
  {
    if k == TYPE_MESSAGE || k == TYPE_ENUM then Some("." + Print(t, FullyQualified, cx.env).value) else None
  }

  /**
   * `addFieldDesc(qual, outer, f)`, with `oneof` the index a containing
   * oneof sets on the field added: `Err` for an rpc or a type without a
   * kind; a map adds its entry message and a repeated message field; a oneof
   * adds its declaration and then each of its members.
   */
  function AddField(qual: string, outer: MessageDesc, f: Field, oneof: Option<nat>, cx: Ctx): Result<MessageDesc>
    decreases f, 1
  {
    if f.ty.RpcType? then Err("RpcTypeExpr is not supported in FieldDescriptorProto")
    else
      var ty := if f.ty.RepeatedType? || f.ty.OptionalType? then f.ty.elem else f.ty;
      var opt := f.ty.OptionalType?;
      if ty.MapType? then
        var entry := cx.pascal(f.name) + "Entry";
        Ok(outer.(nested := outer.nested + [MapEntry(entry)],
                  fields := outer.fields + [FieldDesc(f.name, f.number, Some(LABEL_REPEATED), TYPE_MESSAGE,
                    Some("." + qual + "." + entry), opt, oneof, None, Some(cx.convert(f.options, FieldOwner)))]))
      else if ty.OneofType? then
        AddMembers(qual, outer.(oneofs := outer.oneofs + [OneofDesc(f.name, cx.convert(f.options, OneofOwner))]),
          ty.fields, |outer.oneofs|, cx)
      else
        match Kind(ty)
        case Err(m) => Err(m)
        case Ok(k) =>
          Ok(outer.(fields := outer.fields + [FieldDesc(f.name, f.number, LabelOf(f.ty), k, TypeNameOf(ty, k, cx),
            opt, oneof, DefaultOf(f.options), Some(cx.convert(f.options, FieldOwner)))]))
  }

  /** The members of a oneof added in order, each with the oneof's index. */
  function AddMembers(qual: string, outer: MessageDesc, members: seq<Field>, idx: nat, cx: Ctx): Result<MessageDesc>
    decreases members, 0
  {
    if |members| == 0 then Ok(outer)
    else
      match AddField(qual, outer, members[0], Some(idx), cx)
      case Err(m) => Err(m)
      case Ok(o) => AddMembers(qual, o, members[1..], idx, cx)
  }

  method AddFieldDesc(qual: string, outer: MessageDesc, f: Field, oneof: Option<nat>, cx: Ctx)
    returns (r: Result<MessageDesc>)
    ensures r == AddField(qual, outer, f, oneof, cx)
    decreases f, 1
  {
    if f.ty.RpcType? {
      return Err("RpcTypeExpr is not supported in FieldDescriptorProto");
    }
    var ty := f.ty;
    var fieldLabel := Some(LABEL_OPTIONAL);
    var opt := false;
    if ty.RepeatedType? {
      ty := ty.elem;
      fieldLabel := Some(LABEL_REPEATED);
    } else if ty.OptionalType? {
      ty := ty.elem;
      fieldLabel := None;
      opt := true;
    }
    var fopts := cx.convert(f.options, FieldOwner);
    if ty.MapType? {
      var entry := cx.pascal(f.name) + "Entry";
      var field := FieldDesc(f.name, f.number, Some(LABEL_REPEATED), TYPE_MESSAGE, Some("." + qual + "." + entry), opt, oneof, None, Some(fopts));
      return Ok(outer.(nested := outer.nested + [MapEntry(entry)], fields := outer.fields + [field]));
    } else if ty.OneofType? {
      var idx := |outer.oneofs|;
      var oopts := cx.convert(f.options, OneofOwner);
      var cur := outer.(oneofs := outer.oneofs + [OneofDesc(f.name, oopts)]);
      r := AddMembersDesc(qual, cur, ty.fields, idx, cx);
    } else {
      var k := Kind(ty);
      if k.Err? {
        return Err(k.msg);
      }
      var name := None;
      if k.value == TYPE_MESSAGE || k.value == TYPE_ENUM {
        name := Some("." + Print(ty, FullyQualified, cx.env).value);
      }
      var dflt := None;
      if "default_value" in f.options.values {
        dflt := Some(EncodeLiteral(f.options.values["default_value"]));
      }
      return Ok(outer.(fields := outer.fields + [FieldDesc(f.name, f.number, fieldLabel, k.value, name, opt, oneof, dflt, Some(fopts))]));
    }
  }

  /** The members of a oneof added one by one. */
  method AddMembersDesc(qual: string, outer: MessageDesc, members: seq<Field>, idx: nat, cx: Ctx) returns (r: Result<MessageDesc>)
    ensures r == AddMembers(qual, outer, members, idx, cx)
    decreases members, 0
  {
    var cur := outer;
    var j := 0;
    while j < |members|
      invariant 0 <= j <= |members|
      invariant AddMembers(qual, cur, members[j..], idx, cx) == AddMembers(qual, outer, members, idx, cx)
    {
      AddMembersStep(qual, cur, members, j, idx, cx);
      var next := AddFieldDesc(qual, cur, members[j], Some(idx), cx);
      if next.Err? {
        return Err(next.msg);
      }
      cur := next.value;
      j := j + 1;
    }
    return Ok(cur);
  }

  /** One member of a oneof: its refusal is the oneof's, otherwise the rest goes on from its result. */
  lemma AddMembersStep(qual: string, outer: MessageDesc, members: seq<Field>, j: nat, idx: nat, cx: Ctx)
    requires j < |members|
    ensures AddMembers(qual, outer, members[j..], idx, cx) ==
      match AddField(qual, outer, members[j], Some(idx), cx)
      case Err(m) => Err(m)
      case Ok(o) => AddMembers(qual, o, members[j + 1..], idx, cx)
  {
    assert members[j..][1..] == members[j + 1..];
  }

  /** Nothing but the fields of a message changes when a plain field is added. */
  predicate OnlyFields(outer: MessageDesc, o: MessageDesc)
  {
    o.name == outer.name && o.options == outer.options && o.nested == outer.nested && o.enums == outer.enums
    && o.oneofs == outer.oneofs && o.reservedRanges == outer.reservedRanges && o.reservedNames == outer.reservedNames
  }

  /**
   * A plain field: it is added exactly when its unwrapped type has a kind,
   * as one field carrying its name, number, kind, label, optional flag,
   * oneof index, options and default value; message and enum fields, and
   * only they, name their type fully qualified behind a dot.
   */
  lemma PlainField(qual: string, outer: MessageDesc, f: Field, oneof: Option<nat>, cx: Ctx)
    requires !f.ty.RpcType? && !Unwrapped(f.ty).MapType? && !Unwrapped(f.ty).OneofType?
    ensures var r := AddField(qual, outer, f, oneof, cx);
      (r.Ok? <==> Normal(Unwrapped(f.ty)))
      && (r.Ok? ==>
        OnlyFields(outer, r.value) && |r.value.fields| == |outer.fields| + 1
        && r.value.fields[..|outer.fields|] == outer.fields
        && var fd := r.value.fields[|outer.fields|];
        fd.name == f.name && fd.number == f.number && fd.kind == Kind(Unwrapped(f.ty)).value
        && (fd.fieldLabel == Some(LABEL_REPEATED) <==> f.ty.RepeatedType?)
        && (fd.fieldLabel.None? <==> f.ty.OptionalType?)
        && (fd.proto3Optional <==> f.ty.OptionalType?)
        && fd.oneofIndex == oneof
        && (fd.typeName.Some? <==> fd.kind in {TYPE_MESSAGE, TYPE_ENUM})
        && (fd.typeName.Some? ==> fd.typeName.value == "." + Print(Unwrapped(f.ty), FullyQualified, cx.env).value)
        && (fd.defaultValue.Some? <==> "default_value" in f.options.values)
        && (fd.defaultValue.Some? ==> fd.defaultValue.value == EncodeLiteral(f.options.values["default_value"]))
        && fd.options == Some(cx.convert(f.options, FieldOwner)))
  {
    KindIffNormal(Unwrapped(f.ty));
  }

  /** An rpc is never a field. */
  lemma RpcNotAField(qual: string, outer: MessageDesc, f: Field, oneof: Option<nat>, cx: Ctx)
    requires f.ty.RpcType?
    ensures AddField(qual, outer, f, oneof, cx).Err?
  {
  }

  /**
   * A map field: the entry message `pascal(name) + "Entry"` is appended to
   * the nested types, and the field is a repeated message field naming it
   * under the message's qualified name; the entry's key and value are both
   * `TYPE_INT32`, whatever the map's key and value types.
   */
  lemma MapField(qual: string, outer: MessageDesc, f: Field, oneof: Option<nat>, cx: Ctx)
    requires Unwrapped(f.ty).MapType?
    ensures var r := AddField(qual, outer, f, oneof, cx);
      var entry := cx.pascal(f.name) + "Entry";
      r.Ok?
      && r.value.nested == outer.nested + [MapEntry(entry)]
      && |r.value.fields| == |outer.fields| + 1 && r.value.fields[..|outer.fields|] == outer.fields
      && r.value.oneofs == outer.oneofs
      && var fd := r.value.fields[|outer.fields|];
      fd.name == f.name && fd.number == f.number
      && fd.fieldLabel == Some(LABEL_REPEATED) && fd.kind == TYPE_MESSAGE
      && fd.typeName == Some("." + qual + "." + entry)
      && fd.oneofIndex == oneof
      && MapEntry(entry).options == [Known(7, BoolValue(true))]
      && |MapEntry(entry).fields| == 2
      && MapEntry(entry).fields[0].name == "key" && MapEntry(entry).fields[0].number == 1
      && MapEntry(entry).fields[1].name == "value" && MapEntry(entry).fields[1].number == 2
      && MapEntry(entry).fields[0].kind == TYPE_INT32 && MapEntry(entry).fields[1].kind == TYPE_INT32
  {
  }

  /** A oneof member that is added as exactly one field: neither an rpc, a nested oneof, nor a type without a kind. */
  predicate SingleField(f: Field)
  {
    !f.ty.RpcType? && !Unwrapped(f.ty).OneofType? && (Unwrapped(f.ty).MapType? || Normal(Unwrapped(f.ty)))
  }

  /** A single-field member adds one field, named, numbered and tagged, and no oneof declaration. */
  lemma MemberStep(qual: string, outer: MessageDesc, m: Field, idx: nat, cx: Ctx)
    requires SingleField(m)
    ensures var step := AddField(qual, outer, m, Some(idx), cx);
      step.Ok? && step.value.oneofs == outer.oneofs
      && |step.value.fields| == |outer.fields| + 1
      && step.value.fields[..|outer.fields|] == outer.fields
      && step.value.fields[|outer.fields|].name == m.name
      && step.value.fields[|outer.fields|].number == m.number
      && step.value.fields[|outer.fields|].oneofIndex == Some(idx)
  {
    if Unwrapped(m.ty).MapType? {
      MapField(qual, outer, m, Some(idx), cx);
    } else {
      PlainField(qual, outer, m, Some(idx), cx);
    }
  }

  /** The fields after some members: the earlier ones kept, then one per member, named and numbered after it and tagged with `idx`. */
  predicate MembersAdded(before: seq<FieldDesc>, after: seq<FieldDesc>, members: seq<Field>, idx: nat)
  {
    |after| == |before| + |members|
    && after[..|before|] == before
    && forall i :: 0 <= i < |members| ==>
      after[|before| + i].name == members[i].name
      && after[|before| + i].number == members[i].number
      && after[|before| + i].oneofIndex == Some(idx)
  }

  /** Members added one field each: in order, each named and numbered after its member and tagged with `idx`. */
  lemma {:induction false} AddMembersSpec(qual: string, outer: MessageDesc, members: seq<Field>, idx: nat, cx: Ctx)
    requires forall i :: 0 <= i < |members| ==> SingleField(members[i])
    ensures var r := AddMembers(qual, outer, members, idx, cx);
      r.Ok? && r.value.oneofs == outer.oneofs && MembersAdded(outer.fields, r.value.fields, members, idx)
    decreases |members|
  {
    if |members| > 0 {
      var m := members[0];
      MemberStep(qual, outer, m, idx, cx);
      var o := AddField(qual, outer, m, Some(idx), cx).value;
      assert forall i :: 1 <= i < |members| ==> members[i] == members[1..][i - 1];
      AddMembersSpec(qual, o, members[1..], idx, cx);
      var r := AddMembers(qual, o, members[1..], idx, cx).value;
      MembersAddedCons(outer.fields, o.fields, r.fields, members, idx);
    }
  }

  /** One member's field, then the rest's: the fields of all the members. */
  lemma MembersAddedCons(before: seq<FieldDesc>, mid: seq<FieldDesc>, after: seq<FieldDesc>, members: seq<Field>, idx: nat)
    requires |members| > 0 && |mid| == |before| + 1 && mid[..|before|] == before
    requires mid[|before|].name == members[0].name && mid[|before|].number == members[0].number
    requires mid[|before|].oneofIndex == Some(idx)
    requires MembersAdded(mid, after, members[1..], idx)
    ensures MembersAdded(before, after, members, idx)
  {
    assert after[..|before|] == mid[..|before|];
    forall i | 0 <= i < |members|
      ensures after[|before| + i].name == members[i].name
      ensures after[|before| + i].number == members[i].number
      ensures after[|before| + i].oneofIndex == Some(idx)
    {
      if i == 0 {
        assert after[|before|] == mid[|before|];
      } else {
        assert after[|before| + i] == after[|mid| + (i - 1)];
        assert members[i] == members[1..][i - 1];
      }
    }
  }

  /**
   * A oneof field: one declaration is appended, named after the field, at
   * the index equal to the number of declarations before it; each member
   * becomes one field carrying that index, in order, and no field carries
   * the oneof's own name unless a member does.
   */
  lemma OneofField(qual: string, outer: MessageDesc, f: Field, oneof: Option<nat>, cx: Ctx)
    requires !f.ty.RpcType? && Unwrapped(f.ty).OneofType?
    requires forall i :: 0 <= i < |Unwrapped(f.ty).fields| ==> SingleField(Unwrapped(f.ty).fields[i])
    ensures AddField(qual, outer, f, oneof, cx).Ok?
    ensures OneofAdded(outer, AddField(qual, outer, f, oneof, cx).value,
      OneofDesc(f.name, cx.convert(f.options, OneofOwner)), Unwrapped(f.ty).fields)
  {
    var members := Unwrapped(f.ty).fields;
    var decl := OneofDesc(f.name, cx.convert(f.options, OneofOwner));
    var outer' := outer.(oneofs := outer.oneofs + [decl]);
    AddMembersSpec(qual, outer', members, |outer.oneofs|, cx);
    OneofUnfolds(qual, outer, f, oneof, cx);
  }

  lemma OneofUnfolds(qual: string, outer: MessageDesc, f: Field, oneof: Option<nat>, cx: Ctx)
    requires !f.ty.RpcType? && Unwrapped(f.ty).OneofType?
    ensures AddField(qual, outer, f, oneof, cx) ==
      AddMembers(qual, outer.(oneofs := outer.oneofs + [OneofDesc(f.name, cx.convert(f.options, OneofOwner))]),
        Unwrapped(f.ty).fields, |outer.oneofs|, cx)
  {
  }

  /**
   * The message after a oneof: the declaration appended, and one field per
   * member, in order, named after it and carrying the declaration's index.
   */
  predicate OneofAdded(outer: MessageDesc, r: MessageDesc, decl: OneofDesc, members: seq<Field>)
  {
    r.oneofs == outer.oneofs + [decl] && MembersAdded(outer.fields, r.fields, members, |outer.oneofs|)
  }



  // ---------------------------------------------------------------------
  // Messages.

  function EmptyMessage(name: string, options: seq<Written>): MessageDesc
  {
    MessageDesc(name, options, [], [], [], [], [], [])
  }

  /** `createDescProto(msg)`: the body added statement by statement to a message named after the definition. */
  function MessageOf(d: TypeDef, cx: Ctx): Result<MessageDesc>
    decreases d, 2
  {
    BodyInto(QualifiedScopeName(Chain(d.ref, cx.env)), EmptyMessage(d.ref.name, cx.convert(d.options, MessageOwner)), d.body, cx)
  }

  function BodyInto(qual: string, out: MessageDesc, body: seq<Stmt>, cx: Ctx): Result<MessageDesc>
    decreases body, 1
  {
    if |body| == 0 then Ok(out)
    else
      match StmtInto(qual, out, body[0], cx)
      case Err(m) => Err(m)
      case Ok(o) => BodyInto(qual, o, body[1..], cx)
  }

  /** One statement of a message body: reserved, nested enum, nested message or field; anything else is refused. */
  function StmtInto(qual: string, out: MessageDesc, s: Stmt, cx: Ctx): Result<MessageDesc>
    decreases s, 0
  {
    match s
    case ReservedStmt(values) =>
      Ok(out.(reservedRanges := out.reservedRanges + RangesOf(values), reservedNames := out.reservedNames + NamesOf(values)))
    case DefStmt(d) =>
      if d.ref.kind == EnumDef then
        match EnumOf(d, cx)
        case Err(m) => Err(m)
        case Ok(e) => Ok(out.(enums := out.enums + [e]))
      else if d.ref.kind == MessageDef then
        match MessageOf(d, cx)
        case Err(m) => Err(m)
        case Ok(m) => Ok(out.(nested := out.nested + [m]))
      else Err("Invalid field type: " + ClassName(s))
    case FieldStmt(f) => AddField(qual, out, f, None, cx)
    case EnumValueStmt(_, _, _) => Err("Invalid field type: " + ClassName(s))
  }

  method CreateDescProto(d: TypeDef, cx: Ctx) returns (r: Result<MessageDesc>)
    ensures r == MessageOf(d, cx)
    decreases d
  {
    var qual := QualifiedScopeName(Chain(d.ref, cx.env));
    var opts := cx.convert(d.options, MessageOwner);
    var out := EmptyMessage(d.ref.name, opts);
    var i := 0;
    while i < |d.body|
      invariant 0 <= i <= |d.body|
      invariant BodyInto(qual, out, d.body[i..], cx) == MessageOf(d, cx)
    {
      var s := d.body[i];
      BodyIntoStep(qual, out, d.body, i, cx);
      var next := AddStmt(qual, out, s, cx);
      if next.Err? {
        r := Err(next.msg);
        assert r == MessageOf(d, cx);
        return;
      }
      out := next.value;
      i := i + 1;
    }
    return Ok(out);
  }

  /** One statement of a message body added: reserved ranges and names, a nested enum or message, or a field. */
  method AddStmt(qual: string, out: MessageDesc, s: Stmt, cx: Ctx) returns (next: Result<MessageDesc>)
    ensures next == StmtInto(qual, out, s, cx)
    decreases s
  {
    if s.ReservedStmt? {
      var ranges, names := AddReserved(s.values);
      next := Ok(out.(reservedRanges := out.reservedRanges + ranges, reservedNames := out.reservedNames + names));
    } else if s.DefStmt? && s.def.ref.kind == EnumDef {
      var e := CreateEnumDesc(s.def, cx);
      next := if e.Err? then Err(e.msg) else Ok(out.(enums := out.enums + [e.value]));
    } else if s.DefStmt? && s.def.ref.kind == MessageDef {
      assert s.def < s;
      var m := CreateDescProto(s.def, cx);
      next := if m.Err? then Err(m.msg) else Ok(out.(nested := out.nested + [m.value]));
    } else if s.FieldStmt? {
      next := AddFieldDesc(qual, out, s.field, None, cx);
    } else {
      next := Err("Invalid field type: " + ClassName(s));
    }
  }

  /** One statement of a body: its refusal is the body's, otherwise the rest goes on from its result. */
  lemma BodyIntoStep(qual: string, out: MessageDesc, body: seq<Stmt>, i: nat, cx: Ctx)
    requires i < |body|
    ensures BodyInto(qual, out, body[i..], cx) ==
      match StmtInto(qual, out, body[i], cx)
      case Err(m) => Err(m)
      case Ok(o) => BodyInto(qual, o, body[i + 1..], cx)
  {
    assert body[i..][1..] == body[i + 1..];
  }


  /** A message keeps the definition's name; its body is refused exactly when a service or enum value appears at its top level, or an inner part is refused. */
  lemma {:induction false} BodyIntoName(qual: string, out: MessageDesc, body: seq<Stmt>, cx: Ctx)
    ensures BodyInto(qual, out, body, cx).Ok? ==>
      BodyInto(qual, out, body, cx).value.name == out.name
      && BodyInto(qual, out, body, cx).value.options == out.options
      && forall i :: 0 <= i < |body| ==> !body[i].EnumValueStmt? && !(body[i].DefStmt? && body[i].def.ref.kind == ServiceDef)
    decreases |body|
  {
    if |body| > 0 {
      var s := StmtInto(qual, out, body[0], cx);
      if s.Ok? {
        StmtIntoName(qual, out, body[0], cx);
        BodyIntoName(qual, s.value, body[1..], cx);
        assert forall i :: 1 <= i < |body| ==> body[i] == body[1..][i - 1];
      }
    }
  }

  lemma StmtIntoName(qual: string, out: MessageDesc, s: Stmt, cx: Ctx)
    ensures StmtInto(qual, out, s, cx).Ok? ==>
      StmtInto(qual, out, s, cx).value.name == out.name
      && StmtInto(qual, out, s, cx).value.options == out.options
      && !s.EnumValueStmt? && !(s.DefStmt? && s.def.ref.kind == ServiceDef)
  {
    if s.FieldStmt? {
      AddFieldName(qual, out, s.field, None, cx);
    }
  }

  /** Adding a field never renames the message nor changes its options. */
  lemma {:induction false} AddFieldName(qual: string, outer: MessageDesc, f: Field, oneof: Option<nat>, cx: Ctx)
    ensures AddField(qual, outer, f, oneof, cx).Ok? ==>
      AddField(qual, outer, f, oneof, cx).value.name == outer.name
      && AddField(qual, outer, f, oneof, cx).value.options == outer.options
    decreases f, 1
  {
    var ty := if f.ty.RepeatedType? || f.ty.OptionalType? then f.ty.elem else f.ty;
    if !f.ty.RpcType? && ty.OneofType? {
      AddMembersName(qual, outer.(oneofs := outer.oneofs + [OneofDesc(f.name, cx.convert(f.options, OneofOwner))]),
        ty.fields, |outer.oneofs|, cx);
    }
  }

  lemma {:induction false} AddMembersName(qual: string, outer: MessageDesc, members: seq<Field>, idx: nat, cx: Ctx)
    ensures AddMembers(qual, outer, members, idx, cx).Ok? ==>
      AddMembers(qual, outer, members, idx, cx).value.name == outer.name
      && AddMembers(qual, outer, members, idx, cx).value.options == outer.options
    decreases members, 0
  {
    if |members| > 0 {
      AddFieldName(qual, outer, members[0], Some(idx), cx);
      var step := AddField(qual, outer, members[0], Some(idx), cx);
      if step.Ok? {
        AddMembersName(qual, step.value, members[1..], idx, cx);
      }
    }
  }

  /** A reserved statement in a message adds its ranges and names and changes nothing else. */
  lemma MessageReserved(qual: string, out: MessageDesc, values: seq<ReservedValue>, cx: Ctx)
    ensures var r := StmtInto(qual, out, ReservedStmt(values), cx);
      r.Ok? && r.value.reservedRanges == out.reservedRanges + RangesOf(values)
      && r.value.reservedNames == out.reservedNames + NamesOf(values)
      && r.value.fields == out.fields && r.value.nested == out.nested && r.value.oneofs == out.oneofs
  {
  }

  // ---------------------------------------------------------------------
  // Files.

  /** `name.replace(/\.ts$/, '.proto')`. */
  function ProtoName(name: string): (r: string)
    ensures EndsWith(name, ".ts") ==> r == name[..|name| - 3] + ".proto" && EndsWith(r, ".proto")
    ensures !EndsWith(name, ".ts") ==> r == name
  {
    if EndsWith(name, ".ts") then name[..|name| - 3] + ".proto" else name
  }

  /** The positions of the imports carrying a flag. */
  function DepIndices(imports: seq<Import>, flag: string): seq<nat>
  {
    if |imports| == 0 then []
    else DepIndices(imports[..|imports| - 1], flag) + (if imports[|imports| - 1].flag == Some(flag) then [|imports| - 1] else [])
  }

  /** A position is listed exactly when the import there carries the flag, and the list ascends. */
  lemma {:induction false} DepIndicesSpec(imports: seq<Import>, flag: string)
    ensures forall j :: j in DepIndices(imports, flag) <==> 0 <= j < |imports| && imports[j].flag == Some(flag)
    ensures forall a, b :: 0 <= a < b < |DepIndices(imports, flag)| ==> DepIndices(imports, flag)[a] < DepIndices(imports, flag)[b]
  {
    if |imports| > 0 {
      var init := imports[..|imports| - 1];
      DepIndicesSpec(init, flag);
      assert forall j :: 0 <= j < |init| ==> imports[j] == init[j];
      var d := DepIndices(init, flag);
      assert forall a :: 0 <= a < |d| ==> d[a] in d;
    }
  }

  function Paths(imports: seq<Import>): (r: seq<string>)
    ensures |r| == |imports| && forall i :: 0 <= i < |imports| ==> r[i] == imports[i].path
  {
    seq(|imports|, i requires 0 <= i < |imports| => imports[i].path)
  }

  lemma ImportStep(imports: seq<Import>, n: nat)
    requires n < |imports|
    ensures Paths(imports[..n + 1]) == Paths(imports[..n]) + [imports[n].path]
    ensures DepIndices(imports[..n + 1], "weak") ==
      DepIndices(imports[..n], "weak") + (if imports[n].flag == Some("weak") then [n] else [])
    ensures DepIndices(imports[..n + 1], "public") ==
      DepIndices(imports[..n], "public") + (if imports[n].flag == Some("public") then [n] else [])
  {
    assert imports[..n + 1][..n] == imports[..n];
  }

  /** The top-level definitions of a file: messages, enums and services, in order. */
  function FileBody(out: FileDesc, body: seq<Stmt>, cx: Ctx): Result<FileDesc>
    decreases |body|
  {
    if |body| == 0 then Ok(out)
    else
      match FileStmt(out, body[0], cx)
      case Err(m) => Err(m)
      case Ok(o) => FileBody(o, body[1..], cx)
  }

  /** One top-level statement: a definition is built and added to its list; any other statement is skipped. */
  function FileStmt(out: FileDesc, s: Stmt, cx: Ctx): Result<FileDesc>
  {
    if !s.DefStmt? then Ok(out)
    else
      match s.def.ref.kind
      case MessageDef =>
        (match MessageOf(s.def, cx)
         case Err(m) => Err(m)
         case Ok(md) => Ok(out.(messages := out.messages + [md])))
      case EnumDef =>
        (match EnumOf(s.def, cx)
         case Err(m) => Err(m)
         case Ok(ed) => Ok(out.(enums := out.enums + [ed])))
      case ServiceDef =>
        (match ServiceOf(s.def, cx)
         case Err(m) => Err(m)
         case Ok(sd) => Ok(out.(services := out.services + [sd])))
  }

  /** One statement of a file: its refusal is the file's, otherwise the rest goes on from its result. */
  lemma FileBodyStep(out: FileDesc, body: seq<Stmt>, i: nat, cx: Ctx)
    requires i < |body|
    ensures FileBody(out, body[i..], cx) ==
      match FileStmt(out, body[i], cx)
      case Err(m) => Err(m)
      case Ok(o) => FileBody(o, body[i + 1..], cx)
  {
    assert body[i..][1..] == body[i + 1..];
  }

  /** The descriptor of a file before its body. */
  function FileHead(root: Root, cx: Ctx): FileDesc
  {
    FileDesc(if root.name != "" then Some(ProtoName(root.name)) else None,
      if root.package.Some? then root.package.value else "",
      Paths(root.imports), DepIndices(root.imports, "public"), DepIndices(root.imports, "weak"),
      cx.convert(root.options, FileOwner), [], [], [], "proto3")
  }

  /** `createFd(root)`. */
  function FileOf(root: Root, cx: Ctx): Result<FileDesc>
  {
    FileBody(FileHead(root, cx), root.body, cx)
  }

  method CreateFd(root: Root, cx: Ctx) returns (r: Result<FileDesc>)
    ensures r == FileOf(root, cx)
  {
    var head := CreateHead(root, cx);
    r := AddDefinitions(head, root.body, cx);
  }

  /** The file's head: its name, package, dependencies with their weak and public positions, options and syntax. */
  method CreateHead(root: Root, cx: Ctx) returns (out: FileDesc)
    ensures out == FileHead(root, cx)
  {
    var name := None;
    if root.name != "" {
      name := Some(ProtoName(root.name));
    }
    var pkg := if root.package.Some? then root.package.value else "";
    var deps, weak, public := [], [], [];
    var depN := 0;
    while depN < |root.imports|
      invariant 0 <= depN <= |root.imports|
      invariant deps == Paths(root.imports[..depN])
      invariant weak == DepIndices(root.imports[..depN], "weak")
      invariant public == DepIndices(root.imports[..depN], "public")
    {
      ImportStep(root.imports, depN);
      var imp := root.imports[depN];
      deps := deps + [imp.path];
      if imp.flag == Some("weak") {
        weak := weak + [depN];
      } else if imp.flag == Some("public") {
        public := public + [depN];
      }
      depN := depN + 1;
    }
    assert root.imports[..depN] == root.imports;
    var opts := cx.convert(root.options, FileOwner);
    out := FileDesc(name, pkg, deps, public, weak, opts, [], [], [], "proto3");
  }

  /** The file's definitions added to `head`, statement by statement. */
  method AddDefinitions(head: FileDesc, body: seq<Stmt>, cx: Ctx) returns (r: Result<FileDesc>)
    ensures r == FileBody(head, body, cx)
  {
    var out := head;
    var i := 0;
    while i < |body|
      invariant 0 <= i <= |body|
      invariant FileBody(out, body[i..], cx) == FileBody(head, body, cx)
    {
      var s := body[i];
      FileBodyStep(out, body, i, cx);
      var next: Result<FileDesc> := Ok(out);
      if s.DefStmt? && s.def.ref.kind == MessageDef {
        var m := CreateDescProto(s.def, cx);
        next := if m.Err? then Err(m.msg) else Ok(out.(messages := out.messages + [m.value]));
      } else if s.DefStmt? && s.def.ref.kind == EnumDef {
        var e := CreateEnumDesc(s.def, cx);
        next := if e.Err? then Err(e.msg) else Ok(out.(enums := out.enums + [e.value]));
      } else if s.DefStmt? {
        var v := CreateServiceDesc(s.def, cx);
        next := if v.Err? then Err(v.msg) else Ok(out.(services := out.services + [v.value]));
      }
      assert next == FileStmt(out, s, cx);
      if next.Err? {
        return Err(next.msg);
      }
      out := next.value;
      i := i + 1;
    }
    return Ok(out);
  }

  /**
   * The body never touches what the file's head holds: the name (with
   * `.ts` turned into `.proto`), the package (by default empty), the
   * dependencies in import order, the weak and public positions, and
   * syntax `proto3`.
   */
  lemma {:induction false} FileBodyKeepsHead(out: FileDesc, body: seq<Stmt>, cx: Ctx)
    ensures FileBody(out, body, cx).Ok? ==> SameHead(out, FileBody(out, body, cx).value)
    decreases |body|
  {
    if |body| > 0 {
      var step := FileStmt(out, body[0], cx);
      if step.Ok? {
        FileBodyKeepsHead(step.value, body[1..], cx);
      }
    }
  }

  /** Two file descriptors agreeing on everything but their definitions. */
  predicate SameHead(a: FileDesc, b: FileDesc)
  {
    b.name == a.name && b.package == a.package && b.dependencies == a.dependencies
    && b.publicDeps == a.publicDeps && b.weakDeps == a.weakDeps
    && b.options == a.options && b.syntax == a.syntax
  }

  lemma FileShape(root: Root, cx: Ctx)
    ensures FileOf(root, cx).Ok? ==>
      var fd := FileOf(root, cx).value;
      (fd.name.Some? <==> root.name != "")
      && (EndsWith(root.name, ".ts") ==> fd.name == Some(root.name[..|root.name| - 3] + ".proto"))
      && (root.package.None? ==> fd.package == "")
      && (root.package.Some? ==> fd.package == root.package.value)
      && fd.dependencies == Paths(root.imports)
      && (forall j :: j in fd.weakDeps <==> 0 <= j < |root.imports| && root.imports[j].flag == Some("weak"))
      && (forall j :: j in fd.publicDeps <==> 0 <= j < |root.imports| && root.imports[j].flag == Some("public"))
      && fd.syntax == "proto3"
  {
    FileBodyKeepsHead(FileHead(root, cx), root.body, cx);
    DepIndicesSpec(root.imports, "weak");
    DepIndicesSpec(root.imports, "public");
  }

  /** Each element through `f`, in order; the first refused stops the whole. */
  function EachOk<A, B>(xs: seq<A>, f: A -> Result<B>): Result<seq<B>>
  {
    if |xs| == 0 then Ok([])
    else
      match EachOk(xs[..|xs| - 1], f)
      case Err(m) => Err(m)
      case Ok(ys) =>
        match f(xs[|xs| - 1])
        case Err(m) => Err(m)
        case Ok(y) => Ok(ys + [y])
  }

  lemma EachOkSnoc<A, B>(xs: seq<A>, f: A -> Result<B>, n: nat)
    requires n < |xs|
    ensures EachOk(xs[..n], f).Ok? && f(xs[n]).Ok? ==> EachOk(xs[..n + 1], f) == Ok(EachOk(xs[..n], f).value + [f(xs[n]).value])
    ensures EachOk(xs[..n], f).Ok? && f(xs[n]).Err? ==> EachOk(xs[..n + 1], f) == Err(f(xs[n]).msg)
  {
    assert xs[..n + 1][..n] == xs[..n];
  }

  /** One more element: appended when `f` accepts it, otherwise its refusal is the whole's. */
  lemma EachOkStep<A, B>(xs: seq<A>, f: A -> Result<B>, i: nat, ys: seq<B>, y: Result<B>)
    requires i < |xs| && EachOk(xs[..i], f) == Ok(ys) && y == f(xs[i])
    ensures y.Ok? ==> EachOk(xs[..i + 1], f) == Ok(ys + [y.value])
    ensures y.Err? ==> EachOk(xs, f) == Err(y.msg)
  {
    EachOkSnoc(xs, f, i);
    if y.Err? {
      EachOkStops(xs, f, i + 1);
    }
  }

  /** A refused prefix refuses the whole. */
  lemma {:induction false} EachOkStops<A, B>(xs: seq<A>, f: A -> Result<B>, n: nat)
    requires n <= |xs|
    requires EachOk(xs[..n], f).Err?
    ensures EachOk(xs, f) == EachOk(xs[..n], f)
    decreases |xs| - n
  {
    if n < |xs| {
      assert xs[..n + 1][..n] == xs[..n];
      EachOkStops(xs, f, n + 1);
    } else {
      assert xs[..n] == xs;
    }
  }

  /** The result keeps the order: entry `i` is what `f` makes of element `i`, and it is refused exactly when some element is. */
  lemma {:induction false} EachOkOrder<A, B>(xs: seq<A>, f: A -> Result<B>)
    ensures EachOk(xs, f).Ok? <==> forall i :: 0 <= i < |xs| ==> f(xs[i]).Ok?
    ensures EachOk(xs, f).Ok? ==>
      |EachOk(xs, f).value| == |xs| && forall i :: 0 <= i < |xs| ==> EachOk(xs, f).value[i] == f(xs[i]).value
  {
    if |xs| > 0 {
      var init := xs[..|xs| - 1];
      EachOkOrder(init, f);
      assert forall i :: 0 <= i < |init| ==> xs[i] == init[i];
    }
  }

  /** `createFdSet(roots)`: one descriptor per file, in order; the first file refused stops it. */
  function FdSet(roots: seq<Root>, cx: Ctx): Result<seq<FileDesc>>
  {
    EachOk(roots, FileMaker(cx))
  }

  function FileMaker(cx: Ctx): Root -> Result<FileDesc>
  {
    r => FileOf(r, cx)
  }

  method CreateFdSet(roots: seq<Root>, cx: Ctx) returns (r: Result<seq<FileDesc>>)
    ensures r == FdSet(roots, cx)
  {
    var out := [];
    var i := 0;
    while i < |roots|
      invariant 0 <= i <= |roots|
      invariant FdSet(roots[..i], cx) == Ok(out)
    {
      var fd := CreateFd(roots[i], cx);
      EachOkStep(roots, FileMaker(cx), i, out, fd);
      if fd.Err? {
        return Err(fd.msg);
      }
      out := out + [fd.value];
      i := i + 1;
    }
    assert roots[..i] == roots;
    return Ok(out);
  }

  /** The set keeps the files' order, and it is refused exactly when some file is. */
  lemma FdSetOrder(roots: seq<Root>, cx: Ctx)
    ensures FdSet(roots, cx).Ok? <==> forall i :: 0 <= i < |roots| ==> FileOf(roots[i], cx).Ok?
    ensures FdSet(roots, cx).Ok? ==>
      |FdSet(roots, cx).value| == |roots|
      && forall i :: 0 <= i < |roots| ==> FdSet(roots, cx).value[i] == FileOf(roots[i], cx).value
  {
    EachOkOrder(roots, FileMaker(cx));
  }
}
