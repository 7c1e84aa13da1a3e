/**
 * The passes of lib/compiler/compiler.ts that run after every declaration
 * has been lowered: the relocation of synthesised messages, the numbering
 * and ordering of every scope, and the linker that turns placeholders into
 * definitions. The plugin half of the driver is in the module Plugins.
 *
 * A file is taken as the part of an `OutputFile` these passes read and
 * write: its root (name, package, imports, options, body), its source file,
 * the root's name table and its two definition tables.
 */
module Compiler {
  import opened Wrappers
  import opened Strings
  import opened Base
  import opened Types
  import opened Udts
  import opened Ts
  import opened Sorting
  import opened Output
  import opened Descriptors

  /** One output file, as the compiler's later passes see it. */
  datatype Unit = Unit(root: Root, source: FileId, names: set<string>, defined: map<string, DefRef>, symbols: map<Symbol, DefRef>)

  /** The state of an `OutputFile` as a `Unit`. */
  function UnitOf(f: OutputFile): Unit
    reads f
  {
    Unit(Root(f.name, f.package, f.imports, f.options, f.body), f.source, f.names, f.defined, f.symbolMap)
  }

  // ---------------------------------------------------------------------
  // Moving synthesised messages to the file of their source type.

  /** The source files of the units, in order. */
  function Sources(us: seq<Unit>): (r: seq<FileId>)
    ensures |r| == |us| && forall i :: 0 <= i < |us| ==> r[i] == us[i].source
  {
    seq(|us|, i requires 0 <= i < |us| => us[i].source)
  }

  /** `this.files.get(file)`: the position of the unit made from a source file. */
  function Target(srcs: seq<FileId>, f: FileId): (r: Option<nat>)
    ensures r.Some? ==> r.value < |srcs| && srcs[r.value] == f && f !in srcs[..r.value]
    ensures r.None? ==> f !in srcs
  {
    if |srcs| == 0 then None
    else if srcs[|srcs| - 1] == f && f !in srcs[..|srcs| - 1] then Some(|srcs| - 1)
    else
      var r := Target(srcs[..|srcs| - 1], f);
      assert r.None? ==> forall i :: 0 <= i < |srcs| ==> srcs[i] != f by {
        if r.None? {
          forall i | 0 <= i < |srcs| ensures srcs[i] != f {
            if i < |srcs| - 1 { assert srcs[i] == srcs[..|srcs| - 1][i]; }
          }
        }
      }
      if r.Some? then assert srcs[..r.value] == srcs[..|srcs| - 1][..r.value]; r else r
  }

  /**
   * `artf.sourceType?.symbol.declarations?.[0]` and its source file: a message
   * without a source type has none; a source type without a symbol makes the
   * property access throw.
   */
  function DeclFile(c: Checker, d: TypeDef): Result<Option<FileId>>
  {
    match d.source
    case None => Ok(None)
    case Some(t) =>
      match TypeOf(c, t).symbol
      case None => Err("Cannot read properties of undefined (reading 'declarations')")
      case Some(sym) => Ok(SymbolOf(c, sym).declFile)
  }

  /** The position of the unit a synthesised message belongs in, if any. */
  function Home(c: Checker, srcs: seq<FileId>, d: TypeDef): Option<nat>
  {
    match DeclFile(c, d)
    case Ok(Some(f)) => Target(srcs, f)
    case _ => None
  }

  /** `target.push(artf)`; a message whose file is not found stays where it is (the failure is only logged). */
  function RelocateOne(c: Checker, us: seq<Unit>, d: TypeDef): (r: Result<seq<Unit>>)
  {
    match DeclFile(c, d)
    case Err(m) => Err(m)
    case Ok(_) =>
      match Home(c, Sources(us), d)
      case None => Ok(us)
      case Some(k) =>
        match Push(us[k].root.body, us[k].names, DefStmt(d))
        case Err(m) => Err(m)
        case Ok((b, n)) => Ok(us[k := us[k].(root := us[k].root.(body := b), names := n)])
  }

  /** The relocation loop over `artificialTypes`, in order; the first error ends it. */
  function Relocated(c: Checker, us: seq<Unit>, arts: seq<TypeDef>): Result<seq<Unit>>
  {
    if |arts| == 0 then Ok(us)
    else
      match Relocated(c, us, arts[..|arts| - 1])
      case Err(m) => Err(m)
      case Ok(vs) => RelocateOne(c, vs, arts[|arts| - 1])
  }

  /** The definitions of `arts` that belong in unit `k`, in order, as statements. */
  function Arriving(c: Checker, srcs: seq<FileId>, arts: seq<TypeDef>, k: nat): seq<Stmt>
  {
    if |arts| == 0 then []
    else Arriving(c, srcs, arts[..|arts| - 1], k) + if Home(c, srcs, arts[|arts| - 1]) == Some(k) then [DefStmt(arts[|arts| - 1])] else []
  }

  /** Everything a unit holds except its body and name table. */
  function Frame(u: Unit): Unit
  {
    u.(root := u.root.(body := []), names := {})
  }

  /** The names of a sequence of statements. */
  function NamesIn(ss: seq<Stmt>): set<string>
  {
    set i | 0 <= i < |ss| :: NameOf(ss[i])
  }

  /**
   * Relocation only appends: each unit's body ends with the messages that
   * belong in it, in the order they were synthesised, and its name table
   * gains their names; nothing else of any unit changes, and a table that
   * recorded its body exactly still does.
   */
  lemma {:induction false} RelocatedAppends(c: Checker, us: seq<Unit>, arts: seq<TypeDef>)
    requires Relocated(c, us, arts).Ok?
    ensures var vs := Relocated(c, us, arts).value;
      |vs| == |us| && forall k :: 0 <= k < |us| ==> Appended(us[k], vs[k], Arriving(c, Sources(us), arts, k))
  {
    if |arts| > 0 {
      var pre, d := arts[..|arts| - 1], arts[|arts| - 1];
      RelocatedAppends(c, us, pre);
      var ws := Relocated(c, us, pre).value;
      assert Sources(ws) == Sources(us);
      RelocateOneSpec(c, ws, d);
      var vs := Relocated(c, us, arts).value;
      forall k | 0 <= k < |us| ensures Appended(us[k], vs[k], Arriving(c, Sources(us), arts, k)) {
        ArrivingStep(c, Sources(us), arts, k);
        var a := Arriving(c, Sources(us), pre, k);
        if Home(c, Sources(us), d) == Some(k) {
          AppendedSnoc(us[k], ws[k], vs[k], a, DefStmt(d));
        } else {
          assert a + [] == a;
        }
      }
    }
  }

  /** `v` is `u` with `ss` appended to its body and their names added to its table; a table exact for its body stays exact. */
  ghost predicate Appended(u: Unit, v: Unit, ss: seq<Stmt>)
  {
    && Frame(v) == Frame(u)
    && v.root.body == u.root.body + ss
    && v.names == u.names + NamesIn(ss)
    && (Registered(u.root.body, u.names) ==> Registered(v.root.body, v.names))
  }

  lemma AppendedSnoc(u: Unit, w: Unit, v: Unit, a: seq<Stmt>, s: Stmt)
    requires Appended(u, w, a)
    requires Frame(v) == Frame(w) && Push(w.root.body, w.names, s) == Ok((v.root.body, v.names))
    ensures Appended(u, v, a + [s])
  {
    if Registered(u.root.body, u.names) {
      PushRegistered(w.root.body, w.names, s);
    }
    NamesInSnoc(a, s);
    assert u.root.body + a + [s] == u.root.body + (a + [s]);
  }

  /** One relocation: the unit the message belongs in gets it pushed, every other unit is unchanged. */
  lemma RelocateOneSpec(c: Checker, ws: seq<Unit>, d: TypeDef)
    requires RelocateOne(c, ws, d).Ok?
    ensures var vs := RelocateOne(c, ws, d).value;
      |vs| == |ws| && forall k :: 0 <= k < |ws| ==>
        if Home(c, Sources(ws), d) == Some(k) then Frame(vs[k]) == Frame(ws[k]) && Push(ws[k].root.body, ws[k].names, DefStmt(d)) == Ok((vs[k].root.body, vs[k].names))
        else vs[k] == ws[k]
  {
  }

  lemma ArrivingStep(c: Checker, srcs: seq<FileId>, arts: seq<TypeDef>, k: nat)
    requires |arts| > 0
    ensures Arriving(c, srcs, arts, k) == Arriving(c, srcs, arts[..|arts| - 1], k) +
      if Home(c, srcs, arts[|arts| - 1]) == Some(k) then [DefStmt(arts[|arts| - 1])] else []
  {
  }

  lemma NamesInSnoc(ss: seq<Stmt>, s: Stmt)
    ensures NamesIn(ss + [s]) == NamesIn(ss) + {NameOf(s)}
  {
    var t := ss + [s];
    assert NameOf(t[|ss|]) == NameOf(s);
    forall x | x in NamesIn(t) ensures x in NamesIn(ss) + {NameOf(s)} {
      var i :| 0 <= i < |t| && x == NameOf(t[i]);
      if i < |ss| { assert t[i] == ss[i]; }
    }
    forall x | x in NamesIn(ss) ensures x in NamesIn(t) {
      var i :| 0 <= i < |ss| && x == NameOf(ss[i]);
      assert t[i] == ss[i];
    }
  }

  // ---------------------------------------------------------------------
  // Numbering and ordering every scope.

  /** The comparator of the body sort, as a key: statements other than fields first, then fields by number. */
  function FieldOrder(s: Stmt): Key
  {
    if s.FieldStmt? then (1, s.field.number) else (0, 0)
  }

  /** `alloc.markSweep(def)` from an empty allocator, then the stable sort of the body. */
  function Ordered(body: seq<Stmt>): Result<seq<Stmt>>
  {
    match MarkAll({}, BodyItems(body))
    case None => Err("Index is already taken")
    case Some(t) => Ok(SortBy(SweepBody(t, body).0, FieldOrder))
  }

  /**
   * Every definition of the tree whose identity is listed has its body
   * numbered and ordered; the nested definitions are treated within their
   * parents' bodies, which the parents' own passes do not look into.
   */
  function NormStmts(ids: set<nat>, body: seq<Stmt>): Result<seq<Stmt>>
    decreases body
  {
    if |body| == 0 then Ok([])
    else
      match NormStmts(ids, body[..|body| - 1])
      case Err(m) => Err(m)
      case Ok(p) =>
        match NormStmt(ids, body[|body| - 1])
        case Err(m) => Err(m)
        case Ok(s) => Ok(p + [s])
  }

  function NormStmt(ids: set<nat>, s: Stmt): Result<Stmt>
    decreases s
  {
    if !s.DefStmt? then Ok(s)
    else
      var d := s.def;
      match NormStmts(ids, d.body)
      case Err(m) => Err(m)
      case Ok(b) =>
        if d.ref.id !in ids then Ok(DefStmt(d.(body := b)))
        else
          match Ordered(b)
          case Err(m) => Err(m)
          case Ok(o) => Ok(DefStmt(d.(body := o)))
  }

  /** A body is ordered: statements other than fields come first, and fields follow by ascending number. */
  predicate FieldsLast(body: seq<Stmt>)
  {
    forall i, j :: 0 <= i < j < |body| && body[i].FieldStmt? ==> body[j].FieldStmt? && body[i].field.number <= body[j].field.number
  }

  /** Every listed definition of a tree is ordered. */
  ghost predicate AllOrdered(ids: set<nat>, body: seq<Stmt>)
    decreases body
  {
    forall s :: s in body ==> StmtOrdered(ids, s)
  }

  ghost predicate StmtOrdered(ids: set<nat>, s: Stmt)
    decreases s
  {
    s.DefStmt? ==> (s.def.ref.id in ids ==> FieldsLast(s.def.body)) && AllOrdered(ids, s.def.body)
  }

  lemma SortedFieldsLast(body: seq<Stmt>)
    requires SortedBy(body, FieldOrder)
    ensures FieldsLast(body)
  {
    forall i, j | 0 <= i < j < |body| && body[i].FieldStmt?
      ensures body[j].FieldStmt? && body[i].field.number <= body[j].field.number
    {
      assert Le(FieldOrder(body[i]), FieldOrder(body[j]));
    }
  }

  /** The sweep leaves every statement other than a field as it was, in place. */
  lemma {:induction false} SweepKeepsOthers(taken: set<int>, body: seq<Stmt>)
    ensures Only(SweepBody(taken, body).0, FieldOrder, (0, 0)) == Only(body, FieldOrder, (0, 0))
    ensures forall s :: s in SweepBody(taken, body).0 && !s.FieldStmt? ==> s in body
  {
    if |body| > 0 {
      var pre, last := body[..|body| - 1], body[|body| - 1];
      SweepKeepsOthers(taken, pre);
      var (p, t) := SweepBody(taken, pre);
      var out := SweepBody(taken, body).0;
      assert out == p + [SweepStmt(t, last).0];
      assert out[..|out| - 1] == p;
      assert SweepStmt(t, last).0.FieldStmt? <==> last.FieldStmt?;
      assert !last.FieldStmt? ==> SweepStmt(t, last).0 == last;
      forall s | s in out && !s.FieldStmt? ensures s in body {
        if s in p { } else { assert s == last; }
      }
    }
  }

  /**
   * The numbering and ordering of one body: it fails exactly when the mark
   * pass finds an index claimed twice; otherwise the result is ordered, holds
   * exactly the swept statements, and keeps the statements other than fields
   * in their original relative order.
   */
  lemma OrderedSpec(body: seq<Stmt>)
    ensures Ordered(body).Ok? <==> MarkAll({}, BodyItems(body)).Some?
    ensures Ordered(body).Ok? ==>
      var r := Ordered(body).value;
      && FieldsLast(r)
      && multiset(r) == multiset(SweepBody(MarkAll({}, BodyItems(body)).value, body).0)
      && Only(r, FieldOrder, (0, 0)) == Only(body, FieldOrder, (0, 0))
  {
    if MarkAll({}, BodyItems(body)).Some? {
      var swept := SweepBody(MarkAll({}, BodyItems(body)).value, body).0;
      SortSpec(swept, FieldOrder);
      SortedFieldsLast(SortBy(swept, FieldOrder));
      SweepKeepsOthers(MarkAll({}, BodyItems(body)).value, body);
    }
  }

  /** After normalisation every listed definition of the tree is ordered. */
  lemma {:induction false} NormStmtsOrdered(ids: set<nat>, body: seq<Stmt>)
    requires NormStmts(ids, body).Ok?
    ensures AllOrdered(ids, NormStmts(ids, body).value)
    decreases body
  {
    if |body| > 0 {
      var pre, last := body[..|body| - 1], body[|body| - 1];
      NormStmtsOrdered(ids, pre);
      NormStmtOrdered(ids, last);
      var p, s := NormStmts(ids, pre).value, NormStmt(ids, last).value;
      forall x | x in p + [s] ensures StmtOrdered(ids, x) {
        if x in p { } else { assert x == s; }
      }
    }
  }

  lemma {:induction false} NormStmtOrdered(ids: set<nat>, s: Stmt)
    requires NormStmt(ids, s).Ok?
    ensures StmtOrdered(ids, NormStmt(ids, s).value)
    decreases s
  {
    if s.DefStmt? {
      var d := s.def;
      NormStmtsOrdered(ids, d.body);
      var b := NormStmts(ids, d.body).value;
      if d.ref.id in ids {
        var t := MarkAll({}, BodyItems(b)).value;
        OrderedSpec(b);
        SweepKeepsOthers(t, b);
        var o := Ordered(b).value;
        forall x | x in o ensures StmtOrdered(ids, x) {
          assert x in multiset(o);
          assert x in SweepBody(t, b).0;
        }
      }
    }
  }

  /** The identities of the definitions a file has registered by name. */
  function DefinedIds(defined: map<string, DefRef>): set<nat>
  {
    set k | k in defined :: defined[k].id
  }

  /** The normalisation of one file: every scope in `defined`, from a fresh allocator each time. */
  function NormUnit(u: Unit): Result<Unit>
  {
    match NormStmts(DefinedIds(u.defined), u.root.body)
    case Err(m) => Err(m)
    case Ok(b) => Ok(u.(root := u.root.(body := b)))
  }

  /** The normalisation loop over the files, in order; the first error ends it. */
  function NormUnits(us: seq<Unit>): Result<seq<Unit>>
  {
    if |us| == 0 then Ok([])
    else
      match NormUnits(us[..|us| - 1])
      case Err(m) => Err(m)
      case Ok(p) =>
        match NormUnit(us[|us| - 1])
        case Err(m) => Err(m)
        case Ok(u) => Ok(p + [u])
  }

  /** `markSweep` and the sort over one body, walking into nested definitions. */
  method NormaliseBody(alloc: IndexAllocator, ids: set<nat>, body: seq<Stmt>) returns (r: Result<seq<Stmt>>)
    requires alloc.Valid() && alloc.taken == {}
    modifies alloc
    ensures alloc.Valid() && (r.Ok? ==> alloc.taken == {})
    ensures r == NormStmts(ids, body)
    decreases body, 0
  {
    var out := [];
    var i := 0;
    while i < |body|
      invariant 0 <= i <= |body| && alloc.Valid() && alloc.taken == {}
      invariant NormStmts(ids, body[..i]) == Ok(out)
    {
      assert body[..i + 1][..i] == body[..i];
      var s := NormaliseStmt(alloc, ids, body[i]);
      if s.Err? {
        r := Err(s.msg);
        NormStmtsStops(ids, body, i);
        return;
      }
      out := out + [s.value];
      i := i + 1;
    }
    assert body[..i] == body;
    r := Ok(out);
  }

  method NormaliseStmt(alloc: IndexAllocator, ids: set<nat>, s: Stmt) returns (r: Result<Stmt>)
    requires alloc.Valid() && alloc.taken == {}
    modifies alloc
    ensures alloc.Valid() && (r.Ok? ==> alloc.taken == {})
    ensures r == NormStmt(ids, s)
    decreases s, 1
  {
    if !s.DefStmt? {
      return Ok(s);
    }
    var d := s.def;
    var b := NormaliseBody(alloc, ids, d.body);
    if b.Err? {
      return Err(b.msg);
    }
    if d.ref.id !in ids {
      return Ok(DefStmt(d.(body := b.value)));
    }
    var m := MarkSweep(alloc, b.value);
    if m.Err? {
      return Err(m.msg);
    }
    r := Ok(DefStmt(d.(body := SortBy(m.value, FieldOrder))));
  }

  lemma NormStmtsStops(ids: set<nat>, body: seq<Stmt>, i: nat)
    requires i < |body| && NormStmts(ids, body[..i]).Ok? && NormStmt(ids, body[i]).Err?
    ensures NormStmts(ids, body) == Err(NormStmt(ids, body[i]).msg)
    decreases |body| - i
  {
    assert body[..i + 1][..i] == body[..i];
    if i + 1 < |body| {
      NormStmtsErr(ids, body, i + 1);
    } else {
      assert body[..i + 1] == body;
    }
  }

  /** An error in a prefix is the error of the whole. */
  lemma {:induction false} NormStmtsErr(ids: set<nat>, body: seq<Stmt>, n: nat)
    requires 0 < n <= |body| && NormStmts(ids, body[..n]).Err?
    ensures NormStmts(ids, body) == NormStmts(ids, body[..n])
    decreases |body| - n
  {
    if n < |body| {
      assert body[..n + 1][..n] == body[..n];
      NormStmtsErr(ids, body, n + 1);
    } else {
      assert body[..n] == body;
    }
  }

  // ---------------------------------------------------------------------
  // The linker: placeholders become the definitions they name.

  /** What the linker reads of a file: its name and its lookup tables, which linking does not change. */
  datatype Table = Table(name: string, package: Option<string>, defined: map<string, DefRef>, symbols: map<Symbol, DefRef>)

  function TableOf(u: Unit): Table
  {
    Table(u.root.name, u.root.package, u.defined, u.symbols)
  }

  function Tables(us: seq<Unit>): (r: seq<Table>)
    ensures |r| == |us| && forall i :: 0 <= i < |us| ==> r[i] == TableOf(us[i])
  {
    seq(|us|, i requires 0 <= i < |us| => TableOf(us[i]))
  }

  /** A placeholder is looked up by its source type's symbol when that has a name, by its own name otherwise. */
  function LinkKey(c: Checker, name: string, source: Option<TypeId>): Query
  {
    if source.Some? && TypeOf(c, source.value).symbol.Some? && TypeOf(c, source.value).symbol.value.name != "" then
      SymbolKey(TypeOf(c, source.value).symbol.value)
    else NameKey(name)
  }

  /** A definition found, with the name of the file that holds it. */
  datatype Found = Found(file: string, def: DefRef)

  /** The search over the files, in order: the first file whose `getDefinition` finds the key. */
  function Find(ts: seq<Table>, q: Query): Option<Found>
  {
    if |ts| == 0 then None
    else match Hit(ts[0].package, ts[0].defined, ts[0].symbols, q)
      case Some(d) => Some(Found(ts[0].name, d))
      case None => Find(ts[1..], q)
  }

  /** The search finds what the first file that knows the key holds under it, and nothing when no file knows it. */
  lemma {:induction false} FindFirst(ts: seq<Table>, q: Query)
    ensures Find(ts, q).None? <==> forall j :: 0 <= j < |ts| ==> Hit(ts[j].package, ts[j].defined, ts[j].symbols, q).None?
    ensures Find(ts, q).Some? ==> exists j :: (0 <= j < |ts| && Hit(ts[j].package, ts[j].defined, ts[j].symbols, q) == Some(Find(ts, q).value.def)
      && ts[j].name == Find(ts, q).value.file && forall i :: 0 <= i < j ==> Hit(ts[i].package, ts[i].defined, ts[i].symbols, q).None?)
  {
    if |ts| > 0 {
      FindFirst(ts[1..], q);
      if Hit(ts[0].package, ts[0].defined, ts[0].symbols, q).None? {
        forall j | 0 <= j < |ts| - 1 ensures ts[1..][j] == ts[j + 1] { }
        if Find(ts, q).Some? {
          var j :| 0 <= j < |ts| - 1 && Hit(ts[1..][j].package, ts[1..][j].defined, ts[1..][j].symbols, q) == Some(Find(ts, q).value.def)
            && ts[1..][j].name == Find(ts, q).value.file
            && forall i :: 0 <= i < j ==> Hit(ts[1..][i].package, ts[1..][i].defined, ts[1..][i].symbols, q).None?;
          forall i | 0 <= i < j + 1 ensures Hit(ts[i].package, ts[i].defined, ts[i].symbols, q).None? {
            if i > 0 { assert ts[i] == ts[1..][i - 1]; }
          }
        } else {
          forall i | 0 <= i < |ts| ensures Hit(ts[i].package, ts[i].defined, ts[i].symbols, q).None? {
            if i > 0 { assert ts[i] == ts[1..][i - 1]; }
          }
        }
      }
    }
  }

  /** Whether some import already has a path. */
  predicate Imports(imps: seq<Import>, path: string)
  {
    exists i :: 0 <= i < |imps| && imps[i].path == path
  }

  /** `if (!file.imports.find(i => i.path === importName)) file.imports.push({ path: importName })`. */
  function WithImport(imps: seq<Import>, path: string): seq<Import>
  {
    if Imports(imps, path) then imps else imps + [Import(path, None)]
  }

  /** A tree walked, the imports after the walk, and whether any placeholder was replaced. */
  datatype Linked<T> = Linked(value: T, imports: seq<Import>, changed: bool)

  /**
   * The visitor on one type expression: a placeholder the search finds
   * becomes its definition, and a definition from another file adds that
   * file's `.proto` path to the imports. A definition, whether put in place
   * or already there, is not walked: in particular the synthesised request
   * message an rpc refers to is walked where relocation put it, not at the
   * rpc as `recursiveVisit` does.
   */
  function LinkedType(c: Checker, ts: seq<Table>, self: string, imps: seq<Import>, t: TypeExpr): (r: Linked<TypeExpr>)
    decreases t, 1
  {
    match t
    case TypeRef(name, _, source) => LinkedRef(self, imps, t, Find(ts, LinkKey(c, name, source)))
    case MapType(k, v) =>
      var a := LinkedType(c, ts, self, imps, k);
      var b := LinkedType(c, ts, self, a.imports, v);
      Linked(MapType(a.value, b.value), b.imports, a.changed || b.changed)
    case StreamType(e) => var a := LinkedType(c, ts, self, imps, e); Linked(StreamType(a.value), a.imports, a.changed)
    case RepeatedType(e) => var a := LinkedType(c, ts, self, imps, e); Linked(RepeatedType(a.value), a.imports, a.changed)
    case OptionalType(e) => var a := LinkedType(c, ts, self, imps, e); Linked(OptionalType(a.value), a.imports, a.changed)
    case OneofType(fields, opts) => var a := LinkedFields(c, ts, self, imps, fields); Linked(OneofType(a.value, opts), a.imports, a.changed)
    case RpcType(i, o, opts) =>
      var a := LinkedType(c, ts, self, imps, i);
      var b := LinkedType(c, ts, self, a.imports, o);
      Linked(RpcType(a.value, b.value, opts), b.imports, a.changed || b.changed)
    case _ => Linked(t, imps, false)
  }

  /** `where[key] = defn` for a placeholder the search found, with the import a definition from another file needs. */
  function LinkedRef(self: string, imps: seq<Import>, t: TypeExpr, found: Option<Found>): Linked<TypeExpr>
  {
    match found
    case None => Linked(t, imps, false)
    case Some(f) => Linked(DefType(f.def), if f.file != self then WithImport(imps, ProtoName(f.file)) else imps, true)
  }

  function LinkedFields(c: Checker, ts: seq<Table>, self: string, imps: seq<Import>, fs: seq<Field>): (r: Linked<seq<Field>>)
    ensures |r.value| == |fs|
    decreases fs, 0
  {
    if |fs| == 0 then Linked([], imps, false)
    else
      var a := LinkedFields(c, ts, self, imps, fs[..|fs| - 1]);
      var last := fs[|fs| - 1];
      var b := LinkedType(c, ts, self, a.imports, last.ty);
      Linked(a.value + [last.(ty := b.value)], b.imports, a.changed || b.changed)
  }

  /** The visitor over a body: a field's type is walked, a nested definition's body too. */
  function LinkedStmts(c: Checker, ts: seq<Table>, self: string, imps: seq<Import>, body: seq<Stmt>): (r: Linked<seq<Stmt>>)
    ensures |r.value| == |body|
    decreases body, 0
  {
    if |body| == 0 then Linked([], imps, false)
    else
      var a := LinkedStmts(c, ts, self, imps, body[..|body| - 1]);
      var b := LinkedStmt(c, ts, self, a.imports, body[|body| - 1]);
      Linked(a.value + [b.value], b.imports, a.changed || b.changed)
  }

  function LinkedStmt(c: Checker, ts: seq<Table>, self: string, imps: seq<Import>, s: Stmt): (r: Linked<Stmt>)
    decreases s, 1
  {
    match s
    case FieldStmt(f) => var a := LinkedType(c, ts, self, imps, f.ty); Linked(FieldStmt(f.(ty := a.value)), a.imports, a.changed)
    case DefStmt(d) => var a := LinkedStmts(c, ts, self, imps, d.body); Linked(DefStmt(d.(body := a.value)), a.imports, a.changed)
    case _ => Linked(s, imps, false)
  }

  /** No placeholder left in a tree is one the search finds. */
  predicate SettledType(c: Checker, ts: seq<Table>, t: TypeExpr)
    decreases t, 1
  {
    match t
    case TypeRef(name, _, source) => Find(ts, LinkKey(c, name, source)).None?
    case MapType(k, v) => SettledType(c, ts, k) && SettledType(c, ts, v)
    case StreamType(e) => SettledType(c, ts, e)
    case RepeatedType(e) => SettledType(c, ts, e)
    case OptionalType(e) => SettledType(c, ts, e)
    case OneofType(fields, _) => SettledFields(c, ts, fields)
    case RpcType(i, o, _) => SettledType(c, ts, i) && SettledType(c, ts, o)
    case _ => true
  }

  predicate SettledFields(c: Checker, ts: seq<Table>, fs: seq<Field>)
    decreases fs, 0
  {
    forall i :: 0 <= i < |fs| ==> SettledType(c, ts, fs[i].ty)
  }

  predicate SettledStmts(c: Checker, ts: seq<Table>, body: seq<Stmt>)
    decreases body, 0
  {
    forall i :: 0 <= i < |body| ==> SettledStmt(c, ts, body[i])
  }

  predicate SettledStmt(c: Checker, ts: seq<Table>, s: Stmt)
    decreases s, 1
  {
    match s
    case FieldStmt(f) => SettledType(c, ts, f.ty)
    case DefStmt(d) => SettledStmts(c, ts, d.body)
    case _ => true
  }

  /** A path is the `.proto` name of a file other than `self`. */
  ghost predicate CrossPath(ts: seq<Table>, self: string, p: string)
  {
    exists j :: 0 <= j < |ts| && ts[j].name != self && p == ProtoName(ts[j].name)
  }

  /**
   * The imports only grow at the end, and each import added has no flag,
   * names another file's `.proto` path, and is not a path already there.
   */
  ghost predicate Grows(ts: seq<Table>, self: string, a: seq<Import>, b: seq<Import>)
  {
    && a <= b
    && forall i :: |a| <= i < |b| ==> b[i].flag.None? && CrossPath(ts, self, b[i].path) && !Imports(b[..i], b[i].path)
  }

  lemma GrowsTrans(ts: seq<Table>, self: string, a: seq<Import>, b: seq<Import>, d: seq<Import>)
    requires Grows(ts, self, a, b) && Grows(ts, self, b, d)
    ensures Grows(ts, self, a, d)
  {
    forall i | |a| <= i < |b| ensures d[i] == b[i] && d[..i] == b[..i] { }
  }

  lemma WithImportGrows(ts: seq<Table>, self: string, imps: seq<Import>, j: nat)
    requires j < |ts| && ts[j].name != self
    ensures Grows(ts, self, imps, WithImport(imps, ProtoName(ts[j].name)))
  {
    var out := WithImport(imps, ProtoName(ts[j].name));
    if out != imps {
      assert out[..|imps|] == imps;
    }
  }

  /** What one replacement does: the placeholder is settled, and the imports grow as they may. */
  lemma LinkedRefSpec(c: Checker, ts: seq<Table>, self: string, imps: seq<Import>, t: TypeExpr)
    requires t.TypeRef?
    ensures var r := LinkedType(c, ts, self, imps, t);
      SettledType(c, ts, r.value) && Grows(ts, self, imps, r.imports) && (!r.changed ==> r.value == t && r.imports == imps)
  {
    var q := LinkKey(c, t.name, t.source);
    FindFirst(ts, q);
    match Find(ts, q)
    case None =>
    case Some(f) =>
      var j :| 0 <= j < |ts| && Hit(ts[j].package, ts[j].defined, ts[j].symbols, q) == Some(f.def) && ts[j].name == f.file
        && forall i :: 0 <= i < j ==> Hit(ts[i].package, ts[i].defined, ts[i].symbols, q).None?;
      if f.file != self {
        WithImportGrows(ts, self, imps, j);
      }
  }

  /**
   * One walk settles the tree: afterwards no placeholder is left that the
   * search finds. The imports grow as they may, and a walk that replaced
   * nothing changed nothing.
   */
  lemma {:induction false} LinkedTypeSpec(c: Checker, ts: seq<Table>, self: string, imps: seq<Import>, t: TypeExpr)
    ensures var r := LinkedType(c, ts, self, imps, t);
      SettledType(c, ts, r.value) && Grows(ts, self, imps, r.imports) && (!r.changed ==> r.value == t && r.imports == imps)
    decreases t, 1
  {
    match t
    case TypeRef(_, _, _) => LinkedRefSpec(c, ts, self, imps, t);
    case MapType(k, v) =>
      var a := LinkedType(c, ts, self, imps, k);
      LinkedTypeSpec(c, ts, self, imps, k);
      LinkedTypeSpec(c, ts, self, a.imports, v);
      GrowsTrans(ts, self, imps, a.imports, LinkedType(c, ts, self, a.imports, v).imports);
    case StreamType(e) => LinkedTypeSpec(c, ts, self, imps, e);
    case RepeatedType(e) => LinkedTypeSpec(c, ts, self, imps, e);
    case OptionalType(e) => LinkedTypeSpec(c, ts, self, imps, e);
    case OneofType(fields, _) => LinkedFieldsSpec(c, ts, self, imps, fields);
    case RpcType(i, o, _) =>
      var a := LinkedType(c, ts, self, imps, i);
      LinkedTypeSpec(c, ts, self, imps, i);
      LinkedTypeSpec(c, ts, self, a.imports, o);
      GrowsTrans(ts, self, imps, a.imports, LinkedType(c, ts, self, a.imports, o).imports);
    case _ =>
  }

  lemma {:induction false} LinkedFieldsSpec(c: Checker, ts: seq<Table>, self: string, imps: seq<Import>, fs: seq<Field>)
    ensures var r := LinkedFields(c, ts, self, imps, fs);
      SettledFields(c, ts, r.value) && Grows(ts, self, imps, r.imports) && (!r.changed ==> r.value == fs && r.imports == imps)
    decreases fs, 0
  {
    if |fs| > 0 {
      var pre, last := fs[..|fs| - 1], fs[|fs| - 1];
      var a := LinkedFields(c, ts, self, imps, pre);
      LinkedFieldsSpec(c, ts, self, imps, pre);
      var b := LinkedType(c, ts, self, a.imports, last.ty);
      LinkedTypeSpec(c, ts, self, a.imports, last.ty);
      GrowsTrans(ts, self, imps, a.imports, b.imports);
      var out := a.value + [last.(ty := b.value)];
      assert LinkedFields(c, ts, self, imps, fs) == Linked(out, b.imports, a.changed || b.changed);
      SettledFieldsSnoc(c, ts, a.value, last.(ty := b.value));
      assert last.(ty := last.ty) == last;
      Unsnoc(fs);
    }
  }

  lemma {:induction false} LinkedStmtsSpec(c: Checker, ts: seq<Table>, self: string, imps: seq<Import>, body: seq<Stmt>)
    ensures var r := LinkedStmts(c, ts, self, imps, body);
      SettledStmts(c, ts, r.value) && Grows(ts, self, imps, r.imports) && (!r.changed ==> r.value == body && r.imports == imps)
    decreases body, 0
  {
    if |body| > 0 {
      var pre, last := body[..|body| - 1], body[|body| - 1];
      var a := LinkedStmts(c, ts, self, imps, pre);
      LinkedStmtsSpec(c, ts, self, imps, pre);
      var b := LinkedStmt(c, ts, self, a.imports, last);
      LinkedStmtSpec(c, ts, self, a.imports, last);
      GrowsTrans(ts, self, imps, a.imports, b.imports);
      var out := a.value + [b.value];
      SettledStmtsSnoc(c, ts, a.value, b.value);
      Unsnoc(body);
    }
  }

  lemma Unsnoc<T>(s: seq<T>)
    requires |s| > 0
    ensures s[..|s| - 1] + [s[|s| - 1]] == s
  {
  }

  lemma SettledFieldsSnoc(c: Checker, ts: seq<Table>, p: seq<Field>, f: Field)
    requires SettledFields(c, ts, p) && SettledType(c, ts, f.ty)
    ensures SettledFields(c, ts, p + [f])
  {
    forall i | 0 <= i < |p| + 1 ensures SettledType(c, ts, (p + [f])[i].ty) {
      if i < |p| { assert (p + [f])[i] == p[i]; }
    }
  }

  lemma SettledStmtsSnoc(c: Checker, ts: seq<Table>, p: seq<Stmt>, s: Stmt)
    requires SettledStmts(c, ts, p) && SettledStmt(c, ts, s)
    ensures SettledStmts(c, ts, p + [s])
  {
    forall i | 0 <= i < |p| + 1 ensures SettledStmt(c, ts, (p + [s])[i]) {
      if i < |p| { assert (p + [s])[i] == p[i]; }
    }
  }

  lemma {:induction false} LinkedStmtSpec(c: Checker, ts: seq<Table>, self: string, imps: seq<Import>, s: Stmt)
    ensures var r := LinkedStmt(c, ts, self, imps, s);
      SettledStmt(c, ts, r.value) && Grows(ts, self, imps, r.imports) && (!r.changed ==> r.value == s && r.imports == imps)
    decreases s, 1
  {
    match s
    case FieldStmt(f) => LinkedTypeSpec(c, ts, self, imps, f.ty);
    case DefStmt(d) => LinkedStmtsSpec(c, ts, self, imps, d.body);
    case _ =>
  }

  /** A settled tree is a fixed point: walking it again replaces nothing and adds no import. */
  lemma {:induction false} SettledTypeFixed(c: Checker, ts: seq<Table>, self: string, imps: seq<Import>, t: TypeExpr)
    requires SettledType(c, ts, t)
    ensures LinkedType(c, ts, self, imps, t) == Linked(t, imps, false)
    decreases t, 1
  {
    match t
    case MapType(k, v) =>
      SettledTypeFixed(c, ts, self, imps, k);
      SettledTypeFixed(c, ts, self, imps, v);
    case StreamType(e) => SettledTypeFixed(c, ts, self, imps, e);
    case RepeatedType(e) => SettledTypeFixed(c, ts, self, imps, e);
    case OptionalType(e) => SettledTypeFixed(c, ts, self, imps, e);
    case OneofType(fields, _) => SettledFieldsFixed(c, ts, self, imps, fields);
    case RpcType(i, o, _) =>
      SettledTypeFixed(c, ts, self, imps, i);
      SettledTypeFixed(c, ts, self, imps, o);
    case _ =>
  }

  lemma {:induction false} SettledFieldsFixed(c: Checker, ts: seq<Table>, self: string, imps: seq<Import>, fs: seq<Field>)
    requires SettledFields(c, ts, fs)
    ensures LinkedFields(c, ts, self, imps, fs) == Linked(fs, imps, false)
    decreases fs, 0
  {
    if |fs| > 0 {
      var pre, last := fs[..|fs| - 1], fs[|fs| - 1];
      assert SettledFields(c, ts, pre) by {
        forall i | 0 <= i < |pre| ensures SettledType(c, ts, pre[i].ty) { assert pre[i] == fs[i]; }
      }
      SettledFieldsFixed(c, ts, self, imps, pre);
      SettledTypeFixed(c, ts, self, imps, last.ty);
      assert pre + [last.(ty := last.ty)] == fs;
    }
  }

  lemma {:induction false} SettledStmtsFixed(c: Checker, ts: seq<Table>, self: string, imps: seq<Import>, body: seq<Stmt>)
    requires SettledStmts(c, ts, body)
    ensures LinkedStmts(c, ts, self, imps, body) == Linked(body, imps, false)
    decreases body, 0
  {
    if |body| > 0 {
      var pre, last := body[..|body| - 1], body[|body| - 1];
      assert SettledStmts(c, ts, pre) by {
        forall i | 0 <= i < |pre| ensures SettledStmt(c, ts, pre[i]) { assert pre[i] == body[i]; }
      }
      SettledStmtsFixed(c, ts, self, imps, pre);
      SettledStmtFixed(c, ts, self, imps, last);
      assert pre + [last] == body;
    }
  }

  lemma {:induction false} SettledStmtFixed(c: Checker, ts: seq<Table>, self: string, imps: seq<Import>, s: Stmt)
    requires SettledStmt(c, ts, s)
    ensures LinkedStmt(c, ts, self, imps, s) == Linked(s, imps, false)
    decreases s, 1
  {
    match s
    case FieldStmt(f) =>
      SettledTypeFixed(c, ts, self, imps, f.ty);
      assert f.(ty := f.ty) == f;
    case DefStmt(d) =>
      SettledStmtsFixed(c, ts, self, imps, d.body);
      assert d.(body := d.body) == d;
    case _ =>
  }

  /** One file walked: its body linked and its imports extended. */
  function LinkUnit(c: Checker, ts: seq<Table>, u: Unit): Linked<Unit>
  {
    var a := LinkedStmts(c, ts, u.root.name, u.root.imports, u.root.body);
    Linked(u.(root := u.root.(body := a.value, imports := a.imports)), a.imports, a.changed)
  }

  /** One pass of the fixed-point loop: every file walked in order, against the tables of all files. */
  function LinkPass(c: Checker, ts: seq<Table>, us: seq<Unit>): (r: (seq<Unit>, bool))
    ensures |r.0| == |us|
  {
    if |us| == 0 then ([], false)
    else
      var (p, ch) := LinkPass(c, ts, us[..|us| - 1]);
      var l := LinkUnit(c, ts, us[|us| - 1]);
      (p + [l.value], ch || l.changed)
  }

  /** Everything of a unit but its body and imports. */
  function LinkFrame(u: Unit): Unit
  {
    u.(root := u.root.(body := [], imports := []))
  }

  /** What a pass does to one file: only its body and imports change, the body is settled, and the imports grow as they may. */
  ghost predicate LinkedUnit(c: Checker, ts: seq<Table>, u: Unit, v: Unit)
  {
    && LinkFrame(v) == LinkFrame(u)
    && SettledStmts(c, ts, v.root.body)
    && Grows(ts, u.root.name, u.root.imports, v.root.imports)
  }

  /**
   * A pass settles every file and changes nothing but bodies and imports,
   * so the tables the search reads stay as they were; a pass that reports no
   * change changed nothing.
   */
  lemma {:induction false} PassSpec(c: Checker, ts: seq<Table>, us: seq<Unit>)
    ensures var (vs, ch) := LinkPass(c, ts, us);
      (forall k :: 0 <= k < |us| ==> LinkedUnit(c, ts, us[k], vs[k])) && Tables(vs) == Tables(us) && (!ch ==> vs == us)
  {
    if |us| > 0 {
      var pre := us[..|us| - 1];
      PassSpec(c, ts, pre);
      var u := us[|us| - 1];
      LinkedStmtsSpec(c, ts, u.root.name, u.root.imports, u.root.body);
      var (vs, ch) := LinkPass(c, ts, us);
      forall k | 0 <= k < |us| ensures LinkedUnit(c, ts, us[k], vs[k]) {
        if k < |pre| { assert us[k] == pre[k]; }
      }
      assert Tables(vs) == Tables(us) by {
        forall k | 0 <= k < |us| ensures TableOf(vs[k]) == TableOf(us[k]) {
          assert LinkFrame(vs[k]) == LinkFrame(us[k]);
        }
      }
      if !ch {
        Unsnoc(us);
      }
    }
  }

  /** A pass over settled files changes nothing: the second pass of the loop ends it. */
  lemma {:induction false} PassFixed(c: Checker, ts: seq<Table>, us: seq<Unit>)
    requires forall k :: 0 <= k < |us| ==> SettledStmts(c, ts, us[k].root.body)
    ensures LinkPass(c, ts, us) == (us, false)
  {
    if |us| > 0 {
      var pre, u := us[..|us| - 1], us[|us| - 1];
      assert forall k :: 0 <= k < |pre| ==> pre[k] == us[k];
      PassFixed(c, ts, pre);
      SettledStmtsFixed(c, ts, u.root.name, u.root.imports, u.root.body);
      assert u.(root := u.root.(body := u.root.body, imports := u.root.imports)) == u;
      Unsnoc(us);
    }
  }

  /** The linker's result: one pass, since a second finds nothing left to link. */
  lemma LinkTwice(c: Checker, us: seq<Unit>)
    ensures var ts := Tables(us); var (vs, _) := LinkPass(c, ts, us);
      Tables(vs) == ts && LinkPass(c, ts, vs) == (vs, false)
  {
    var ts := Tables(us);
    PassSpec(c, ts, us);
    var vs := LinkPass(c, ts, us).0;
    PassFixed(c, ts, vs);
  }

  // The linker's loops.

  /** The loop over the target files: the first whose `getDefinition` finds the key. */
  method FindDefinition(ts: seq<Table>, q: Query) returns (r: Option<Found>)
    ensures r == Find(ts, q)
  {
    var j := 0;
    while j < |ts|
      invariant 0 <= j <= |ts| && Find(ts, q) == Find(ts[j..], q)
    {
      assert ts[j..][1..] == ts[j + 1..];
      var d := Hit(ts[j].package, ts[j].defined, ts[j].symbols, q);
      if d.Some? {
        return Some(Found(ts[j].name, d.value));
      }
      j := j + 1;
    }
    return None;
  }

  /** `file.imports.find(...)`, then the push when nothing has the path. */
  method AddImport(imps: seq<Import>, path: string) returns (r: seq<Import>)
    ensures r == WithImport(imps, path)
  {
    var i := 0;
    while i < |imps|
      invariant 0 <= i <= |imps| && forall k :: 0 <= k < i ==> imps[k].path != path
    {
      if imps[i].path == path {
        return imps;
      }
      i := i + 1;
    }
    r := imps + [Import(path, None)];
  }

  method LinkType(c: Checker, ts: seq<Table>, self: string, imps: seq<Import>, t: TypeExpr) returns (r: Linked<TypeExpr>)
    ensures r == LinkedType(c, ts, self, imps, t)
    decreases t, 1
  {
    match t
    case TypeRef(name, _, source) =>
      var found := FindDefinition(ts, LinkKey(c, name, source));
      if found.None? {
        return Linked(t, imps, false);
      }
      var out := imps;
      if found.value.file != self {
        out := AddImport(imps, ProtoName(found.value.file));
      }
      r := Linked(DefType(found.value.def), out, true);
    case MapType(k, v) =>
      var a := LinkType(c, ts, self, imps, k);
      var b := LinkType(c, ts, self, a.imports, v);
      r := Linked(MapType(a.value, b.value), b.imports, a.changed || b.changed);
    case StreamType(e) =>
      var a := LinkType(c, ts, self, imps, e);
      r := Linked(StreamType(a.value), a.imports, a.changed);
    case RepeatedType(e) =>
      var a := LinkType(c, ts, self, imps, e);
      r := Linked(RepeatedType(a.value), a.imports, a.changed);
    case OptionalType(e) =>
      var a := LinkType(c, ts, self, imps, e);
      r := Linked(OptionalType(a.value), a.imports, a.changed);
    case OneofType(fields, opts) =>
      var a := LinkFields(c, ts, self, imps, fields);
      r := Linked(OneofType(a.value, opts), a.imports, a.changed);
    case RpcType(i, o, opts) =>
      var a := LinkType(c, ts, self, imps, i);
      var b := LinkType(c, ts, self, a.imports, o);
      r := Linked(RpcType(a.value, b.value, opts), b.imports, a.changed || b.changed);
    case BuiltinType(_) => r := Linked(t, imps, false);
    case DefType(_) => r := Linked(t, imps, false);
  }

  /** `this.fields.forEach(f => f.visit(fn))` of a oneof. */
  method LinkFields(c: Checker, ts: seq<Table>, self: string, imps: seq<Import>, fs: seq<Field>) returns (r: Linked<seq<Field>>)
    ensures r == LinkedFields(c, ts, self, imps, fs)
    decreases fs, 0
  {
    r := Linked([], imps, false);
    var i := 0;
    while i < |fs|
      invariant 0 <= i <= |fs| && r == LinkedFields(c, ts, self, imps, fs[..i])
    {
      assert fs[..i + 1][..i] == fs[..i];
      var b := LinkType(c, ts, self, r.imports, fs[i].ty);
      r := Linked(r.value + [fs[i].(ty := b.value)], b.imports, r.changed || b.changed);
      i := i + 1;
    }
    assert fs[..i] == fs;
  }

  /** `Scope.visit`: every statement of a body, in order. */
  method LinkStmts(c: Checker, ts: seq<Table>, self: string, imps: seq<Import>, body: seq<Stmt>) returns (r: Linked<seq<Stmt>>)
    ensures r == LinkedStmts(c, ts, self, imps, body)
    decreases body, 0
  {
    r := Linked([], imps, false);
    var i := 0;
    while i < |body|
      invariant 0 <= i <= |body| && r == LinkedStmts(c, ts, self, imps, body[..i])
    {
      assert body[..i + 1][..i] == body[..i];
      var b := LinkStmt(c, ts, self, r.imports, body[i]);
      r := Linked(r.value + [b.value], b.imports, r.changed || b.changed);
      i := i + 1;
    }
    assert body[..i] == body;
  }

  method LinkStmt(c: Checker, ts: seq<Table>, self: string, imps: seq<Import>, s: Stmt) returns (r: Linked<Stmt>)
    ensures r == LinkedStmt(c, ts, self, imps, s)
    decreases s, 1
  {
    if s.FieldStmt? {
      var a := LinkType(c, ts, self, imps, s.field.ty);
      r := Linked(FieldStmt(s.field.(ty := a.value)), a.imports, a.changed);
    } else if s.DefStmt? {
      var a := LinkStmts(c, ts, self, imps, s.def.body);
      r := Linked(DefStmt(s.def.(body := a.value)), a.imports, a.changed);
    } else {
      r := Linked(s, imps, false);
    }
  }

  lemma PassStep(c: Checker, ts: seq<Table>, us: seq<Unit>, i: nat)
    requires i < |us|
    ensures LinkPass(c, ts, us[..i + 1]) == (LinkPass(c, ts, us[..i]).0 + [LinkUnit(c, ts, us[i]).value], LinkPass(c, ts, us[..i]).1 || LinkUnit(c, ts, us[i]).changed)
  {
    assert us[..i + 1][..i] == us[..i];
  }

  lemma Replace<T>(p: seq<T>, q: seq<T>, x: T)
    requires |q| > 0
    ensures (p + q)[|p| := x] == p + [x] + q[1..]
  {
  }

  /** An error in a prefix of the relocation loop is its result. */
  lemma {:induction false} RelocatedErr(c: Checker, us: seq<Unit>, arts: seq<TypeDef>, n: nat)
    requires n <= |arts| && Relocated(c, us, arts[..n]).Err?
    ensures Relocated(c, us, arts) == Relocated(c, us, arts[..n])
    decreases |arts| - n
  {
    if n < |arts| {
      assert arts[..n + 1][..n] == arts[..n];
      RelocatedErr(c, us, arts, n + 1);
    } else {
      assert arts[..n] == arts;
    }
  }

  lemma NormUnitsStep(us: seq<Unit>, i: nat, p: seq<Unit>)
    requires i < |us| && NormUnits(us[..i]) == Ok(p)
    ensures var b := NormStmts(DefinedIds(us[i].defined), us[i].root.body);
      NormUnits(us[..i + 1]) == if b.Err? then Err(b.msg) else Ok(p + [us[i].(root := us[i].root.(body := b.value))])
  {
    assert us[..i + 1][..i] == us[..i];
  }

  /** The step of the linker's loop over the files: file `i` is still as it was, and replacing it extends the pass by one file. */
  lemma LinkOnceStep(c: Checker, ts: seq<Table>, u0: seq<Unit>, cur: seq<Unit>, changed: bool, i: nat)
    requires |cur| == |u0| && i < |u0|
    requires cur == LinkPass(c, ts, u0[..i]).0 + u0[i..] && changed == LinkPass(c, ts, u0[..i]).1
    ensures var l := LinkUnit(c, ts, u0[i]);
      && cur[i] == u0[i]
      && cur[i := l.value] == LinkPass(c, ts, u0[..i + 1]).0 + u0[i + 1..]
      && (changed || l.changed) == LinkPass(c, ts, u0[..i + 1]).1
  {
    var p := LinkPass(c, ts, u0[..i]).0;
    PassStep(c, ts, u0, i);
    Replace(p, u0[i..], LinkUnit(c, ts, u0[i]).value);
    assert u0[i..][1..] == u0[i + 1..];
  }

  lemma LinkOnceEnd(c: Checker, ts: seq<Table>, u0: seq<Unit>, cur: seq<Unit>, changed: bool, i: nat)
    requires i == |u0| && cur == LinkPass(c, ts, u0[..i]).0 + u0[i..] && changed == LinkPass(c, ts, u0[..i]).1
    ensures cur == LinkPass(c, ts, u0).0 && changed == LinkPass(c, ts, u0).1
  {
    assert u0[..|u0|] == u0 && u0[|u0|..] == [];
    assert cur == LinkPass(c, ts, u0).0 + [];
  }

  /** An error in a prefix of the normalisation loop is its result. */
  lemma {:induction false} NormUnitsErr(us: seq<Unit>, n: nat)
    requires n <= |us| && NormUnits(us[..n]).Err?
    ensures NormUnits(us) == NormUnits(us[..n])
    decreases |us| - n
  {
    if n < |us| {
      assert us[..n + 1][..n] == us[..n];
      NormUnitsErr(us, n + 1);
    } else {
      assert us[..n] == us;
    }
  }

  /** The loop of one linker pass over the files, in order. */
  method LinkFiles(c: Checker, ts: seq<Table>, us: seq<Unit>) returns (vs: seq<Unit>, changed: bool)
    ensures vs == LinkPass(c, ts, us).0 && changed == LinkPass(c, ts, us).1
  {
    vs := us;
    changed := false;
    var i := 0;
    while i < |vs|
      invariant |vs| == |us| && 0 <= i <= |us|
      invariant vs == LinkPass(c, ts, us[..i]).0 + us[i..]
      invariant changed == LinkPass(c, ts, us[..i]).1
    {
      LinkOnceStep(c, ts, us, vs, changed, i);
      var u := vs[i];
      var a := LinkStmts(c, ts, u.root.name, u.root.imports, u.root.body);
      vs := vs[i := u.(root := u.root.(body := a.value, imports := a.imports))];
      changed := changed || a.changed;
      i := i + 1;
    }
    LinkOnceEnd(c, ts, us, vs, changed, i);
  }

  /** `parse` after the files are read: relocation, normalisation, then linking. */
  function Parsed(c: Checker, us: seq<Unit>, arts: seq<TypeDef>): Result<seq<Unit>>
  {
    match Relocated(c, us, arts)
    case Err(m) => Err(m)
    case Ok(vs) =>
      match NormUnits(vs)
      case Err(m) => Err(m)
      case Ok(ws) => Ok(LinkPass(c, Tables(ws), ws).0)
  }

  /** Bodies whose statements agree position by position on the sort key: one is ordered when the other is. */
  lemma FieldsLastSame(a: seq<Stmt>, b: seq<Stmt>)
    requires |a| == |b| && forall i :: 0 <= i < |a| ==> FieldOrder(a[i]) == FieldOrder(b[i])
    requires FieldsLast(a)
    ensures FieldsLast(b)
  {
    forall i, j | 0 <= i < j < |b| && b[i].FieldStmt? ensures b[j].FieldStmt? && b[i].field.number <= b[j].field.number {
      assert FieldOrder(a[i]) == FieldOrder(b[i]) && FieldOrder(a[j]) == FieldOrder(b[j]);
    }
  }

  /** Linking changes only field types: every statement keeps its sort key, and an ordered tree stays ordered. */
  lemma {:induction false} LinkedStmtsOrdered(c: Checker, ts: seq<Table>, self: string, imps: seq<Import>, body: seq<Stmt>, ids: set<nat>)
    ensures var r := LinkedStmts(c, ts, self, imps, body).value;
      && (forall i :: 0 <= i < |body| ==> FieldOrder(r[i]) == FieldOrder(body[i]))
      && (AllOrdered(ids, body) ==> AllOrdered(ids, r))
    decreases body, 0
  {
    if |body| > 0 {
      var pre, last := body[..|body| - 1], body[|body| - 1];
      var a := LinkedStmts(c, ts, self, imps, pre);
      var b := LinkedStmt(c, ts, self, a.imports, last);
      LinkedStmtsOrdered(c, ts, self, imps, pre, ids);
      LinkedStmtOrdered(c, ts, self, a.imports, last, ids);
      var r := LinkedStmts(c, ts, self, imps, body).value;
      assert r == a.value + [b.value];
      forall i | 0 <= i < |body| ensures FieldOrder(r[i]) == FieldOrder(body[i]) {
        if i < |pre| { assert r[i] == a.value[i] && body[i] == pre[i]; }
      }
      if AllOrdered(ids, body) {
        assert forall x :: x in pre ==> x in body;
        assert last in body;
        forall x | x in r ensures StmtOrdered(ids, x) {
          if x in a.value { } else { assert x == b.value; }
        }
      }
    }
  }

  lemma {:induction false} LinkedStmtOrdered(c: Checker, ts: seq<Table>, self: string, imps: seq<Import>, s: Stmt, ids: set<nat>)
    ensures var t := LinkedStmt(c, ts, self, imps, s).value;
      FieldOrder(t) == FieldOrder(s) && (StmtOrdered(ids, s) ==> StmtOrdered(ids, t))
    decreases s, 1
  {
    if s.DefStmt? {
      var d := s.def;
      LinkedStmtsOrdered(c, ts, self, imps, d.body, ids);
      var b := LinkedStmts(c, ts, self, imps, d.body).value;
      if StmtOrdered(ids, s) && d.ref.id in ids {
        FieldsLastSame(d.body, b);
      }
    }
  }

  /** Normalisation changes only bodies: each file's body is its normalised body, and the tables the linker reads stay as they were. */
  lemma {:induction false} NormUnitsSpec(us: seq<Unit>)
    requires NormUnits(us).Ok?
    ensures var vs := NormUnits(us).value;
      && |vs| == |us| && Tables(vs) == Tables(us)
      && forall k :: 0 <= k < |us| ==>
           (NormStmts(DefinedIds(us[k].defined), us[k].root.body).Ok? &&
            vs[k] == us[k].(root := us[k].root.(body := NormStmts(DefinedIds(us[k].defined), us[k].root.body).value)))
  {
    if |us| > 0 {
      var pre := us[..|us| - 1];
      NormUnitsSpec(pre);
      var vs := NormUnits(us).value;
      var ps := NormUnits(pre).value;
      assert vs == ps + [NormUnit(us[|us| - 1]).value];
      forall k | 0 <= k < |us| ensures TableOf(vs[k]) == TableOf(us[k]) {
        if k < |pre| { assert vs[k] == ps[k] && us[k] == pre[k]; }
      }
    }
  }

  /**
   * After `parse`, every file holds the same source and tables as before,
   * every scope it has registered is ordered, and no placeholder that the
   * tables can resolve is left in any body.
   */
  lemma ParsedSpec(c: Checker, us: seq<Unit>, arts: seq<TypeDef>)
    requires Parsed(c, us, arts).Ok?
    ensures var vs := Parsed(c, us, arts).value;
      && |vs| == |us|
      && forall k :: 0 <= k < |us| ==>
           && vs[k].source == us[k].source && TableOf(vs[k]) == TableOf(us[k])
           && SettledStmts(c, Tables(vs), vs[k].root.body)
           && AllOrdered(DefinedIds(us[k].defined), vs[k].root.body)
  {
    var rs := Relocated(c, us, arts).value;
    RelocatedAppends(c, us, arts);
    var ns := NormUnits(rs).value;
    NormUnitsSpec(rs);
    var ts := Tables(ns);
    PassSpec(c, ts, ns);
    var vs := LinkPass(c, ts, ns).0;
    forall k | 0 <= k < |us|
      ensures vs[k].source == us[k].source && TableOf(vs[k]) == TableOf(us[k])
      ensures AllOrdered(DefinedIds(us[k].defined), vs[k].root.body)
    {
      PassAt(c, ts, ns, k);
      UnitParsed(c, ts, us[k], rs[k], ns[k], vs[k]);
    }
  }

  /** The file `k` of a pass is that file linked. */
  lemma {:induction false} PassAt(c: Checker, ts: seq<Table>, us: seq<Unit>, k: nat)
    requires k < |us|
    ensures LinkPass(c, ts, us).0[k] == LinkUnit(c, ts, us[k]).value
  {
    var pre := us[..|us| - 1];
    if k < |pre| {
      PassAt(c, ts, pre, k);
      assert pre[k] == us[k];
    }
  }

  /** One file through `parse`: relocated, normalised, then linked. */
  lemma UnitParsed(c: Checker, ts: seq<Table>, u: Unit, r: Unit, n: Unit, v: Unit)
    requires Frame(r) == Frame(u)
    requires NormStmts(DefinedIds(r.defined), r.root.body).Ok?
    requires n == r.(root := r.root.(body := NormStmts(DefinedIds(r.defined), r.root.body).value))
    requires v == LinkUnit(c, ts, n).value
    ensures v.source == u.source && TableOf(v) == TableOf(u)
    ensures AllOrdered(DefinedIds(u.defined), v.root.body)
  {
    var ids := DefinedIds(u.defined);
    assert ids == DefinedIds(r.defined);
    NormStmtsOrdered(ids, r.root.body);
    LinkedStmtsOrdered(c, ts, n.root.name, n.root.imports, n.root.body, ids);
  }

  /** The compiler's state from the end of its constructor on: the checker and the output files, in source order. */
  class Compiler {
    const checker: Checker
    var units: seq<Unit>

    constructor (checker: Checker, units: seq<Unit>)
      ensures this.checker == checker && this.units == units
    {
      this.checker := checker;
      this.units := units;
    }

    /** The loop over `artificialTypes`; an error leaves the files as they were. */
    method Relocate(arts: seq<TypeDef>) returns (r: Result<()>)
      modifies this`units
      ensures match Relocated(checker, old(units), arts)
        case Ok(vs) => r == Ok(()) && units == vs
        case Err(m) => r == Err(m) && units == old(units)
    {
      var vs := units;
      var i := 0;
      while i < |arts|
        invariant 0 <= i <= |arts| && Relocated(checker, units, arts[..i]) == Ok(vs)
      {
        assert arts[..i + 1][..i] == arts[..i];
        var next := RelocateOne(checker, vs, arts[i]);
        if next.Err? {
          RelocatedErr(checker, units, arts, i + 1);
          return Err(next.msg);
        }
        vs := next.value;
        i := i + 1;
      }
      assert arts[..i] == arts;
      units := vs;
      r := Ok(());
    }

    /** The normalisation loop, with one allocator for all files; an error leaves the files as they were. */
    method Normalise() returns (r: Result<()>)
      modifies this`units
      ensures match NormUnits(old(units))
        case Ok(vs) => r == Ok(()) && units == vs
        case Err(m) => r == Err(m) && units == old(units)
    {
      var alloc := new IndexAllocator();
      var vs := [];
      var i := 0;
      while i < |units|
        invariant units == old(units)
        invariant 0 <= i <= |units| && NormUnits(units[..i]) == Ok(vs)
        invariant alloc.Valid() && alloc.taken == {}
      {
        var u := units[i];
        var b := NormaliseBody(alloc, DefinedIds(u.defined), u.root.body);
        NormUnitsStep(units, i, vs);
        if b.Err? {
          NormUnitsErr(units, i + 1);
          return Err(b.msg);
        }
        vs := vs + [u.(root := u.root.(body := b.value))];
        i := i + 1;
      }
      assert units[..i] == units;
      units := vs;
      r := Ok(());
    }

    /** One pass of the linker over every file, against the tables as they stand. */
    method LinkOnce() returns (changed: bool)
      modifies this`units
      ensures units == LinkPass(checker, Tables(old(units)), old(units)).0
      ensures changed == LinkPass(checker, Tables(old(units)), old(units)).1
    {
      var vs;
      vs, changed := LinkFiles(checker, Tables(units), units);
      units := vs;
    }

    /**
     * `for (let changed = true; changed; )`: passes until one replaces
     * nothing. The second pass always finds nothing left, so the files end as
     * the first pass leaves them: every body settled, and only bodies and
     * imports changed.
     */
    method Link()
      modifies this`units
      ensures units == LinkPass(checker, Tables(old(units)), old(units)).0
      ensures forall k :: 0 <= k < |units| ==> LinkedUnit(checker, Tables(old(units)), old(units)[k], units[k])
    {
      ghost var u0 := units;
      ghost var ts := Tables(units);
      LinkTwice(checker, u0);
      PassSpec(checker, ts, u0);
      var changed := true;
      ghost var passes := 0;
      while changed
        invariant 0 <= passes <= 2
        invariant passes == 0 ==> changed && units == u0
        invariant passes > 0 ==> units == LinkPass(checker, ts, u0).0
        invariant passes == 2 ==> !changed
        decreases 2 - passes
      {
        changed := LinkOnce();
        passes := passes + 1;
      }
    }

    /** `parse()` from the relocation on. */
    method Parse(arts: seq<TypeDef>) returns (r: Result<()>)
      modifies this`units
      ensures match Parsed(checker, old(units), arts)
        case Ok(vs) => r == Ok(()) && units == vs
        case Err(m) => r == Err(m)
    {
      r := Relocate(arts);
      if r.Err? {
        return;
      }
      r := Normalise();
      if r.Err? {
        return;
      }
      Link();
    }
  }
}
