/**
 * One output file of lib/compiler/output.ts: the `defined` and `symbolMap`
 * tables, `getDefinition`/`setDefinition`, and `createType`, which lowers a
 * declared type to a message, enum or service definition placed in its
 * scope.
 *
 * The file's tree is a value: definitions nest as `DefStmt`s, and a scope
 * is found again by the identity of its definition. `createType` builds a
 * definition completely and then places it; the source places it first and
 * fills its body afterwards through the shared object, which ends in the
 * same tree.
 */
module Output {
  import opened Wrappers
  import opened Strings
  import opened Base
  import opened Types
  import opened Udts
  import opened Ts
  import opened Utils
  import opened Resolver
  import opened Sorting

  // ------------------------------------------------------------ tables

  /** An argument of `getDefinition`: nothing (`undefined`), a qualified name, or a symbol. */
  datatype Query = NoKey | NameKey(name: string) | SymbolKey(sym: Symbol)

  /** What `createType` changes in a file: the tree of its body with the root's name table, and the two tables. */
  datatype FileSt = FileSt(body: seq<Stmt>, names: set<string>, defined: map<string, DefRef>, symbols: map<Symbol, DefRef>)

  /**
   * `mapType` as `createType` and the member loops call it: a type mapped at
   * an optional node, from a resolver state to the mapped type and the state
   * it leaves.
   */
  type Mapper = (Option<NodeId>, St, TypeId) -> (Mapped, St)

  /** What `createType` reads of a file and does not change. */
  datatype FileConf = FileConf(package: Option<string>, source: FileId, rootId: nat, optionals315: bool)

  /**
   * What one argument finds: a name needs a non-empty package, and must be
   * the package, a dot, and a key of `defined`; a symbol is looked up in
   * `symbolMap`.
   */
  function Hit(pkg: Option<string>, defined: map<string, DefRef>, symbols: map<Symbol, DefRef>, k: Query): Option<DefRef>
  {
    match k
    case NoKey => None
    case NameKey(s) =>
      if pkg.Some? && pkg.value != "" && StartsWith(s, pkg.value) && |s| > |pkg.value| && s[|pkg.value|] == '.' then
        var rest := s[|pkg.value| + 1..];
        if rest in defined then Some(defined[rest]) else None
      else None
    case SymbolKey(sym) => if sym in symbols then Some(symbols[sym]) else None
  }

  /** `getDefinition(...keys)`: what the first argument that finds anything finds. */
  function Lookup(pkg: Option<string>, defined: map<string, DefRef>, symbols: map<Symbol, DefRef>, keys: seq<Query>): Option<DefRef>
  {
    if |keys| == 0 then None
    else match Hit(pkg, defined, symbols, keys[0])
      case Some(d) => Some(d)
      case None => Lookup(pkg, defined, symbols, keys[1..])
  }

  lemma LookupStep(pkg: Option<string>, defined: map<string, DefRef>, symbols: map<Symbol, DefRef>, keys: seq<Query>, i: nat)
    requires i < |keys|
    ensures Lookup(pkg, defined, symbols, keys[i..]) ==
      if Hit(pkg, defined, symbols, keys[i]).Some? then Hit(pkg, defined, symbols, keys[i])
      else Lookup(pkg, defined, symbols, keys[i + 1..])
  {
    assert keys[i..][1..] == keys[i + 1..];
  }

  /** The first argument that finds a definition decides; with none, nothing is found. */
  lemma {:induction false} LookupFirst(pkg: Option<string>, defined: map<string, DefRef>, symbols: map<Symbol, DefRef>, keys: seq<Query>)
    ensures var r := Lookup(pkg, defined, symbols, keys);
      (r.None? <==> forall i :: 0 <= i < |keys| ==> Hit(pkg, defined, symbols, keys[i]).None?)
      && (r.Some? ==> exists i :: (0 <= i < |keys| && r == Hit(pkg, defined, symbols, keys[i])
            && forall j :: 0 <= j < i ==> Hit(pkg, defined, symbols, keys[j]).None?))
  {
    if |keys| > 0 {
      var rest := keys[1..];
      LookupFirst(pkg, defined, symbols, rest);
      var r := Lookup(pkg, defined, symbols, keys);
      if Hit(pkg, defined, symbols, keys[0]).None? {
        forall i | 0 <= i < |rest| ensures rest[i] == keys[i + 1] { }
        if r.Some? {
          var i :| 0 <= i < |rest| && r == Hit(pkg, defined, symbols, rest[i])
            && forall j :: 0 <= j < i ==> Hit(pkg, defined, symbols, rest[j]).None?;
          assert r == Hit(pkg, defined, symbols, keys[i + 1]);
          forall j | 0 <= j < i + 1 ensures Hit(pkg, defined, symbols, keys[j]).None? {
            if j > 0 { assert keys[j] == rest[j - 1]; }
          }
        } else {
          forall i | 0 <= i < |keys| ensures Hit(pkg, defined, symbols, keys[i]).None? {
            if i > 0 { assert keys[i] == rest[i - 1]; }
          }
        }
      } else {
        assert r == Hit(pkg, defined, symbols, keys[0]);
      }
    }
  }

  /** With a package `p`, the name `p.k` finds exactly what `defined` holds under `k`. */
  lemma NameRoundTrip(p: string, defined: map<string, DefRef>, symbols: map<Symbol, DefRef>, k: string)
    requires p != ""
    ensures Hit(Some(p), defined, symbols, NameKey(p + "." + k)) == if k in defined then Some(defined[k]) else None
  {
    var s := p + "." + k;
    assert s[..|p|] == p && s[|p|] == '.' && s[|p| + 1..] == k;
  }

  /** A name finds something only with a non-empty package, as that package, a dot and a key of `defined`. */
  lemma NameNeedsPackage(pkg: Option<string>, defined: map<string, DefRef>, symbols: map<Symbol, DefRef>, s: string)
    ensures Hit(pkg, defined, symbols, NameKey(s)).Some? ==>
      pkg.Some? && pkg.value != "" && exists k :: k in defined && s == pkg.value + "." + k
  {
    if Hit(pkg, defined, symbols, NameKey(s)).Some? {
      var p := pkg.value;
      var k := s[|p| + 1..];
      assert s == s[..|p|] + [s[|p|]] + k;
      assert s == p + "." + k;
    }
  }

  /**
   * `setDefinition(sym, id, def)`: the qualified name, when non-empty, and
   * the symbol, when present, come to name `def`; naming a different
   * definition already is an error, as is a name that cannot be formed.
   */
  function Define(fs: FileSt, sym: Option<Symbol>, id: Option<string>, def: DefRef): (r: Result<FileSt>)
  {
    match QualifiedName(sym, id)
    case Err(m) => Err(m)
    case Ok(name) =>
      if name != "" && name in fs.defined && fs.defined[name] != def then Err("Symbol " + name + " already defined")
      else
        var defined := if name != "" && name !in fs.defined then fs.defined[name := def] else fs.defined;
        if sym.Some? && sym.value in fs.symbols && fs.symbols[sym.value] != def then
          Err("Symbol " + Qualified(sym.value) + " already defined")
        else
          var symbols := if sym.Some? && sym.value !in fs.symbols then fs.symbols[sym.value := def] else fs.symbols;
          Ok(fs.(defined := defined, symbols := symbols))
  }

  /** Defining succeeds exactly when the name can be formed and neither the name nor the symbol names another definition. */
  lemma DefineCases(fs: FileSt, sym: Option<Symbol>, id: Option<string>, def: DefRef)
    ensures var r := Define(fs, sym, id, def); var q := QualifiedName(sym, id);
      (r.Ok? <==> (q.Ok?
        && (q.value != "" && q.value in fs.defined ==> fs.defined[q.value] == def)
        && (sym.Some? && sym.value in fs.symbols ==> fs.symbols[sym.value] == def)))
      && (r.Ok? ==> (r.value.body == fs.body && r.value.names == fs.names
        && r.value.defined == (if q.value != "" then fs.defined[q.value := def] else fs.defined)
        && r.value.symbols == (if sym.Some? then fs.symbols[sym.value := def] else fs.symbols)))
  {
  }

  /** Defining the same definition again changes nothing. */
  lemma DefineIdempotent(fs: FileSt, sym: Option<Symbol>, id: Option<string>, def: DefRef)
    requires Define(fs, sym, id, def).Ok?
    ensures Define(Define(fs, sym, id, def).value, sym, id, def) == Define(fs, sym, id, def)
  {
    DefineCases(fs, sym, id, def);
    DefineCases(Define(fs, sym, id, def).value, sym, id, def);
  }

  /** After a definition, looking up its symbol finds it. */
  lemma DefineThenLookup(pkg: Option<string>, fs: FileSt, sym: Symbol, id: Option<string>, def: DefRef)
    requires Define(fs, Some(sym), id, def).Ok?
    ensures var fs' := Define(fs, Some(sym), id, def).value;
      Lookup(pkg, fs'.defined, fs'.symbols, [SymbolKey(sym)]) == Some(def)
  {
    DefineCases(fs, Some(sym), id, def);
  }

  // ----------------------------------------------------------- @option

  /**
   * Whether `parseFloat` reads a number where `parseInt` reads none: after
   * leading white space and a sign, `Infinity`, a dot and a digit, or a
   * `0x` prefix without hexadecimal digits (read as `0`).
   */
  predicate FloatOnly(v: string)
  {
    var t := TrimStart(v);
    var u := if |t| > 0 && (t[0] == '-' || t[0] == '+') then t[1..] else t;
    StartsWith(u, "Infinity") || (|u| >= 2 && u[0] == '.' && IsDigit(u[1], 10)) || HexPrefix(u)
  }

  predicate HexPrefix(u: string)
  {
    |u| >= 2 && u[0] == '0' && (u[1] == 'x' || u[1] == 'X')
  }

  /**
   * The literal a trimmed `@option` value gives: `true` and `false` are
   * booleans, a value `parseInt` reads is that integer, a value in double
   * quotes is the text between them, and anything else is the text itself.
   * `None` for a value only `parseFloat` reads as a fraction or an infinity.
   */
  function OptionValue(v: string): Option<Lit>
  {
    if v == "true" then Some(BoolLit(true))
    else if v == "false" then Some(BoolLit(false))
    else match ParseInt(v)
      case Some(n) => Some(NumLit(n))
      case None =>
        if FloatOnly(v) then
          var t := TrimStart(v);
          var u := if |t| > 0 && (t[0] == '-' || t[0] == '+') then t[1..] else t;
          if HexPrefix(u) then Some(NumLit(0)) else None
        else if |v| >= 1 && v[0] == '"' && v[|v| - 1] == '"' then Some(StrLit(if |v| >= 2 then v[1..|v| - 1] else ""))
        else Some(StrLit(v))
  }

  /**
   * One `@option` tag: the text before the first `=` is the key and the text
   * up to the next `=` the value; a tag without text, key or value gives
   * nothing; both are trimmed once found non-empty.
   */
  function ParseOption(text: Option<string>): Option<OptionPair>
  {
    if text.None? || text.value == "" then None
    else
      var parts := Split(text.value, '=');
      if parts[0] == "" || |parts| < 2 || parts[1] == "" then None
      else
        match OptionValue(Trim(parts[1]))
        case None => None
        case Some(v) => Some((Trim(parts[0]), v))
  }

  /** The options the `@option` tags of a symbol give, tag by tag; a later tag overrides an earlier one of the same key. */
  function OptionsOf(tags: seq<Option<string>>): (r: OptionMap)
  {
    if |tags| == 0 then NoOptions
    else
      var o := OptionsOf(tags[..|tags| - 1]);
      match ParseOption(tags[|tags| - 1])
      case None => o
      case Some((k, v)) => SetOption(o, k, v)
  }

  lemma TrimPlain(s: string)
    requires |s| > 0 && !IsSpace(s[0]) && !IsSpace(s[|s| - 1])
    ensures Trim(s) == s
  {
  }

  /** The two pieces of `k` and `v` joined by `c` when neither contains `c`. */
  lemma SplitPair(k: string, c: char, v: string)
    requires c !in k && c !in v
    ensures Split(k + [c] + v, c) == [k, v]
  {
    var parts := [k, v];
    forall i | 0 <= i < |parts| ensures c !in parts[i] { }
    SplitJoin(parts, c);
    JoinCons(parts, [c]);
    assert parts[1..] == [v];
    assert Join(parts, [c]) == k + [c] + v;
  }

  /** A tag `k=v` whose key and value hold no `=`: the trimmed key, and the literal of the trimmed value. */
  lemma OptionOfPair(k: string, v: string)
    requires k != "" && v != "" && '=' !in k && '=' !in v
    ensures ParseOption(Some(k + "=" + v)) == match OptionValue(Trim(v)) case None => None case Some(x) => Some((Trim(k), x))
  {
    SplitPair(k, '=', v);
  }

  /** A value in double quotes is the text between them. */
  lemma QuotedValue(s: string)
    ensures OptionValue("\"" + s + "\"") == Some(StrLit(s))
  {
    var v := "\"" + s + "\"";
    NoLeadingSpace(v);
    assert v[0] == '"' && !IsDigit(v[0], 10);
    assert DigitRun(v, 10) == 0;
    assert ParseInt(v) == None;
    assert !StartsWith(v, "Infinity");
    assert !FloatOnly(v);
    assert v[|v| - 1] == '"' && v[1..|v| - 1] == s;
  }

  /** A quoted value comes back as the text between the quotes. */
  lemma QuotedOption(k: string, s: string)
    requires k != "" && Trim(k) == k && '=' !in k && '=' !in s
    ensures ParseOption(Some(k + "=" + ("\"" + s + "\""))) == Some((k, StrLit(s)))
  {
    var v := "\"" + s + "\"";
    TrimPlain(v);
    QuotedValue(s);
    assert '=' !in v && v != "";
    assert OptionValue(Trim(v)) == Some(StrLit(s));
    OptionOfPair(k, v);
  }

  lemma DigitIsDecimal(ch: char)
    requires IsDigit(ch, 10)
    ensures '0' <= ch <= '9'
  {
  }

  /** The digits of a number hold neither `=` nor `$` and are not white space. */
  lemma DecimalText(d: string)
    requires forall i :: 0 <= i < |d| ==> IsDigit(d[i], 10)
    ensures '=' !in d && '$' !in d && forall i :: 0 <= i < |d| ==> '0' <= d[i] <= '9' && !IsSpace(d[i])
  {
    forall i | 0 <= i < |d| ensures '0' <= d[i] <= '9' {
      DigitIsDecimal(d[i]);
    }
  }

  /** The text of an integer: a sign or digit first, a digit last, neither `=` nor `$` inside. */
  lemma IntText(n: int)
    ensures var v := IntToString(n);
      |v| > 0 && '=' !in v && '$' !in v && !IsSpace(v[0]) && !IsSpace(v[|v| - 1]) && (v[0] == '-' || '0' <= v[0] <= '9')
  {
    var d := NatToString(if n < 0 then -n else n, 10);
    DecimalText(d);
    if n < 0 {
      var v := "-" + d;
      assert IntToString(n) == v;
      assert v[|v| - 1] == d[|d| - 1];
    }
  }

  /** An integer value comes back as that number. */
  lemma IntOption(k: string, n: int)
    requires k != "" && Trim(k) == k && '=' !in k
    ensures ParseOption(Some(k + "=" + IntToString(n))) == Some((k, NumLit(n)))
  {
    var v := IntToString(n);
    IntText(n);
    OptionOfPair(k, v);
    TrimPlain(v);
    ParseIntOfString(n);
    assert v != "true" && v != "false";
  }

  /** A tag with no `=`, or with nothing before it, is ignored. */
  lemma OptionNeedsKey(text: string)
    requires '=' !in text || (|text| > 0 && text[0] == '=')
    ensures ParseOption(Some(text)) == None
  {
    if '=' !in text {
      SplitWithout(text, '=');
    } else {
      IndexOfAt(text, '=', 0);
      SplitCons(text, '=', 0);
    }
  }

  /** `true` and `false` become booleans. */
  lemma BoolOption(k: string, b: bool)
    requires k != "" && Trim(k) == k && '=' !in k
    ensures ParseOption(Some(k + "=" + (if b then "true" else "false"))) == Some((k, BoolLit(b)))
  {
    var v := if b then "true" else "false";
    TrimPlain(v);
    assert '=' !in v && v != "";
    assert OptionValue(Trim(v)) == Some(BoolLit(b));
    OptionOfPair(k, v);
  }

  // ------------------------------------------------------------ enums

  /** The value of one enum member type: its symbol's name and the literal it stands for, a number or a string. */
  function EnumMember(c: Checker, m: TypeId): Result<(string, EnumNumber)>
  {
    var info := TypeOf(c, m);
    if info.symbol.None? then Err(NoName)
    else match info.literal
      case NumberLiteral(n) => Ok((info.symbol.value.name, IntNumber(n)))
      case StringLiteral(s) => Ok((info.symbol.value.name, TextNumber(s)))
      case _ => Err("Enum member is neither a number nor a string")
  }

  /** The values of the members of a union enum, in order; the first that cannot be read is the error. */
  function EnumMembers(c: Checker, ms: seq<TypeId>): (r: Result<seq<(string, EnumNumber)>>)
    ensures r.Ok? ==> |r.value| == |ms| && forall i :: 0 <= i < |ms| ==> EnumMember(c, ms[i]) == Ok(r.value[i])
  {
    if |ms| == 0 then Ok([])
    else match EnumMembers(c, ms[..|ms| - 1])
      case Err(e) => Err(e)
      case Ok(p) =>
        match EnumMember(c, ms[|ms| - 1])
        case Err(e) => Err(e)
        case Ok(v) => Ok(p + [v])
  }

  /** The values of an enum type: a union enum's members, or the single literal it stands for. */
  function EnumValues(c: Checker, t: TypeId): Result<seq<(string, EnumNumber)>>
  {
    match TypeOf(c, t).union
    case Some(ms) => EnumMembers(c, ms)
    case None =>
      match EnumMember(c, t)
      case Err(e) => Err(e)
      case Ok(v) => Ok([v])
  }

  /** Every value is a number. */
  predicate Numeric(fields: seq<(string, EnumNumber)>)
  {
    forall i :: 0 <= i < |fields| ==> fields[i].1.IntNumber?
  }

  /**
   * A text `Number` reads as NaN: after the white space, and an optional
   * sign, it starts with none of the characters a numeric literal can start
   * with (a digit, `.`, or the `I` of `Infinity`).
   */
  predicate NotNumeric(s: string)
  {
    var t := Trim(s);
    var u := if |t| > 0 && (t[0] == '+' || t[0] == '-') then t[1..] else t;
    |t| > 0 && |u| > 0 && !('0' <= u[0] <= '9') && u[0] != '.' && u[0] != 'I'
  }

  /** Every value is a string that does not read as a number. */
  predicate Textual(fields: seq<(string, EnumNumber)>)
  {
    forall i :: 0 <= i < |fields| ==> fields[i].1.TextNumber? && NotNumeric(fields[i].1.s)
  }

  /**
   * The enums whose order this model states. For numbers the comparator
   * `a.number - b.number` orders by value. A difference involving a string
   * that reads as NaN is NaN, which the sort takes as equal, so such strings
   * keep their declaration order. A string that reads as a number, or a mix
   * of numbers and strings, makes the order depend on string-to-number
   * conversion, or on the engine when the comparator is inconsistent.
   */
  predicate OrderStated(fields: seq<(string, EnumNumber)>)
  {
    Numeric(fields) || Textual(fields)
  }

  /** The comparator as a key: a number's value; every string compares equal to everything. */
  function EnumKey(f: (string, EnumNumber)): Key
  {
    (if f.1.IntNumber? then f.1.n else 0, 0)
  }

  /** The refusal of an enum whose order this model does not state. */
  const UnstatedOrder := "Enum order depends on converting strings to numbers"

  /** The value a number carries, 0 for a string. */
  function ValueOf(f: (string, EnumNumber)): int
  {
    EnumKey(f).0
  }

  const Unspecified: (string, EnumNumber) := ("UNSPECIFIED", IntNumber(0))

  /** The values sorted by number, with `UNSPECIFIED = 0` in front when there are none or the first is not the number 0. */
  function Normalise(fields: seq<(string, EnumNumber)>): (r: seq<(string, EnumNumber)>)
    ensures |r| > 0 && r[0].1 == IntNumber(0)
  {
    var s := SortBy(fields, EnumKey);
    if |s| == 0 || s[0].1 != IntNumber(0) then [Unspecified] + s else s
  }

  /** The sorted values: in order, a permutation, each number's values in declaration order. */
  lemma SortedValues(fields: seq<(string, EnumNumber)>)
    ensures var s := SortBy(fields, EnumKey);
      (forall i, j :: 0 <= i < j < |s| ==> ValueOf(s[i]) <= ValueOf(s[j]))
      && multiset(s) == multiset(fields)
      && forall n: int :: Only(s, EnumKey, (n, 0)) == Only(fields, EnumKey, (n, 0))
  {
    SortSpec(fields, EnumKey);
    var s := SortBy(fields, EnumKey);
    forall i, j | 0 <= i < j < |s| ensures ValueOf(s[i]) <= ValueOf(s[j]) {
      assert Le(EnumKey(s[i]), EnumKey(s[j]));
    }
  }

  /** The first sorted value is the smallest. */
  lemma SmallestFirst(fields: seq<(string, EnumNumber)>)
    requires |fields| > 0
    ensures var s := SortBy(fields, EnumKey);
      s[0] in fields && forall i :: 0 <= i < |fields| ==> ValueOf(s[0]) <= ValueOf(fields[i])
  {
    SortedValues(fields);
    var s := SortBy(fields, EnumKey);
    assert s[0] in multiset(s);
    forall i | 0 <= i < |fields| ensures ValueOf(s[0]) <= ValueOf(fields[i]) {
      assert fields[i] in multiset(fields);
      var j :| 0 <= j < |s| && s[j] == fields[i];
    }
  }

  /** Sorting numbers gives numbers. */
  lemma NumericSorted(fields: seq<(string, EnumNumber)>)
    requires Numeric(fields)
    ensures Numeric(SortBy(fields, EnumKey))
  {
    SortedValues(fields);
    var s := SortBy(fields, EnumKey);
    forall i | 0 <= i < |s| ensures s[i].1.IntNumber? {
      assert s[i] in multiset(s);
      assert s[i] in multiset(fields);
    }
  }

  /**
   * For numbers, `UNSPECIFIED = 0` is added exactly when no value is 0 or
   * some value is negative; nothing else is added or lost.
   */
  lemma NormaliseAdds(fields: seq<(string, EnumNumber)>)
    requires Numeric(fields)
    ensures var r := Normalise(fields);
      var added := (forall i :: 0 <= i < |fields| ==> fields[i].1.n != 0) || (exists i :: 0 <= i < |fields| && fields[i].1.n < 0);
      multiset(r) == multiset(fields) + (if added then multiset{Unspecified} else multiset{})
  {
    SortedValues(fields);
    NumericSorted(fields);
    var s := SortBy(fields, EnumKey);
    var added := (forall i :: 0 <= i < |fields| ==> fields[i].1.n != 0) || (exists i :: 0 <= i < |fields| && fields[i].1.n < 0);
    if |fields| > 0 {
      SmallestFirst(fields);
      if s[0].1 == IntNumber(0) {
        assert !added by {
          var i :| 0 <= i < |fields| && fields[i] == s[0];
          forall j | 0 <= j < |fields| ensures fields[j].1.n >= 0 {
            assert ValueOf(s[0]) <= ValueOf(fields[j]);
          }
        }
      } else {
        assert added by {
          if s[0].1.n > 0 {
            forall i | 0 <= i < |fields| ensures fields[i].1.n != 0 {
              assert ValueOf(s[0]) <= ValueOf(fields[i]);
            }
          } else {
            var i :| 0 <= i < |fields| && fields[i] == s[0];
          }
        }
      }
    }
  }

  /** Without negative values, the normalised numbers are in ascending order. */
  lemma NormaliseSorted(fields: seq<(string, EnumNumber)>)
    requires forall i :: 0 <= i < |fields| ==> fields[i].1.IntNumber? && fields[i].1.n >= 0
    ensures var r := Normalise(fields); Numeric(r) && forall i, j :: 0 <= i < j < |r| ==> r[i].1.n <= r[j].1.n
  {
    SortedValues(fields);
    NumericSorted(fields);
    var s := SortBy(fields, EnumKey);
    NonNegativeSorted(fields);
    if |s| == 0 || s[0].1 != IntNumber(0) {
      ZeroInFront(s);
    }
  }

  /** Sorting keeps every value non-negative. */
  lemma NonNegativeSorted(fields: seq<(string, EnumNumber)>)
    requires forall i :: 0 <= i < |fields| ==> fields[i].1.IntNumber? && fields[i].1.n >= 0
    ensures var s := SortBy(fields, EnumKey); forall i :: 0 <= i < |s| ==> s[i].1.IntNumber? && s[i].1.n >= 0
  {
    SortedValues(fields);
    var s := SortBy(fields, EnumKey);
    forall i | 0 <= i < |s| ensures s[i].1.IntNumber? && s[i].1.n >= 0 {
      assert s[i] in multiset(s);
      assert s[i] in multiset(fields);
    }
  }

  /** A 0 in front of ordered non-negative numbers keeps them ordered. */
  lemma ZeroInFront(s: seq<(string, EnumNumber)>)
    requires forall i :: 0 <= i < |s| ==> s[i].1.IntNumber? && s[i].1.n >= 0
    requires forall i, j :: 0 <= i < j < |s| ==> ValueOf(s[i]) <= ValueOf(s[j])
    ensures var r := [Unspecified] + s; Numeric(r) && forall i, j :: 0 <= i < j < |r| ==> r[i].1.n <= r[j].1.n
  {
    var r := [Unspecified] + s;
    forall i, j | 0 <= i < j < |r| ensures r[i].1.n <= r[j].1.n {
      assert r[j] == s[j - 1];
      if i > 0 { assert r[i] == s[i - 1]; }
    }
  }

  /** A negative value stays behind the added `UNSPECIFIED = 0`: the first value is 0, but the values are not in order. */
  lemma NormaliseNegative()
    ensures Normalise([("A", IntNumber(-1))]) == [Unspecified, ("A", IntNumber(-1))]
  {
    assert SortBy([("A", IntNumber(-1))], EnumKey) == [("A", IntNumber(-1))];
  }

  /**
   * A string enum keeps its declaration order, and `UNSPECIFIED = 0` goes in
   * front, since no string is the number 0.
   */
  lemma NormaliseTexts(fields: seq<(string, EnumNumber)>)
    requires Textual(fields)
    ensures Normalise(fields) == [Unspecified] + fields
  {
    assert SortedBy(fields, EnumKey) by {
      forall i, j | 0 <= i < j < |fields| ensures Le(EnumKey(fields[i]), EnumKey(fields[j])) {
        assert fields[i].1.TextNumber? && fields[j].1.TextNumber?;
      }
    }
    SortSorted(fields, EnumKey);
    if |fields| > 0 {
      assert fields[0].1.TextNumber?;
    }
  }

  /** `enum E { A = "a", B = "b" }`: `UNSPECIFIED = 0`, then `A` and `B` in order. */
  lemma StringEnum()
    ensures Normalise([("A", TextNumber("a")), ("B", TextNumber("b"))]) == [Unspecified, ("A", TextNumber("a")), ("B", TextNumber("b"))]
  {
    var fields := [("A", TextNumber("a")), ("B", TextNumber("b"))];
    LetterNotNumeric("a");
    LetterNotNumeric("b");
    assert Textual(fields);
    NormaliseTexts(fields);
  }

  /** A one-letter lower-case string does not read as a number. */
  lemma LetterNotNumeric(s: string)
    requires |s| == 1 && 'a' <= s[0] <= 'z'
    ensures NotNumeric(s)
  {
    NoLeadingSpace(s);
    assert !IsSpace(s[0]);
  }

  /** The body of an enum: one value statement per value, without options. */
  function EnumBody(values: seq<(string, EnumNumber)>): (r: seq<Stmt>)
    ensures |r| == |values| && forall i :: 0 <= i < |r| ==> r[i] == EnumValueStmt(values[i].0, values[i].1, NoOptions)
  {
    seq(|values|, i requires 0 <= i < |values| => EnumValueStmt(values[i].0, values[i].1, NoOptions))
  }

  // ---------------------------------------------------------- members

  /**
   * A message member `name` at number `idx` with mapped type `m`: without
   * `optionals315`, an optional `T` becomes `name_opt`, a oneof holding
   * `name: T`, at the same number; the mapped options go on the outer field.
   */
  function MemberField(name: string, idx: Option<int>, m: Mapped, optionals315: bool): Field
  {
    var res := NewField(name, m.ty, idx);
    var res := if !optionals315 && m.ty.OptionalType? then
        NewField(name + "_opt", OneofType([res.(ty := m.ty.elem)], NoOptions), idx)
      else res;
    WithAttrs(res, m.attrs)
  }

  /** The optional rewrite, and the number `name$idx` gives. */
  lemma MemberFieldShape(name: string, idx: Option<int>, m: Mapped, optionals315: bool)
    ensures var f := MemberField(name, idx, m, optionals315); var number := if idx.Some? then idx.value else 0;
      f.number == number
      && (f.options == if m.attrs.Some? then AssignAll(NoOptions, Entries(m.attrs.value)) else NoOptions)
      && (!optionals315 && m.ty.OptionalType? ==>
            f.name == name + "_opt" && f.ty == OneofType([Field(name, m.ty.elem, number, NoOptions)], NoOptions))
      && (optionals315 || !m.ty.OptionalType? ==> f.name == name && f.ty == m.ty)
  {
  }

  /** A member named `n$k`, for a number `k`, becomes field `n` at number `k`. */
  lemma IndexedName(n: string, k: int)
    requires '$' !in n
    ensures SplitIndex(n + "$" + IntToString(k)) == (n, Some(k))
  {
    var v := IntToString(k);
    IntText(k);
    SplitPair(n, '$', v);
    assert (n + "$" + v)[|n|] == '$';
    ParseIntOfString(k);
  }

  /** A body under construction: its statements and the names its scope has registered. */
  datatype Body = Body(stmts: seq<Stmt>, names: set<string>)

  /** The field one message member becomes: its name split at `$`, its type mapped. */
  function MemberFieldAt(c: Checker, mt: Mapper, cur: Option<NodeId>, st: St, m: Symbol, optionals315: bool): (f: Field)
    ensures f.number == IndexNumber(m.name)
  {
    var (name, idx) := SplitIndex(m.name);
    MemberField(name, idx, mt(cur, st, SymType(c, m)).0, optionals315)
  }

  /** One message member: the field made and pushed; the state is what mapping its type leaves. */
  function MemberStep(c: Checker, mt: Mapper, cur: Option<NodeId>, st: St, acc: Body, m: Symbol, optionals315: bool): (r: Out<Body>)
    ensures var p := Push(acc.stmts, acc.names, FieldStmt(MemberFieldAt(c, mt, cur, st, m, optionals315)));
      (r.r.Ok? <==> p.Ok?) && (p.Ok? ==> r.r.value == Body(p.value.0, p.value.1))
  {
    var st1 := mt(cur, st, SymType(c, m)).1;
    match Push(acc.stmts, acc.names, FieldStmt(MemberFieldAt(c, mt, cur, st, m, optionals315)))
    case Err(e) => Out(Err(e), st1)
    case Ok((b, n)) => Out(Ok(Body(b, n)), st1)
  }

  /** The member loop of a message, in property order, stopping at the first push that throws. */
  function MembersF(c: Checker, mt: Mapper, cur: Option<NodeId>, st: St, ms: seq<Symbol>, optionals315: bool): (r: Out<Body>)
  {
    if |ms| == 0 then Out(Ok(Body([], {})), st)
    else
      var o := MembersF(c, mt, cur, st, ms[..|ms| - 1], optionals315);
      match o.r
      case Err(e) => Out(Err(e), o.st)
      case Ok(acc) =>
        MemberStep(c, mt, cur, o.st, acc, ms[|ms| - 1], optionals315)
  }

  /** Whether a member's type can be called. */
  predicate Callable(c: Checker, m: Symbol)
  {
    |TypeOf(c, SymType(c, m)).callSignatures| > 0
  }

  /** A class or interface is a service when some member can be called. */
  predicate IsService(c: Checker, ms: seq<Symbol>)
  {
    exists i :: 0 <= i < |ms| && Callable(c, ms[i])
  }

  /** The rpc a callable member becomes: its mapped type as a field of its own name, numbered 0. */
  function RpcFieldAt(c: Checker, mt: Mapper, cur: Option<NodeId>, st: St, m: Symbol): (f: Field)
    ensures f.name == m.name && f.number == 0
  {
    var mapped := mt(cur, st, SymType(c, m)).0;
    WithAttrs(NewField(m.name, mapped.ty, Some(0)), mapped.attrs)
  }

  /** One service member: skipped unless callable, otherwise its rpc pushed. */
  function RpcStep(c: Checker, mt: Mapper, cur: Option<NodeId>, st: St, acc: Body, m: Symbol): (r: Out<Body>)
    ensures !Callable(c, m) ==> r.r == Ok(acc)
    ensures var p := Push(acc.stmts, acc.names, FieldStmt(RpcFieldAt(c, mt, cur, st, m)));
      Callable(c, m) ==> (r.r.Ok? <==> p.Ok?) && (p.Ok? ==> r.r.value == Body(p.value.0, p.value.1))
  {
    if !Callable(c, m) then Out(Ok(acc), st)
    else
      var st1 := mt(cur, st, SymType(c, m)).1;
      match Push(acc.stmts, acc.names, FieldStmt(RpcFieldAt(c, mt, cur, st, m)))
      case Err(e) => Out(Err(e), st1)
      case Ok((b, n)) => Out(Ok(Body(b, n)), st1)
  }

  /** The member loop of a service. */
  function RpcsF(c: Checker, mt: Mapper, cur: Option<NodeId>, st: St, ms: seq<Symbol>): (r: Out<Body>)
  {
    if |ms| == 0 then Out(Ok(Body([], {})), st)
    else
      var o := RpcsF(c, mt, cur, st, ms[..|ms| - 1]);
      match o.r
      case Err(e) => Out(Err(e), o.st)
      case Ok(acc) =>
        RpcStep(c, mt, cur, o.st, acc, ms[|ms| - 1])
  }

  /** The names of the callable members, in order. */
  function CallableNames(c: Checker, ms: seq<Symbol>): seq<string>
  {
    if |ms| == 0 then [] else CallableNames(c, ms[..|ms| - 1]) + if Callable(c, ms[|ms| - 1]) then [ms[|ms| - 1].name] else []
  }

  /** Every statement is a field numbered 0. */
  ghost predicate RpcFields(stmts: seq<Stmt>)
  {
    forall i :: 0 <= i < |stmts| ==> stmts[i].FieldStmt? && stmts[i].field.number == 0
  }

  /** A service body as its members `ms` give it: rpcs numbered 0, one per callable member by its name, the scope's table exact. */
  ghost predicate RpcShaped(c: Checker, ms: seq<Symbol>, b: Body)
  {
    RpcFields(b.stmts) && BodyNames(b.stmts) == CallableNames(c, ms) && Udts.Registered(b.stmts, b.names)
  }

  lemma MembersUnfold(c: Checker, mt: Mapper, cur: Option<NodeId>, st: St, ms: seq<Symbol>, optionals315: bool)
    requires |ms| > 0
    ensures var o := MembersF(c, mt, cur, st, ms[..|ms| - 1], optionals315);
      MembersF(c, mt, cur, st, ms, optionals315).r ==
        if o.r.Err? then Err(o.r.msg) else MemberStep(c, mt, cur, o.st, o.r.value, ms[|ms| - 1], optionals315).r
  {
  }

  lemma RpcsUnfold(c: Checker, mt: Mapper, cur: Option<NodeId>, st: St, ms: seq<Symbol>)
    requires |ms| > 0
    ensures var o := RpcsF(c, mt, cur, st, ms[..|ms| - 1]);
      RpcsF(c, mt, cur, st, ms).r ==
        if o.r.Err? then Err(o.r.msg) else RpcStep(c, mt, cur, o.st, o.r.value, ms[|ms| - 1]).r
  {
  }

  /** One pushed member keeps the scope's table exact and appends its field. */
  lemma MemberStepShape(c: Checker, mt: Mapper, cur: Option<NodeId>, st: St, acc: Body, m: Symbol, optionals315: bool)
    requires Udts.Registered(acc.stmts, acc.names)
    ensures var o := MemberStep(c, mt, cur, st, acc, m, optionals315);
      o.r.Ok? ==> (Udts.Registered(o.r.value.stmts, o.r.value.names)
        && o.r.value.stmts == acc.stmts + [FieldStmt(MemberFieldAt(c, mt, cur, st, m, optionals315))])
  {
    PushRegistered(acc.stmts, acc.names, FieldStmt(MemberFieldAt(c, mt, cur, st, m, optionals315)));
  }

  /** One service member keeps the scope's table exact and appends its rpc when callable. */
  lemma RpcStepShape(c: Checker, mt: Mapper, cur: Option<NodeId>, st: St, acc: Body, m: Symbol)
    requires Udts.Registered(acc.stmts, acc.names)
    ensures var o := RpcStep(c, mt, cur, st, acc, m);
      o.r.Ok? ==> (Udts.Registered(o.r.value.stmts, o.r.value.names)
        && o.r.value.stmts == acc.stmts + if Callable(c, m) then [FieldStmt(RpcFieldAt(c, mt, cur, st, m))] else [])
  {
    PushRegistered(acc.stmts, acc.names, FieldStmt(RpcFieldAt(c, mt, cur, st, m)));
  }

  lemma CallableNamesSnoc(c: Checker, ms: seq<Symbol>)
    requires |ms| > 0
    ensures CallableNames(c, ms) == CallableNames(c, ms[..|ms| - 1]) + if Callable(c, ms[|ms| - 1]) then [ms[|ms| - 1].name] else []
  {
  }

  lemma RpcNames(stmts: seq<Stmt>, callable: bool, f: Field)
    requires RpcFields(stmts) && f.number == 0
    ensures RpcFields(stmts + if callable then [FieldStmt(f)] else [])
    ensures BodyNames(stmts + if callable then [FieldStmt(f)] else []) == BodyNames(stmts) + if callable then [f.name] else []
  {
    if !callable {
      assert stmts + [] == stmts;
    } else {
      var b := stmts + [FieldStmt(f)];
      forall i | 0 <= i < |b| ensures b[i].FieldStmt? && b[i].field.number == 0 {
        if i < |stmts| { assert b[i] == stmts[i]; }
      }
    }
  }

  /** One more service member keeps the body shaped as the members so far give it. */
  lemma RpcsShapeStep(c: Checker, mt: Mapper, cur: Option<NodeId>, st: St, ms: seq<Symbol>, acc: Body)
    requires |ms| > 0 && RpcShaped(c, ms[..|ms| - 1], acc)
    ensures var o := RpcStep(c, mt, cur, st, acc, ms[|ms| - 1]); o.r.Ok? ==> RpcShaped(c, ms, o.r.value)
  {
    var m := ms[|ms| - 1];
    CallableNamesSnoc(c, ms);
    RpcStepShape(c, mt, cur, st, acc, m);
    RpcNames(acc.stmts, Callable(c, m), RpcFieldAt(c, mt, cur, st, m));
  }

  /** A built service holds one field per callable member, by the member's name and in member order, each numbered 0, with the scope's table exact. */
  lemma {:induction false} RpcsShape(c: Checker, mt: Mapper, cur: Option<NodeId>, st: St, ms: seq<Symbol>)
    ensures var o := RpcsF(c, mt, cur, st, ms); o.r.Ok? ==> RpcShaped(c, ms, o.r.value)
  {
    if |ms| > 0 {
      var front := ms[..|ms| - 1];
      RpcsShape(c, mt, cur, st, front);
      RpcsUnfold(c, mt, cur, st, ms);
      var o := RpcsF(c, mt, cur, st, front);
      if o.r.Ok? {
        RpcsShapeStep(c, mt, cur, o.st, ms, o.r.value);
      }
    }
  }

  /** The number a member named `name` or `name$idx` gets: `idx`, or 0 without one or when it is not a number. */
  function IndexNumber(name: string): int
  {
    var idx := SplitIndex(name).1;
    if idx.Some? then idx.value else 0
  }

  /** The numbers the members' names give, in order. */
  function MemberNumbers(ms: seq<Symbol>): (r: seq<int>)
    ensures |r| == |ms|
  {
    if |ms| == 0 then [] else MemberNumbers(ms[..|ms| - 1]) + [IndexNumber(ms[|ms| - 1].name)]
  }

  /** The `i`-th number is the one the `i`-th member's name gives. */
  lemma {:induction false} MemberNumbersAt(ms: seq<Symbol>, i: nat)
    requires i < |ms|
    ensures MemberNumbers(ms)[i] == IndexNumber(ms[i].name)
  {
    if i < |ms| - 1 {
      var front := ms[..|ms| - 1];
      MemberNumbersAt(front, i);
      assert front[i] == ms[i];
    }
  }

  /** Field statements, numbered as listed. */
  ghost predicate FieldsNumbered(stmts: seq<Stmt>, nums: seq<int>)
  {
    |stmts| == |nums| && forall i :: 0 <= i < |nums| ==> stmts[i].FieldStmt? && stmts[i].field.number == nums[i]
  }

  lemma FieldsNumberedSnoc(stmts: seq<Stmt>, nums: seq<int>, f: Field)
    requires FieldsNumbered(stmts, nums)
    ensures FieldsNumbered(stmts + [FieldStmt(f)], nums + [f.number])
  {
    var b, n := stmts + [FieldStmt(f)], nums + [f.number];
    forall i | 0 <= i < |n| ensures b[i].FieldStmt? && b[i].field.number == n[i] {
      if i < |nums| { assert b[i] == stmts[i] && n[i] == nums[i]; }
    }
  }

  /** A built message holds one field per member, in member order, at the number its `name$idx` gives (0 without one), with the scope's table exact. */
  lemma {:induction false} MembersShape(c: Checker, mt: Mapper, cur: Option<NodeId>, st: St, ms: seq<Symbol>, optionals315: bool)
    ensures var o := MembersF(c, mt, cur, st, ms, optionals315);
      o.r.Ok? ==> FieldsNumbered(o.r.value.stmts, MemberNumbers(ms)) && Udts.Registered(o.r.value.stmts, o.r.value.names)
  {
    if |ms| > 0 {
      var front, m := ms[..|ms| - 1], ms[|ms| - 1];
      MembersShape(c, mt, cur, st, front, optionals315);
      MembersUnfold(c, mt, cur, st, ms, optionals315);
      var o := MembersF(c, mt, cur, st, front, optionals315);
      if o.r.Ok? {
        var acc := o.r.value;
        MemberStepShape(c, mt, cur, o.st, acc, m, optionals315);
        FieldsNumberedSnoc(acc.stmts, MemberNumbers(front), MemberFieldAt(c, mt, cur, o.st, m, optionals315));
      }
    }
  }

  // ------------------------------------------------------------- tree

  /** The identities of the definitions in a body, at any depth. */
  function Ids(body: seq<Stmt>): set<nat>
    decreases body
  {
    if |body| == 0 then {} else StmtIds(body[0]) + Ids(body[1..])
  }

  function StmtIds(s: Stmt): set<nat>
    decreases s
  {
    match s
    case DefStmt(d) => {d.ref.id} + Ids(d.body)
    case _ => {}
  }

  /** `scope.push(s)` for the nested definition with identity `scope`: `None` when the body holds no such definition. */
  function PushInto(body: seq<Stmt>, scope: nat, s: Stmt): Option<Result<seq<Stmt>>>
    decreases body
  {
    if |body| == 0 then None
    else
      match PushIntoStmt(body[0], scope, s)
      case Some(Err(e)) => Some(Err(e))
      case Some(Ok(first)) => Some(Ok([first] + body[1..]))
      case None =>
        match PushInto(body[1..], scope, s)
        case Some(Ok(rest)) => Some(Ok([body[0]] + rest))
        case other => other
  }

  function PushIntoStmt(x: Stmt, scope: nat, s: Stmt): Option<Result<Stmt>>
    decreases x
  {
    if !x.DefStmt? then None
    else if x.def.ref.id == scope then
      match Push(x.def.body, x.def.names, s)
      case Err(e) => Some(Err(e))
      case Ok((b, n)) => Some(Ok(DefStmt(x.def.(body := b, names := n))))
    else
      match PushInto(x.def.body, scope, s)
      case Some(Ok(b)) => Some(Ok(DefStmt(x.def.(body := b))))
      case Some(Err(e)) => Some(Err(e))
      case None => None
  }

  /** The error `push` throws for a name the scope has. */
  function Duplicate(s: Stmt): string
  {
    "Field " + NameOf(s) + " already exists in scope"
  }

  /**
   * A definition is found exactly when it is in the tree; placing into it
   * fails only on a name its scope has, and adds exactly the identities of
   * what is placed.
   */
  lemma {:induction false} PushIntoSpec(body: seq<Stmt>, scope: nat, s: Stmt)
    ensures var r := PushInto(body, scope, s);
      (r.None? <==> scope !in Ids(body))
      && (r.Some? && r.value.Err? ==> r.value.msg == Duplicate(s))
      && (r.Some? && r.value.Ok? ==> Ids(r.value.value) == Ids(body) + StmtIds(s))
    decreases body
  {
    if |body| > 0 {
      PushIntoStmtSpec(body[0], scope, s);
      PushIntoSpec(body[1..], scope, s);
      match PushIntoStmt(body[0], scope, s)
      case Some(Ok(first)) =>
        assert ([first] + body[1..])[1..] == body[1..];
      case Some(Err(e)) =>
      case None =>
        match PushInto(body[1..], scope, s)
        case Some(Ok(rest)) =>
          assert ([body[0]] + rest)[1..] == rest;
        case _ =>
    }
  }

  lemma {:induction false} PushIntoStmtSpec(x: Stmt, scope: nat, s: Stmt)
    ensures var r := PushIntoStmt(x, scope, s);
      (r.None? <==> scope !in StmtIds(x))
      && (r.Some? && r.value.Err? ==> r.value.msg == Duplicate(s))
      && (r.Some? && r.value.Ok? ==> StmtIds(r.value.value) == StmtIds(x) + StmtIds(s))
    decreases x
  {
    if x.DefStmt? {
      var d := x.def;
      PushIntoSpec(d.body, scope, s);
      if d.ref.id == scope {
        var p := Push(d.body, d.names, s);
        if p.Ok? {
          IdsSnoc(d.body, s);
        }
      }
    }
  }

  lemma {:induction false} IdsSnoc(body: seq<Stmt>, s: Stmt)
    ensures Ids(body + [s]) == Ids(body) + StmtIds(s)
    decreases |body|
  {
    if |body| == 0 {
      assert [s][1..] == [];
    } else {
      assert (body + [s])[1..] == body[1..] + [s];
      IdsSnoc(body[1..], s);
    }
  }

  /** `qual.scope.push(s)`: into the root, or into the nested definition with that identity. */
  function Place(fs: FileSt, rootId: nat, scope: nat, s: Stmt): Result<FileSt>
  {
    if scope == rootId then
      match Push(fs.body, fs.names, s)
      case Err(e) => Err(e)
      case Ok((b, n)) => Ok(fs.(body := b, names := n))
    else
      match PushInto(fs.body, scope, s)
      case None => Err("Definition scope not found")
      case Some(Err(e)) => Err(e)
      case Some(Ok(b)) => Ok(fs.(body := b))
  }

  /** Placing into a scope of the file fails only on a name the scope has, and adds exactly the identities of what is placed. */
  lemma PlaceSpec(fs: FileSt, rootId: nat, scope: nat, s: Stmt)
    requires scope == rootId || scope in Ids(fs.body)
    ensures var r := Place(fs, rootId, scope, s);
      (r.Err? ==> r.msg == Duplicate(s))
      && (r.Ok? ==> (Ids(r.value.body) == Ids(fs.body) + StmtIds(s)
        && r.value.defined == fs.defined && r.value.symbols == fs.symbols))
  {
    PushIntoSpec(fs.body, scope, s);
    if scope == rootId && Push(fs.body, fs.names, s).Ok? {
      IdsSnoc(fs.body, s);
    }
  }

  // -------------------------------------------------------- createType

  /** `symbolMap` as `resolveSymbol` reads it: every definition is a scope. */
  function ScopeMap(symbols: map<Symbol, DefRef>): map<Symbol, Utils.Registered>
  {
    map s | s in symbols :: ScopeEntry(symbols[s].id)
  }

  /** The `ty.symbol` argument of `getDefinition`. */
  function SymbolKeyOf(sym: Option<Symbol>): Query
  {
    if sym.Some? then SymbolKey(sym.value) else NoKey
  }

  /** What reading the declarations of a type without a symbol throws. */
  const NoDeclarations := "Cannot read properties of undefined (reading 'getDeclarations')"

  /**
   * `createType(ty, at, id)` under `seek(at)`. Nothing is made for a type
   * already defined, one that maps to something other than a reference with
   * a source type, or one declared in another file; a reference to another
   * source type is followed, at most `hops` times.
   */
  function CreateTypeF(c: Checker, mt: Mapper, conf: FileConf, fs: FileSt, st: St, t: TypeId, at: NodeId, id: Option<string>, hops: nat): (r: Result<(FileSt, St)>)
    decreases hops
  {
    var sym := TypeOf(c, t).symbol;
    if Lookup(conf.package, fs.defined, fs.symbols, [SymbolKeyOf(sym)]).Some? then Ok((fs, st))
    else
      var (m, st1) := mt(Some(at), st, t);
      if !m.ty.TypeRef? || m.ty.source.None? then Ok((fs, st1))
      else if m.ty.source.value != t then
        if hops == 0 then Err("Type chain too deep")
        else CreateTypeF(c, mt, conf, fs, st1, m.ty.source.value, at, None, hops - 1)
      else if sym.None? then Err(NoDeclarations)
      else if SymbolOf(c, sym.value).declFile != Some(conf.source) then Ok((fs, st1))
      else DeclareF(c, mt, conf, fs, st1, t, sym.value, m, at, id)
  }

  /** The kind of definition a declared type becomes; `None` for a type that is neither an enum nor a class or interface. */
  function KindOf(c: Checker, t: TypeId): Option<DefKind>
  {
    var info := TypeOf(c, t);
    if EnumLiteralFlag in info.flags then Some(EnumDef)
    else if !info.isClassOrInterface then None
    else if IsService(c, info.properties) then Some(ServiceDef)
    else Some(MessageDef)
  }

  /** The definition's body, options and the state left: enum values, service rpcs or message fields. */
  function BuildF(c: Checker, mt: Mapper, conf: FileConf, st: St, t: TypeId, kind: DefKind, opts: OptionMap, m: Mapped, at: NodeId): (r: Out<(Body, OptionMap)>)
  {
    var withAttrs: OptionMap := if m.attrs.Some? then AssignAll(opts, Entries(m.attrs.value)) else opts;
    if kind == EnumDef then
      match EnumValues(c, t)
      case Err(e) => Out(Err(e), st)
      case Ok(values) =>
        if !OrderStated(values) then Out(Err(UnstatedOrder), st)
        else Out(Ok((Body(EnumBody(Normalise(values)), {}), opts)), st)
    else
      var props := TypeOf(c, t).properties;
      var o := if kind == ServiceDef then RpcsF(c, mt, Some(at), st, props)
        else MembersF(c, mt, Some(at), st, props, conf.optionals315);
      match o.r
      case Err(e) => Out(Err(e), o.st)
      case Ok(b) => Out(Ok((b, withAttrs)), o.st)
  }

  /** A new definition before its body is built: pushing it fails exactly when pushing the built one does. */
  function Shell(ref: DefRef, t: TypeId): Stmt
  {
    DefStmt(TypeDef(ref, Some(t), NoOptions, [], {}))
  }

  /**
   * The declaring part of `createType`: options from the `@option` tags, the
   * scope and name from `resolveSymbol`, the definition registered and
   * checked against its scope's names, its body built, and the definition
   * placed in its scope.
   */
  function DeclareF(c: Checker, mt: Mapper, conf: FileConf, fs: FileSt, st: St, t: TypeId, sym: Symbol, m: Mapped, at: NodeId, id: Option<string>): (r: Result<(FileSt, St)>)
  {
    var opts := OptionsOf(SymbolOf(c, sym).optionTags);
    match Utils.Resolve(conf.rootId, ScopeMap(fs.symbols), Some(sym), id)
    case Err(e) => Err(e)
    case Ok(qual) =>
      match KindOf(c, t)
      case None => Ok((fs, st))
      case Some(kind) => MakeF(c, mt, conf, fs, st, t, sym, kind, qual, opts, m, at, id)
  }

  /** A new definition of kind `kind`, named and scoped as `qual` says: registered, checked against its scope's names, then built and placed. */
  function MakeF(c: Checker, mt: Mapper, conf: FileConf, fs: FileSt, st: St, t: TypeId, sym: Symbol, kind: DefKind, qual: Resolution,
                 opts: OptionMap, m: Mapped, at: NodeId, id: Option<string>): (r: Result<(FileSt, St)>)
  {
    match RegisterF(conf, fs, st, t, sym, kind, qual, id)
    case Err(e) => Err(e)
    case Ok(fs1) => FinishF(c, mt, conf, fs1, st.(nextId := st.nextId + 1), t, DefRef(st.nextId, kind, qual.name), qual.scope, opts, m, at)
  }

  /** `MakeF` is the registration's error, or the finishing of what it registered. */
  lemma MakeSplit(c: Checker, mt: Mapper, conf: FileConf, fs: FileSt, st: St, t: TypeId, sym: Symbol, kind: DefKind, qual: Resolution,
                  opts: OptionMap, m: Mapped, at: NodeId, id: Option<string>)
    ensures var reg := RegisterF(conf, fs, st, t, sym, kind, qual, id);
      MakeF(c, mt, conf, fs, st, t, sym, kind, qual, opts, m, at, id) ==
        if reg.Err? then Err(reg.msg)
        else FinishF(c, mt, conf, reg.value, st.(nextId := st.nextId + 1), t, DefRef(st.nextId, kind, qual.name), qual.scope, opts, m, at)
  {
    match RegisterF(conf, fs, st, t, sym, kind, qual, id)
    case Err(e) =>
    case Ok(fs1) =>
  }

  /** The new definition's identity is the next one: registered under its symbol and name, and refused when its scope has its name. */
  function RegisterF(conf: FileConf, fs: FileSt, st: St, t: TypeId, sym: Symbol, kind: DefKind, qual: Resolution, id: Option<string>): Result<FileSt>
  {
    var ref := DefRef(st.nextId, kind, qual.name);
    match Define(fs, Some(sym), id, ref)
    case Err(e) => Err(e)
    case Ok(fs1) =>
      match Place(fs1, conf.rootId, qual.scope, Shell(ref, t))
      case Err(e) => Err(e)
      case Ok(_) => Ok(fs1)
  }

  /** The body of the registered definition `ref` built, and the definition placed in `scope`. */
  function FinishF(c: Checker, mt: Mapper, conf: FileConf, fs: FileSt, st: St, t: TypeId, ref: DefRef, scope: nat,
                   opts: OptionMap, m: Mapped, at: NodeId): (r: Result<(FileSt, St)>)
  {
    var o := BuildF(c, mt, conf, st, t, ref.kind, opts, m, at);
    match o.r
    case Err(e) => Err(e)
    case Ok((b, options)) =>
      match Place(fs, conf.rootId, scope, DefStmt(TypeDef(ref, Some(t), options, b.stmts, b.names)))
      case Err(e) => Err(e)
      case Ok(fs2) => Ok((fs2, o.st))
  }

  // ---------------------------------------------------- loops, stopping

  /** Once a member cannot be read, the rest are not looked at. */
  lemma {:induction false} EnumMembersStop(c: Checker, ms: seq<TypeId>, i: nat)
    requires i <= |ms| && EnumMembers(c, ms[..i]).Err?
    ensures EnumMembers(c, ms) == EnumMembers(c, ms[..i])
    decreases |ms| - i
  {
    if i < |ms| {
      assert ms[..i + 1][..i] == ms[..i];
      EnumMembersStop(c, ms, i + 1);
    } else {
      assert ms[..i] == ms;
    }
  }

  /** Once a push throws, the rest of the members are not looked at. */
  lemma {:induction false} MembersStop(c: Checker, mt: Mapper, cur: Option<NodeId>, st: St, ms: seq<Symbol>, optionals315: bool, i: nat)
    requires i <= |ms| && MembersF(c, mt, cur, st, ms[..i], optionals315).r.Err?
    ensures MembersF(c, mt, cur, st, ms, optionals315) == MembersF(c, mt, cur, st, ms[..i], optionals315)
    decreases |ms| - i
  {
    if i < |ms| {
      assert ms[..i + 1][..i] == ms[..i];
      MembersStop(c, mt, cur, st, ms, optionals315, i + 1);
    } else {
      assert ms[..i] == ms;
    }
  }

  /** The loop's next step: the members up to `i` give `acc` and leave `sti`. */
  lemma MembersNext(c: Checker, mt: Mapper, cur: Option<NodeId>, st: St, ms: seq<Symbol>, optionals315: bool, i: nat, acc: Body, sti: St)
    requires i < |ms| && MembersF(c, mt, cur, st, ms[..i], optionals315) == Out(Ok(acc), sti)
    ensures MembersF(c, mt, cur, st, ms[..i + 1], optionals315) == MemberStep(c, mt, cur, sti, acc, ms[i], optionals315)
  {
    assert ms[..i + 1][..i] == ms[..i];
  }

  lemma RpcsNext(c: Checker, mt: Mapper, cur: Option<NodeId>, st: St, ms: seq<Symbol>, i: nat, acc: Body, sti: St)
    requires i < |ms| && RpcsF(c, mt, cur, st, ms[..i]) == Out(Ok(acc), sti)
    ensures RpcsF(c, mt, cur, st, ms[..i + 1]) == RpcStep(c, mt, cur, sti, acc, ms[i])
  {
    assert ms[..i + 1][..i] == ms[..i];
  }

  lemma {:induction false} RpcsStop(c: Checker, mt: Mapper, cur: Option<NodeId>, st: St, ms: seq<Symbol>, i: nat)
    requires i <= |ms| && RpcsF(c, mt, cur, st, ms[..i]).r.Err?
    ensures RpcsF(c, mt, cur, st, ms) == RpcsF(c, mt, cur, st, ms[..i])
    decreases |ms| - i
  {
    if i < |ms| {
      assert ms[..i + 1][..i] == ms[..i];
      RpcsStop(c, mt, cur, st, ms, i + 1);
    } else {
      assert ms[..i] == ms;
    }
  }

  /** What `createType` leaves, against what its specification gives. */
  predicate Done(r: Result<()>, fs: FileSt, st: St, spec: Result<(FileSt, St)>)
  {
    match spec
    case Ok((fs', st')) => r.Ok? && fs == fs' && st == st'
    case Err(e) => r == Err(e)
  }

  // ------------------------------------------------------- OutputFile

  /**
   * `OutputFile`: a root of the IR (its name, package, imports, options and
   * body with the root's name table) with the two tables `getDefinition`
   * reads. The root's own identity comes from the resolver, as the
   * definitions' do.
   */
  class OutputFile {
    const name: string
    const source: FileId
    const resolver: Resolver
    const optionals315: bool
    const rootId: nat
    /** The bound on `mapType`'s recursion and on the source types `createType` follows. */
    const fuel: nat
    var package: Option<string>
    var imports: seq<Import>
    var options: OptionMap
    var body: seq<Stmt>
    var names: set<string>
    var defined: map<string, DefRef>
    var symbolMap: map<Symbol, DefRef>

    function State(): FileSt
      reads this
    {
      FileSt(body, names, defined, symbolMap)
    }

    /** `mapType` as this file's resolver computes it. */
    function Mapping(): Mapper
    {
      (cur: Option<NodeId>, st: St, t: TypeId) => MapTypeF(resolver.checker, cur, st, t, fuel)
    }

    function Conf(): FileConf
      reads this
    {
      FileConf(package, source, rootId, optionals315)
    }

    /** `new OutputFile(name, resolver, source, options)`: an empty root whose name has backslashes turned into slashes. */
    constructor (fileName: string, resolver: Resolver, source: FileId, optionals315: bool, fuel: nat)
      modifies resolver
      ensures name == NewRoot(fileName, NoOptions).name && this.resolver == resolver && this.source == source
      ensures this.optionals315 == optionals315 && this.fuel == fuel
      ensures rootId == old(resolver.nextId) && resolver.State() == old(resolver.State()).(nextId := rootId + 1)
      ensures resolver.cursor == old(resolver.cursor)
      ensures package == None && imports == [] && options == NoOptions && State() == FileSt([], {}, map[], map[])
    {
      var id := resolver.FreshId();
      name := ReplaceChar(fileName, '\\', '/');
      this.resolver := resolver;
      this.source := source;
      this.optionals315 := optionals315;
      rootId := id;
      this.fuel := fuel;
      package := None;
      imports := [];
      options := NoOptions;
      body := [];
      names := {};
      defined := map[];
      symbolMap := map[];
    }

    /** `getDefinition(...keys)`. */
    method GetDefinition(keys: seq<Query>) returns (defn: Option<DefRef>)
      ensures defn == Lookup(package, defined, symbolMap, keys)
    {
      defn := None;
      var i := 0;
      while i < |keys|
        invariant 0 <= i <= |keys| && defn.None?
        invariant Lookup(package, defined, symbolMap, keys) == Lookup(package, defined, symbolMap, keys[i..])
      {
        LookupStep(package, defined, symbolMap, keys, i);
        var k := keys[i];
        if k.NameKey? {
          var s := k.name;
          if defn.None? && package.Some? && package.value != "" {
            var p := package.value;
            if StartsWith(s, p) && |s| > |p| && s[|p|] == '.' {
              var rest := s[|p| + 1..];
              defn := if rest in defined then Some(defined[rest]) else None;
            }
          }
        } else if k.SymbolKey? {
          defn := if k.sym in symbolMap then Some(symbolMap[k.sym]) else None;
        }
        assert defn == Hit(package, defined, symbolMap, k);
        if defn.Some? {
          return;
        }
        i := i + 1;
      }
    }

    /** `setDefinition(sym, id, def)`; on an error the tables may already hold the name, as in the source. */
    method SetDefinition(sym: Option<Symbol>, id: Option<string>, def: DefRef) returns (r: Result<()>)
      modifies this`defined, this`symbolMap
      ensures var spec := Define(old(State()), sym, id, def);
        (r.Ok? <==> spec.Ok?) && (spec.Err? ==> r.msg == spec.msg) && (spec.Ok? ==> State() == spec.value)
    {
      var q := GetQualifiedName(sym, id);
      if q.Err? {
        return Err(q.msg);
      }
      var n := q.value;
      if n != "" {
        if n in defined {
          if defined[n] != def {
            return Err("Symbol " + n + " already defined");
          }
        } else {
          defined := defined[n := def];
        }
      }
      if sym.Some? {
        if sym.value in symbolMap {
          if symbolMap[sym.value] != def {
            return Err("Symbol " + Qualified(sym.value) + " already defined");
          }
        } else {
          symbolMap := symbolMap[sym.value := def];
        }
      }
      return Ok(());
    }

    /** The options of the `@option` tags, tag by tag. */
    static method InitialOptions(tags: seq<Option<string>>) returns (o: OptionMap)
      ensures o == OptionsOf(tags)
    {
      o := NoOptions;
      for i := 0 to |tags|
        invariant o == OptionsOf(tags[..i])
      {
        assert tags[..i + 1][..i] == tags[..i];
        var p := ParseOption(tags[i]);
        if p.Some? {
          o := SetOption(o, p.value.0, p.value.1);
        }
      }
      assert tags[..|tags|] == tags;
    }

    /** The values of an enum type, member by member. */
    method EnumFields(t: TypeId) returns (r: Result<seq<(string, EnumNumber)>>)
      ensures r == EnumValues(resolver.checker, t)
    {
      var c := resolver.checker;
      var info := TypeOf(c, t);
      if info.union.None? {
        var v := EnumMember(c, t);
        if v.Err? {
          return Err(v.msg);
        }
        return Ok([v.value]);
      }
      var ms := info.union.value;
      var fields := [];
      for i := 0 to |ms|
        invariant EnumMembers(c, ms[..i]) == Ok(fields)
      {
        assert ms[..i + 1][..i] == ms[..i];
        var v := EnumMember(c, ms[i]);
        if v.Err? {
          EnumMembersStop(c, ms, i + 1);
          return Err(v.msg);
        }
        fields := fields + [v.value];
      }
      assert ms[..|ms|] == ms;
      return Ok(fields);
    }

    /** The member loop of a message, mapping each member's type at `at`. */
    method Members(props: seq<Symbol>, at: NodeId) returns (r: Result<Body>)
      modifies resolver
      ensures Out(r, resolver.State()) == MembersF(resolver.checker, Mapping(), Some(at), old(resolver.State()), props, optionals315)
      ensures resolver.cursor == old(resolver.cursor)
    {
      var c := resolver.checker;
      ghost var st0 := resolver.State();
      var acc := Body([], {});
      for i := 0 to |props|
        invariant MembersF(c, Mapping(), Some(at), st0, props[..i], optionals315) == Out(Ok(acc), resolver.State())
        invariant resolver.cursor == old(resolver.cursor)
      {
        ghost var sti := resolver.State();
        MembersNext(c, Mapping(), Some(at), st0, props, optionals315, i, acc, sti);
        var m := props[i];
        var (memberName, idx) := SplitIndex(m.name);
        var mapped := resolver.SeekMap(Some(at), SymType(c, m), fuel);
        var res := MemberField(memberName, idx, mapped, optionals315);
        assert res == MemberFieldAt(c, Mapping(), Some(at), sti, m, optionals315);
        var p := Push(acc.stmts, acc.names, FieldStmt(res));
        if p.Err? {
          MembersStop(c, Mapping(), Some(at), st0, props, optionals315, i + 1);
          return Err(p.msg);
        }
        acc := Body(p.value.0, p.value.1);
      }
      assert props[..|props|] == props;
      return Ok(acc);
    }

    /** The member loop of a service: callable members only, each an rpc numbered 0. */
    method Rpcs(props: seq<Symbol>, at: NodeId) returns (r: Result<Body>)
      modifies resolver
      ensures Out(r, resolver.State()) == RpcsF(resolver.checker, Mapping(), Some(at), old(resolver.State()), props)
      ensures resolver.cursor == old(resolver.cursor)
    {
      var c := resolver.checker;
      ghost var st0 := resolver.State();
      var acc := Body([], {});
      for i := 0 to |props|
        invariant RpcsF(c, Mapping(), Some(at), st0, props[..i]) == Out(Ok(acc), resolver.State())
        invariant resolver.cursor == old(resolver.cursor)
      {
        ghost var sti := resolver.State();
        RpcsNext(c, Mapping(), Some(at), st0, props, i, acc, sti);
        var m := props[i];
        if |TypeOf(c, SymType(c, m)).callSignatures| > 0 {
          var mapped := resolver.SeekMap(Some(at), SymType(c, m), fuel);
          var res := WithAttrs(NewField(m.name, mapped.ty, Some(0)), mapped.attrs);
          assert res == RpcFieldAt(c, Mapping(), Some(at), sti, m);
          var p := Push(acc.stmts, acc.names, FieldStmt(res));
          if p.Err? {
            RpcsStop(c, Mapping(), Some(at), st0, props, i + 1);
            return Err(p.msg);
          }
          acc := Body(p.value.0, p.value.1);
        }
      }
      assert props[..|props|] == props;
      return Ok(acc);
    }

    /** The body and options of a new definition of kind `kind`. */
    method Build(t: TypeId, kind: DefKind, opts: OptionMap, m: Mapped, at: NodeId) returns (r: Result<(Body, OptionMap)>)
      modifies resolver
      ensures Out(r, resolver.State()) == BuildF(resolver.checker, Mapping(), Conf(), old(resolver.State()), t, kind, opts, m, at)
      ensures resolver.cursor == old(resolver.cursor)
    {
      var withAttrs: OptionMap := if m.attrs.Some? then AssignAll(opts, Entries(m.attrs.value)) else opts;
      if kind == EnumDef {
        var values := EnumFields(t);
        if values.Err? {
          return Err(values.msg);
        }
        if !OrderStated(values.value) {
          return Err(UnstatedOrder);
        }
        var fields := SortBy(values.value, EnumKey);
        if |fields| == 0 || fields[0].1 != IntNumber(0) {
          fields := [Unspecified] + fields;
        }
        return Ok((Body(EnumBody(fields), {}), opts));
      }
      var props := TypeOf(resolver.checker, t).properties;
      var b;
      if kind == ServiceDef {
        b := Rpcs(props, at);
      } else {
        b := Members(props, at);
      }
      if b.Err? {
        return Err(b.msg);
      }
      return Ok((b.value, withAttrs));
    }

    /** The declaring part of `createType`, for a type of this file. */
    method Declare(t: TypeId, sym: Symbol, m: Mapped, at: NodeId, id: Option<string>) returns (r: Result<()>)
      modifies this`body, this`names, this`defined, this`symbolMap, resolver
      ensures Done(r, State(), resolver.State(), DeclareF(resolver.checker, Mapping(), old(Conf()), old(State()), old(resolver.State()), t, sym, m, at, id))
      ensures resolver.cursor == old(resolver.cursor)
    {
      var c := resolver.checker;
      var opts := InitialOptions(SymbolOf(c, sym).optionTags);
      var qual := ResolveSymbol(rootId, ScopeMap(symbolMap), Some(sym), id);
      if qual.Err? {
        return Err(qual.msg);
      }
      var kind := KindOf(c, t);
      if kind.None? {
        return Ok(());
      }
      r := Make(t, sym, kind.value, qual.value, opts, m, at, id);
    }

    /** A new definition: registered, checked against its scope's names, built and placed. */
    method Make(t: TypeId, sym: Symbol, kind: DefKind, qual: Resolution, opts: OptionMap, m: Mapped, at: NodeId, id: Option<string>) returns (r: Result<()>)
      modifies this`body, this`names, this`defined, this`symbolMap, resolver
      ensures Done(r, State(), resolver.State(), MakeF(resolver.checker, Mapping(), old(Conf()), old(State()), old(resolver.State()), t, sym, kind, qual, opts, m, at, id))
      ensures resolver.cursor == old(resolver.cursor)
    {
      ghost var conf0, fs0, st0 := Conf(), State(), resolver.State();
      ghost var spec := MakeF(resolver.checker, Mapping(), conf0, fs0, st0, t, sym, kind, qual, opts, m, at, id);
      var ref := Register(t, sym, kind, qual, id);
      assert Conf() == conf0;
      MakeSplit(resolver.checker, Mapping(), conf0, fs0, st0, t, sym, kind, qual, opts, m, at, id);
      if ref.Err? {
        assert spec == Err(ref.msg);
        return Err(ref.msg);
      }
      ghost var fin := FinishF(resolver.checker, Mapping(), conf0, State(), resolver.State(), t, ref.value, qual.scope, opts, m, at);
      assert spec == fin;
      r := Finish(t, ref.value, qual.scope, opts, m, at);
      assert Done(r, State(), resolver.State(), fin);
    }

    /** The new definition's identity taken from the resolver, the definition registered and checked against its scope's names. */
    method Register(t: TypeId, sym: Symbol, kind: DefKind, qual: Resolution, id: Option<string>) returns (r: Result<DefRef>)
      modifies this`defined, this`symbolMap, resolver
      ensures var spec := RegisterF(old(Conf()), old(State()), old(resolver.State()), t, sym, kind, qual, id);
        (r.Ok? <==> spec.Ok?) && (spec.Err? ==> r.msg == spec.msg)
        && (spec.Ok? ==> State() == spec.value && r.value == DefRef(old(resolver.nextId), kind, qual.name))
      ensures resolver.State() == old(resolver.State()).(nextId := old(resolver.nextId) + 1)
      ensures resolver.cursor == old(resolver.cursor)
    {
      var newId := resolver.FreshId();
      var ref := DefRef(newId, kind, qual.name);
      var d := SetDefinition(Some(sym), id, ref);
      if d.Err? {
        return Err(d.msg);
      }
      var check := Place(State(), rootId, qual.scope, Shell(ref, t));
      if check.Err? {
        return Err(check.msg);
      }
      return Ok(ref);
    }

    /** The definition's body built, and the definition pushed into its scope. */
    method Finish(t: TypeId, ref: DefRef, scope: nat, opts: OptionMap, m: Mapped, at: NodeId) returns (r: Result<()>)
      modifies this`body, this`names, resolver
      ensures Done(r, State(), resolver.State(), FinishF(resolver.checker, Mapping(), old(Conf()), old(State()), old(resolver.State()), t, ref, scope, opts, m, at))
      ensures resolver.cursor == old(resolver.cursor)
    {
      var built := Build(t, ref.kind, opts, m, at);
      if built.Err? {
        return Err(built.msg);
      }
      var (b, defOptions) := built.value;
      var placed := Place(State(), rootId, scope, DefStmt(TypeDef(ref, Some(t), defOptions, b.stmts, b.names)));
      if placed.Err? {
        return Err(placed.msg);
      }
      body := placed.value.body;
      names := placed.value.names;
      assert State() == placed.value;
      return Ok(());
    }

    /** `createType(ty, at, id)`. */
    method CreateType(t: TypeId, at: NodeId, id: Option<string>, hops: nat) returns (r: Result<()>)
      modifies this`body, this`names, this`defined, this`symbolMap, resolver
      ensures Done(r, State(), resolver.State(), CreateTypeF(resolver.checker, Mapping(), old(Conf()), old(State()), old(resolver.State()), t, at, id, hops))
      ensures resolver.cursor == old(resolver.cursor)
      decreases hops
    {
      var c := resolver.checker;
      var sym := TypeOf(c, t).symbol;
      var found := GetDefinition([SymbolKeyOf(sym)]);
      if found.Some? {
        return Ok(());
      }
      var m := resolver.SeekMap(Some(at), t, fuel);
      if !m.ty.TypeRef? || m.ty.source.None? {
        return Ok(());
      }
      if m.ty.source.value != t {
        if hops == 0 {
          return Err("Type chain too deep");
        }
        r := CreateType(m.ty.source.value, at, None, hops - 1);
        return;
      }
      if sym.None? {
        return Err(NoDeclarations);
      }
      if SymbolOf(c, sym.value).declFile != Some(source) {
        return Ok(());
      }
      r := Declare(t, sym.value, m, at, id);
    }

    /** `handleDecl(stmt)`: the declared type of a statement, at that statement, under its name. */
    method HandleDecl(t: TypeId, node: NodeId, declName: Option<string>) returns (r: Result<()>)
      modifies this`body, this`names, this`defined, this`symbolMap, resolver
      ensures Done(r, State(), resolver.State(), CreateTypeF(resolver.checker, Mapping(), old(Conf()), old(State()), old(resolver.State()), t, node, declName, fuel))
      ensures resolver.cursor == old(resolver.cursor)
    {
      r := CreateType(t, node, declName, fuel);
    }
  }
}
