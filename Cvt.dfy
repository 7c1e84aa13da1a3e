/**
 * Descriptor emission (lib/proto/cvt.ts): option literals coerced to the kind
 * of value an option carries, option maps converted to the fields of a
 * descriptor.proto `*Options` message (registered options by their field
 * number, any other as an `UninterpretedOption` at field 999), and the IR of
 * a file turned into `FileDescriptorProto` values.
 */
module Cvt {
  import opened Wrappers
  import opened Strings
  import opened Base
  import opened Types
  import opened Udts
  import opened Registry

  // ---------------------------------------------------------------------
  // Coercions.

  /**
   * `coerceBytes`: bytes pass through, a bool is the single byte 1 or 0, a
   * string is its UTF-8 encoding (given as `utf8`), numbers and enums are
   * refused.
   */
  function CoerceBytes(v: Lit, utf8: string -> seq<Byte>): (r: Result<seq<Byte>>)
    ensures r.Err? <==> v.NumLit? || v.BigLit? || v.EnumLit?
    ensures v.BytesLit? ==> r == Ok(v.bytes)
    ensures v.BoolLit? ==> r == Ok([if v.b then 1 else 0]) && |r.value| == 1
  {
    match v
    case StrLit(s) => Ok(utf8(s))
    case BytesLit(b) => Ok(b)
    case BoolLit(b) => Ok([if b then 1 else 0])
    case NumLit(_) => Err("Invalid value type: number")
    case BigLit(_) => Err("Invalid value type: bigint")
    case EnumLit(_, _) => Err("Invalid value type: object")
  }

  /** `coerceString`: a string as it is; any other literal's text, with one pair of surrounding quotes removed. */
  function CoerceString(v: Lit): string
  {
    if v.StrLit? then v.s
    else
      var e := EncodeLiteral(v);
      if StartsWith(e, "\"") then (if |e| >= 2 then e[1..|e| - 1] else "") else e
  }

  /** The numeric value `coerceNumeric` gives: an integer, or `parseFloat` of a string (not modelled). */
  datatype Numeric = Integer(n: int) | FloatOf(text: string)

  /** `coerceNumeric`: a bool is 1 or 0, bytes their first byte or 0, an enum its number, an integer itself. */
  function CoerceNumeric(v: Lit): Numeric
  {
    match v
    case StrLit(s) => FloatOf(s)
    case BoolLit(b) => Integer(if b then 1 else 0)
    case BytesLit(b) => Integer(if |b| > 0 then b[0] else 0)
    case EnumLit(n, _) => Integer(n)
    case NumLit(n) => Integer(n)
    case BigLit(n) => Integer(n)
  }

  /** `coerceBool`: `'false'` and the empty string are false, bytes are their non-emptiness, other values their truthiness. */
  function CoerceBool(v: Lit): bool
  {
    match v
    case StrLit(s) => if s == "false" then false else s != ""
    case BytesLit(b) => |b| > 0
    case EnumLit(n, _) => n != 0
    case NumLit(n) => n != 0
    case BigLit(n) => n != 0
    case BoolLit(b) => b
  }

  /** A string option keeps its text; bytes keep their escaped text between the quotes; integers and bools their text. */
  lemma CoerceStringText(v: Lit)
    ensures v.StrLit? ==> CoerceString(v) == v.s
    ensures v.BytesLit? ==> CoerceString(v) == BytesText(v.bytes)
    ensures v.NumLit? ==> CoerceString(v) == IntToString(v.n) && ParseInt(CoerceString(v)) == Some(v.n)
    ensures v.BoolLit? ==> CoerceString(v) == (if v.b then "true" else "false")
  {
    if v.NumLit? {
      IntTextUnquoted(v.n);
      Unquoted(IntToString(v.n));
      ParseIntOfString(v.n);
    } else if v.BoolLit? {
      Unquoted(EncodeLiteral(v));
    } else if v.BytesLit? {
      QuotedInside(BytesText(v.bytes));
    }
  }

  /** The text of an integer starts with a sign or a digit. */
  lemma IntTextUnquoted(n: int)
    ensures |IntToString(n)| >= 1 && IntToString(n)[0] != '"'
  {
    if n >= 0 {
      assert IsDigit(IntToString(n)[0], 10);
    }
  }

  lemma Unquoted(e: string)
    requires |e| >= 1 && e[0] != '"'
    ensures !StartsWith(e, "\"")
  {
    assert e[..1][0] == e[0];
  }

  lemma QuotedInside(t: string)
    ensures var e := "\"" + t + "\""; StartsWith(e, "\"") && |e| >= 2 && e[1..|e| - 1] == t
  {
    var e := "\"" + t + "\"";
    assert e[..1] == "\"";
  }

  /**
   * For every literal but bytes and strings, the bool an option reads is
   * whether the number it would read is non-zero; for bytes, a non-zero
   * number implies true (a leading zero byte reads as 0 but true).
   */
  lemma CoerceBoolNumeric(v: Lit)
    ensures !v.StrLit? && !v.BytesLit? ==> (CoerceBool(v) <==> CoerceNumeric(v) != Integer(0))
    ensures v.BytesLit? && CoerceNumeric(v) != Integer(0) ==> CoerceBool(v)
    ensures v.BytesLit? && |v.bytes| > 0 && v.bytes[0] == 0 ==> CoerceBool(v) && CoerceNumeric(v) == Integer(0)
  {
  }

  // ---------------------------------------------------------------------
  // Option conversion.

  /** The encoders `cvt.ts` registers, per options message. */
  function Encoders(o: Owner): seq<OptionSpec>
  {
    match o
    case FileOwner => [
      OptionSpec("java_package", WString, 1),
      OptionSpec("java_outer_classname", WString, 8),
      OptionSpec("java_multiple_files", WBool, 10),
      OptionSpec("java_generate_equals_and_hash", WBool, 20),
      OptionSpec("java_string_check_utf8", WBool, 27),
      OptionSpec("optimize_for", WEnum, 9),
      OptionSpec("go_package", WString, 11),
      OptionSpec("cc_generic_services", WBool, 16),
      OptionSpec("java_generic_services", WBool, 17),
      OptionSpec("py_generic_services", WBool, 18),
      OptionSpec("php_generic_services", WBool, 42),
      OptionSpec("deprecated", WBool, 23),
      OptionSpec("cc_enable_arenas", WBool, 31),
      OptionSpec("objc_class_prefix", WString, 36),
      OptionSpec("csharp_namespace", WString, 37),
      OptionSpec("swift_prefix", WString, 39),
      OptionSpec("php_class_prefix", WString, 40),
      OptionSpec("php_namespace", WString, 41),
      OptionSpec("php_metadata_namespace", WString, 44),
      OptionSpec("ruby_package", WString, 45)]
    case FieldOwner => [
      OptionSpec("ctype", WEnum, 1),
      OptionSpec("packed", WBool, 2),
      OptionSpec("jstype", WEnum, 6),
      OptionSpec("lazy", WBool, 5),
      OptionSpec("deprecated", WBool, 3),
      OptionSpec("weak", WBool, 10)]
    case MessageOwner => [
      OptionSpec("message_set_wire_format", WBool, 1),
      OptionSpec("no_standard_descriptor_accessor", WBool, 2),
      OptionSpec("deprecated", WBool, 3),
      OptionSpec("map_entry", WBool, 7)]
    case EnumOwner => [
      OptionSpec("allow_alias", WBool, 2),
      OptionSpec("deprecated", WBool, 3)]
    case EnumValueOwner => [OptionSpec("deprecated", WBool, 1)]
    case ServiceOwner => [OptionSpec("deprecated", WBool, 33)]
    case MethodOwner => [
      OptionSpec("deprecated", WBool, 33),
      OptionSpec("idempotency_level", WEnum, 34)]
    case OneofOwner => [OptionSpec("deprecated", WBool, 33)]
    case ExtensionRangeOwner => []
  }

  /** Every table of the static registry is, entry for entry, the encoder table of the same options message. */
  lemma RegistryMatchesEncoders(o: Owner)
    ensures Table(o).Some? ==> Table(o).value == Encoders(o)
    ensures Table(o).None? <==> o == FieldOwner
  {
  }

  /** The value written for a registered option. */
  datatype Value = StringValue(s: string) | BoolValue(b: bool) | NumericValue(n: Numeric)

  /** `writeString`, `writeBool` and `writeEnum`: the literal coerced to the option's kind. */
  function Encode(k: WireKind, v: Lit): Value
  {
    match k
    case WString => StringValue(CoerceString(v))
    case WBool => BoolValue(CoerceBool(v))
    case WEnum => NumericValue(CoerceNumeric(v))
  }

  /** One segment of an uninterpreted option's name. */
  datatype NamePart = NamePart(part: string, isExtension: bool)

  /** The value an uninterpreted option carries. */
  datatype Uninterpreted =
    | NoValue
    | IdentifierValue(id: string)
    | PositiveIntValue(p: nat)
    | NegativeIntValue(m: nat)
    | StringValueOf(s: string)

  /** A field of an `*Options` message: a registered option at its number, or an `UninterpretedOption`. */
  datatype Written =
    | Known(field: nat, value: Value)
    | Unknown(name: seq<NamePart>, carried: Uninterpreted)

  /** `uninterpreted_option` is field 999 of every options message. */
  const UninterpretedField: nat := 999

  function FieldOf(w: Written): nat
  {
    if w.Known? then w.field else UninterpretedField
  }

  /** `s.slice(a, b)`: negative positions count from the end, and positions are clamped to the text. */
  function Slice(s: string, a: int, b: int): (r: string)
  {
    var lo := if a < 0 then (if a + |s| < 0 then 0 else a + |s|) else (if a > |s| then |s| else a);
    var hi := if b < 0 then (if b + |s| < 0 then 0 else b + |s|) else (if b > |s| then |s| else b);
    if lo < hi then s[lo..hi] else ""
  }

  /** The pieces of a text split on `.`, none of them an extension. */
  function Plain(s: string): (r: seq<NamePart>)
    ensures |r| == |Split(s, '.')|
    ensures forall i :: 0 <= i < |r| ==> r[i] == NamePart(Split(s, '.')[i], false)
  {
    var pieces := Split(s, '.');
    seq(|pieces|, i requires 0 <= i < |pieces| => NamePart(pieces[i], false))
  }

  /**
   * `splitNameParts`: the text before the first `(` split on `.` (nothing
   * when the name starts with `(`), then the text from after that `(` up to
   * the first `)` of the name as one extension part, then the same for the
   * text after that `)`. Empty pieces are kept.
   */
  function SplitNameParts(name: string): (r: seq<NamePart>)
    decreases |name|, 1
  {
    var idx := IndexOf(name, '(');
    if idx == -1 then Plain(name) else Opened(name, idx, IndexOf(name, ')'))
  }

  /** The parts of a name whose first `(` is at `idx` and first `)` at `end` (-1 when there is none). */
  function Opened(name: string, idx: nat, end: int): (r: seq<NamePart>)
    requires idx < |name| && -1 <= end < |name|
    decreases |name|, 0
  {
    Glue(Head(name, idx), Slice(name, idx + 1, end), if end != -1 then SplitNameParts(name[end + 1..]) else [])
  }

  /** The parts before a parenthesised segment, the segment as an extension part, and the parts after it. */
  function Glue(head: seq<NamePart>, ext: string, rest: seq<NamePart>): seq<NamePart>
  {
    head + [NamePart(ext, true)] + rest
  }

  /** The parts before the first `(`, at `idx`: none when the name starts with it. */
  function Head(name: string, idx: nat): seq<NamePart>
    requires idx <= |name|
  {
    if idx == 0 then [] else Plain(name[..idx])
  }

  /** The names of parts. */
  function PartNames(parts: seq<NamePart>): (r: seq<string>)
    ensures |r| == |parts| && forall i :: 0 <= i < |parts| ==> r[i] == parts[i].part
  {
    seq(|parts|, i requires 0 <= i < |parts| => parts[i].part)
  }

  /** A name without parentheses is split on its dots, and joining the parts with `.` gives it back. */
  lemma SplitPlainName(name: string)
    requires '(' !in name
    ensures SplitNameParts(name) == Plain(name)
    ensures forall i :: 0 <= i < |SplitNameParts(name)| ==> !SplitNameParts(name)[i].isExtension
    ensures Join(PartNames(SplitNameParts(name)), ".") == name
  {
    assert PartNames(Plain(name)) == Split(name, '.');
    JoinSplit(name, '.');
  }

  /** The parts of a name whose first `(` and first `)` are at `idx < end`. */
  lemma SplitAt(name: string, idx: nat, end: nat)
    requires idx < end < |name| && name[idx] == '(' && name[end] == ')'
    requires '(' !in name[..idx] && ')' !in name[..end]
    ensures SplitNameParts(name) == Head(name, idx) + [NamePart(name[idx + 1..end], true)] + SplitNameParts(name[end + 1..])
  {
    IndexOfAt(name, '(', idx);
    IndexOfAt(name, ')', end);
    SplitNamePartsOpen(name, idx, end);
    OpenedClosed(name, idx, end);
  }

  /** One step of `splitNameParts` on a name with a `(` at `idx` and a `)` at `end`. */
  lemma SplitNamePartsOpen(name: string, idx: int, end: int)
    requires idx == IndexOf(name, '(') && idx != -1 && end == IndexOf(name, ')') && end != -1
    ensures SplitNameParts(name) == Opened(name, idx, end)
  {
  }

  /** A closed segment is the text between the parentheses, followed by the parts of the rest. */
  lemma OpenedClosed(name: string, idx: nat, end: nat)
    requires idx < end < |name|
    ensures Opened(name, idx, end) == Glue(Head(name, idx), name[idx + 1..end], SplitNameParts(name[end + 1..]))
  {
    assert Slice(name, idx + 1, end) == name[idx + 1..end];
  }

  /**
   * A parenthesised segment `(x)` after a prefix `a` free of parentheses is
   * one extension part `x`, dots kept, between the parts of `a` (none when
   * `a` is empty) and those of the rest.
   */
  lemma SplitExtension(a: string, x: string, b: string)
    requires '(' !in a && ')' !in a && ')' !in x
    ensures SplitNameParts(a + ['('] + x + [')'] + b) ==
      (if a == [] then [] else Plain(a)) + [NamePart(x, true)] + SplitNameParts(b)
  {
    var name := a + ['('] + x + [')'] + b;
    var idx, end := |a|, |a| + 1 + |x|;
    assert name[..idx] == a;
    assert name[..end] == a + ['('] + x;
    assert name[idx + 1..end] == x;
    assert name[end + 1..] == b;
    SplitAt(name, idx, end);
  }

  /**
   * The dots next to a parenthesised segment leave empty parts on both sides
   * of it: `p.(x).q` gives `p`, `''`, `(x)`, `''`, `q`.
   */
  lemma SplitKeepsEmptyPieces(p: string, x: string, q: string)
    requires '.' !in p && '(' !in p && ')' !in p && ')' !in x && '.' !in q && '(' !in q
    ensures SplitNameParts((p + ['.']) + ['('] + x + [')'] + (['.'] + q)) ==
      [NamePart(p, false), NamePart([], false)] + [NamePart(x, true)] + [NamePart([], false), NamePart(q, false)]
  {
    var a, b := p + ['.'], ['.'] + q;
    var left, right := [NamePart(p, false), NamePart([], false)], [NamePart([], false), NamePart(q, false)];
    assert Plain(a) == left by { PlainTrailingDot(p); }
    assert SplitNameParts(b) == right by { PlainLeadingDot(q); }
    assert SplitNameParts(a + ['('] + x + [')'] + b) == Plain(a) + [NamePart(x, true)] + SplitNameParts(b) by {
      assert |a| == |p| + 1;
      assert '(' !in a && ')' !in a;
      SplitExtension(a, x, b);
    }
  }

  lemma PlainTrailingDot(p: string)
    requires '.' !in p
    ensures Plain(p + ['.']) == [NamePart(p, false), NamePart([], false)]
  {
    var s := p + ['.'];
    assert s[..|p|] == p;
    IndexOfAt(s, '.', |p|);
    assert s[|p| + 1..] == [];
    assert Split(s, '.') == [p, []];
  }

  lemma PlainLeadingDot(q: string)
    requires '.' !in q && '(' !in q
    ensures SplitNameParts(['.'] + q) == [NamePart([], false), NamePart(q, false)]
  {
    var s := ['.'] + q;
    assert '(' !in s;
    SplitPlainName(s);
    IndexOfAt(s, '.', 0);
    assert s[1..] == q;
    assert Split(s, '.') == [[], q];
  }

  /** Without a closing parenthesis the extension part is everything after `(` but the last character. */
  lemma SplitUnclosed(a: string, x: string)
    requires '(' !in a && ')' !in a && ')' !in x && |x| >= 1
    ensures SplitNameParts(a + ['('] + x) == (if a == [] then [] else Plain(a)) + [NamePart(x[..|x| - 1], true)]
  {
    var name := a + ['('] + x;
    assert IndexOf(name, '(') == |a| by {
      assert name[..|a|] == a;
      IndexOfAt(name, '(', |a|);
    }
    assert IndexOf(name, ')') == -1 by {
      assert ')' !in name;
    }
    assert Slice(name, |a| + 1, -1) == x[..|x| - 1] by {
      assert name[|a| + 1..|name| - 1] == x[..|x| - 1];
    }
    assert name[..|a|] == a;
  }

  /** The value an unregistered option carries: strings, integers by sign, bools as identifiers, otherwise none. */
  function UninterpretedOf(v: Lit): (r: Uninterpreted)
    ensures v.NumLit? && v.n < 0 ==> r == NegativeIntValue(-v.n)
    ensures v.NumLit? && v.n >= 0 ==> r == PositiveIntValue(v.n)
    ensures v.BoolLit? ==> r == IdentifierValue(if v.b then "true" else "false")
    ensures v.StrLit? ==> r == StringValueOf(v.s)
    ensures v.BigLit? || v.EnumLit? || v.BytesLit? ==> r == NoValue
  {
    match v
    case StrLit(s) => StringValueOf(s)
    case NumLit(n) => if n < 0 then NegativeIntValue(-n) else PositiveIntValue(n)
    case BoolLit(b) => IdentifierValue(if b then "true" else "false")
    case _ => NoValue
  }

  /** One option converted, given the encoders of its options message. */
  function ConvertEntry(e: OptionPair, table: seq<OptionSpec>): Written
  {
    match Find(table, e.0)
    case Some(spec) => Known(spec.field, Encode(spec.kind, e.1))
    case None => Unknown(SplitNameParts(e.0), UninterpretedOf(e.1))
  }

  /** The options message's fields, one per entry, in entry order. */
  function ConvertAll(entries: seq<OptionPair>, table: seq<OptionSpec>): seq<Written>
  {
    seq(|entries|, i requires 0 <= i < |entries| => ConvertEntry(entries[i], table))
  }

  /** The options message `convertOptions(opts, out)` builds. */
  function Converted(opts: OptionMap, o: Owner): seq<Written>
  {
    ConvertAll(Entries(opts), Encoders(o))
  }

  /** `convertOptions(opt, out)`: every entry of the map, in order, written into the options message. */
  method ConvertOptions(opts: OptionMap, o: Owner) returns (out: seq<Written>)
    ensures out == Converted(opts, o)
  {
    out := ConvertEntries(Entries(opts), Encoders(o));
  }

  /** The loop of `convertOptions`, given the encoders of the options message. */
  method ConvertEntries(entries: seq<OptionPair>, table: seq<OptionSpec>) returns (out: seq<Written>)
    ensures out == ConvertAll(entries, table)
  {
    out := [];
    var i := 0;
    while i < |entries|
      invariant 0 <= i <= |entries|
      invariant out == ConvertAll(entries[..i], table)
    {
      ConvertAllSnoc(entries, table, i);
      var w;
      var spec := Find(table, entries[i].0);
      if spec.Some? {
        w := Known(spec.value.field, Encode(spec.value.kind, entries[i].1));
      } else {
        w := Unknown(SplitNameParts(entries[i].0), UninterpretedOf(entries[i].1));
      }
      out := out + [w];
      i := i + 1;
    }
    assert entries[..i] == entries;
  }

  lemma ConvertAllSnoc(entries: seq<OptionPair>, table: seq<OptionSpec>, i: nat)
    requires i < |entries|
    ensures ConvertAll(entries[..i + 1], table) == ConvertAll(entries[..i], table) + [ConvertEntry(entries[i], table)]
  {
    var a := ConvertAll(entries[..i + 1], table);
    var b := ConvertAll(entries[..i], table) + [ConvertEntry(entries[i], table)];
    assert |a| == |b|;
    forall k | 0 <= k < |a|
      ensures a[k] == b[k]
    {
      if k < i {
        assert entries[..i + 1][k] == entries[..i][k];
      }
    }
  }

  /** Each option lands at its registered field number, or at 999 when it is not registered. */
  lemma ConvertedFields(opts: OptionMap, o: Owner, i: nat)
    requires i < |opts.keys|
    ensures var w := Converted(opts, o)[i]; var spec := Find(Encoders(o), opts.keys[i]);
      FieldOf(w) == (if spec.Some? then spec.value.field else 999)
      && (spec.None? ==> w.Unknown? && w.name == SplitNameParts(opts.keys[i]))
  {
  }
}
