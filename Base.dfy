/**
 * The IR foundations of lib/proto/base.ts: option literals and their kinds
 * and text, the ordered option map, the naming functions of scopes, and the
 * mark/sweep index allocator.
 */
module Base {
  import opened Wrappers
  import opened Strings

  type Byte = x: int | 0 <= x < 256

  /** The `type` values of `FieldDescriptorProto` in descriptor.proto. */
  datatype TypeKind =
    | TYPE_DOUBLE | TYPE_FLOAT | TYPE_INT64 | TYPE_UINT64 | TYPE_INT32 | TYPE_FIXED64
    | TYPE_FIXED32 | TYPE_BOOL | TYPE_STRING | TYPE_GROUP | TYPE_MESSAGE | TYPE_BYTES
    | TYPE_UINT32 | TYPE_ENUM | TYPE_SFIXED32 | TYPE_SFIXED64 | TYPE_SINT32 | TYPE_SINT64

  /** The enum value name of a kind, as the source spells its `TypeKind` strings. */
  function KindName(k: TypeKind): string
  {
    match k
    case TYPE_DOUBLE => "TYPE_DOUBLE"
    case TYPE_FLOAT => "TYPE_FLOAT"
    case TYPE_INT64 => "TYPE_INT64"
    case TYPE_UINT64 => "TYPE_UINT64"
    case TYPE_INT32 => "TYPE_INT32"
    case TYPE_FIXED64 => "TYPE_FIXED64"
    case TYPE_FIXED32 => "TYPE_FIXED32"
    case TYPE_BOOL => "TYPE_BOOL"
    case TYPE_STRING => "TYPE_STRING"
    case TYPE_GROUP => "TYPE_GROUP"
    case TYPE_MESSAGE => "TYPE_MESSAGE"
    case TYPE_BYTES => "TYPE_BYTES"
    case TYPE_UINT32 => "TYPE_UINT32"
    case TYPE_ENUM => "TYPE_ENUM"
    case TYPE_SFIXED32 => "TYPE_SFIXED32"
    case TYPE_SFIXED64 => "TYPE_SFIXED64"
    case TYPE_SINT32 => "TYPE_SINT32"
    case TYPE_SINT64 => "TYPE_SINT64"
  }

  /**
   * An option literal. `NumLit` is an integral JavaScript number (fractional
   * numbers are not modelled), `BigLit` a bigint, `EnumLit` an `{enum, name?}`
   * object and `BytesLit` a `Uint8Array`.
   */
  datatype Lit =
    | NumLit(n: int)
    | BigLit(n: int)
    | StrLit(s: string)
    | BoolLit(b: bool)
    | EnumLit(value: int, name: Option<string>)
    | BytesLit(bytes: seq<Byte>)

  /** The wire kind a literal is given (base.ts `kindOfLiteral`). */
  function KindOfLiteral(v: Lit): TypeKind
  {
    match v
    case StrLit(_) => TYPE_STRING
    case NumLit(n) =>
      if n > 0xffff_ffff then TYPE_INT64
      else if n > 0x7fff_ffff then TYPE_UINT32
      else TYPE_INT32
    case BigLit(n) => if n < 0 then TYPE_INT64 else TYPE_UINT64
    case BoolLit(_) => TYPE_BOOL
    case BytesLit(_) => TYPE_BYTES
    case EnumLit(_, _) => TYPE_ENUM
  }

  /** The integers a kind can hold, for the four integer kinds literals are given. */
  predicate HoldsInt(k: TypeKind, n: int)
  {
    match k
    case TYPE_INT32 => -0x8000_0000 <= n < 0x8000_0000
    case TYPE_UINT32 => 0 <= n < 0x1_0000_0000
    case TYPE_INT64 => -0x8000_0000_0000_0000 <= n < 0x8000_0000_0000_0000
    case TYPE_UINT64 => 0 <= n < 0x1_0000_0000_0000_0000
    case _ => false
  }

  /**
   * A number literal from the lowest 32-bit integer up to the largest 64-bit
   * one gets the first of int32, uint32, int64 that holds it.
   */
  lemma NumberKindFits(n: int)
    requires -0x8000_0000 <= n < 0x8000_0000_0000_0000
    ensures HoldsInt(KindOfLiteral(NumLit(n)), n)
    ensures KindOfLiteral(NumLit(n)) == TYPE_UINT32 ==> !HoldsInt(TYPE_INT32, n)
    ensures KindOfLiteral(NumLit(n)) == TYPE_INT64 ==> !HoldsInt(TYPE_INT32, n) && !HoldsInt(TYPE_UINT32, n)
  {
  }

  /** Every negative number literal is given int32, including those outside its range. */
  lemma NegativeNumberKind(n: int)
    requires n < 0
    ensures KindOfLiteral(NumLit(n)) == TYPE_INT32
    ensures HoldsInt(TYPE_INT32, n) <==> n >= -0x8000_0000
  {
  }

  /** A bigint literal in the 64-bit ranges gets int64 when negative and uint64 otherwise, and fits. */
  lemma BigIntKindFits(n: int)
    requires -0x8000_0000_0000_0000 <= n < 0x1_0000_0000_0000_0000
    ensures HoldsInt(KindOfLiteral(BigLit(n)), n)
    ensures KindOfLiteral(BigLit(n)) == (if n < 0 then TYPE_INT64 else TYPE_UINT64)
  {
  }

  /** Whether `encodeLiteral` writes a byte as itself (32..126). */
  predicate Printable(b: Byte)
  {
    32 <= b < 127
  }

  /** The text of one byte inside a bytes literal: itself, or `\x` and its octal digits padded to two. */
  function ByteText(b: Byte): string
  {
    if Printable(b) then [b as char] else "\\x" + PadStart(NatToString(b, 8), 2, '0')
  }

  /** The text of all bytes, without the surrounding quotes. */
  function BytesText(bytes: seq<Byte>): string
  {
    if |bytes| == 0 then "" else BytesText(bytes[..|bytes| - 1]) + ByteText(bytes[|bytes| - 1])
  }

  /** The text of an option literal (base.ts `encodeLiteral`). */
  function EncodeLiteral(v: Lit): string
  {
    match v
    case StrLit(s) => "\"" + s + "\""
    case BytesLit(bytes) => "\"" + BytesText(bytes) + "\""
    case EnumLit(value, _) => IntToString(value)
    case NumLit(n) => IntToString(n)
    case BigLit(n) => IntToString(n)
    case BoolLit(b) => if b then "true" else "false"
  }

  /** Strings are quoted without escaping: what is between the quotes is the string itself. */
  lemma StringLiteralText(s: string)
    ensures var t := EncodeLiteral(StrLit(s)); |t| == |s| + 2 && t[0] == '"' && t[|t| - 1] == '"' && t[1..|t| - 1] == s
  {
  }

  /** A printable byte is written as its own character; any other byte as `\x` followed by two or three octal digits. */
  lemma ByteTextShape(b: Byte)
    ensures Printable(b) ==> ByteText(b) == [b as char]
    ensures !Printable(b) ==>
      (4 <= |ByteText(b)| <= 5 && ByteText(b)[..2] == "\\x" && DigitsValue(ByteText(b)[2..], 8) == b)
  {
    if !Printable(b) {
      var digits := NatToString(b, 8);
      DigitsOfNat(b, 8);
      if b < 8 {
        assert digits == [DigitChar(b)];
        assert PadStart(digits, 2, '0') == "0" + digits;
        DigitOfChar(b);
        assert ByteText(b)[2..] == "0" + digits;
      } else {
        DivModRadix(b, 8);
        var q := b / 8;
        assert q < 32;
        assert digits == NatToString(q, 8) + [DigitChar(b % 8)];
        if q >= 8 {
          DivModRadix(q, 8);
          assert q / 8 < 4;
          assert NatToString(q, 8) == NatToString(q / 8, 8) + [DigitChar(q % 8)];
        }
        assert 2 <= |digits| <= 3;
        assert ByteText(b)[2..] == digits;
      }
    }
  }

  lemma BytesTextPrefix(bytes: seq<Byte>, i: nat)
    requires i < |bytes|
    ensures BytesText(bytes[..i + 1]) == BytesText(bytes[..i]) + ByteText(bytes[i])
  {
    assert bytes[..i + 1][..i] == bytes[..i];
  }

  lemma BytesLiteralText(bytes: seq<Byte>)
    ensures EncodeLiteral(BytesLit(bytes)) == "\"" + BytesText(bytes) + "\""
  {
  }

  /** One step of the bytes branch of `encodeLiteral`. */
  method EscapeByte(b: Byte) returns (piece: string)
    ensures piece == ByteText(b)
  {
    if b < 32 || b >= 127 {
      piece := "\\x" + PadStart(NatToString(b, 8), 2, '0');
    } else {
      piece := [b as char];
    }
  }

  /** `encodeLiteral` of bytes, as the source builds it: one byte at a time onto the opening quote. */
  method EncodeBytes(bytes: seq<Byte>) returns (s: string)
    ensures s == EncodeLiteral(BytesLit(bytes))
  {
    s := "\"";
    var i := 0;
    while i < |bytes|
      invariant 0 <= i <= |bytes|
      invariant s == "\"" + BytesText(bytes[..i])
    {
      var piece := EscapeByte(bytes[i]);
      BytesTextPrefix(bytes, i);
      ConcatAssoc("\"", BytesText(bytes[..i]), piece);
      s := s + piece;
      i := i + 1;
    }
    assert bytes[..i] == bytes;
    s := s + "\"";
    BytesLiteralText(bytes);
  }

  // ---------------------------------------------------------------------
  // OptionsExpr: a JavaScript Map from option name to literal.

  type OptionPair = (string, Lit)

  /** The state of an option map: the names in first-insertion order, and the value of each. */
  datatype Options = Options(keys: seq<string>, values: map<string, Lit>)
  {
    /** No name twice, and exactly the names that have a value. */
    predicate WellFormed()
    {
      Distinct(keys)
      && (forall k :: k in values ==> k in keys)
      && (forall i :: 0 <= i < |keys| ==> keys[i] in values)
    }
  }

  const NoOptions := Options([], map[])

  /** An option map as the source holds it. */
  type OptionMap = o: Options | o.WellFormed() witness Options([], map[])

  /** No name occurs twice. */
  predicate Distinct(names: seq<string>)
  {
    |names| == 0 || (names[|names| - 1] !in names[..|names| - 1] && Distinct(names[..|names| - 1]))
  }

  lemma DistinctSnoc(names: seq<string>, k: string)
    requires Distinct(names) && k !in names
    ensures Distinct(names + [k])
  {
    assert (names + [k])[..|names|] == names;
  }

  /** `[...map.entries()]`. */
  function Entries(o: Options): (r: seq<OptionPair>)
    requires o.WellFormed()
    ensures |r| == |o.keys|
    ensures forall i :: 0 <= i < |r| ==> r[i] == (o.keys[i], o.values[o.keys[i]])
  {
    seq(|o.keys|, i requires 0 <= i < |o.keys| => (o.keys[i], o.values[o.keys[i]]))
  }

  /** `map.set(k, v)`: a present name keeps its place and takes the new value; a new name goes last. */
  function SetOption(o: Options, k: string, v: Lit): (r: Options)
    requires o.WellFormed()
    ensures r.WellFormed()
  {
    var keys := if k in o.values then o.keys else o.keys + [k];
    assert Distinct(keys) by {
      if k !in o.values { DistinctSnoc(o.keys, k); }
    }
    Options(keys, o.values[k := v])
  }

  /** The last value `attrs` gives to `k`, if any. */
  function LastValue(attrs: seq<OptionPair>, k: string): Option<Lit>
  {
    if |attrs| == 0 then None
    else if attrs[|attrs| - 1].0 == k then Some(attrs[|attrs| - 1].1)
    else LastValue(attrs[..|attrs| - 1], k)
  }

  /** The names of `attrs` not in `seen`, each once, in order of first appearance. */
  function NewKeys(seen: seq<string>, attrs: seq<OptionPair>): seq<string>
    decreases |attrs|
  {
    if |attrs| == 0 then []
    else if attrs[0].0 in seen then NewKeys(seen, attrs[1..])
    else [attrs[0].0] + NewKeys(seen + [attrs[0].0], attrs[1..])
  }

  /** `OptionsExpr.assign`: `set` each pair in order. */
  function AssignAll(o: Options, attrs: seq<OptionPair>): (r: Options)
    requires o.WellFormed()
    ensures r.WellFormed()
    decreases |attrs|
  {
    if |attrs| == 0 then o else AssignAll(SetOption(o, attrs[0].0, attrs[0].1), attrs[1..])
  }

  lemma {:induction false} LastValueCons(attrs: seq<OptionPair>, k: string)
    requires |attrs| > 0
    ensures LastValue(attrs, k) == if LastValue(attrs[1..], k).Some? then LastValue(attrs[1..], k)
      else if attrs[0].0 == k then Some(attrs[0].1) else None
    decreases |attrs|
  {
    if |attrs| > 1 {
      var p := attrs[..|attrs| - 1];
      assert p[1..] == attrs[1..][..|attrs[1..]| - 1];
      LastValueCons(p, k);
    }
  }

  /** After `assign`, a name has the last value `attrs` gives it, or else its old value, or none. */
  lemma {:induction false} AssignAllValue(o: Options, attrs: seq<OptionPair>, k: string)
    requires o.WellFormed()
    ensures var r := AssignAll(o, attrs); var last := LastValue(attrs, k);
      (k in r.values <==> last.Some? || k in o.values)
      && (last.Some? ==> r.values[k] == last.value)
      && (last.None? && k in o.values ==> r.values[k] == o.values[k])
    decreases |attrs|
  {
    if |attrs| > 0 {
      var o1 := SetOption(o, attrs[0].0, attrs[0].1);
      AssignAllValue(o1, attrs[1..], k);
      LastValueCons(attrs, k);
    }
  }

  lemma ConcatAssoc<T>(a: seq<T>, b: seq<T>, c: seq<T>)
    ensures (a + b) + c == a + (b + c)
  {
  }

  /** After `assign`, the old names keep their order and the new names follow in order of first appearance. */
  lemma {:induction false} AssignAllKeys(o: Options, attrs: seq<OptionPair>)
    requires o.WellFormed()
    ensures AssignAll(o, attrs).keys == o.keys + NewKeys(o.keys, attrs)
    decreases |attrs|
  {
    if |attrs| > 0 {
      var o1 := SetOption(o, attrs[0].0, attrs[0].1);
      var k0, rest := attrs[0].0, attrs[1..];
      AssignAllKeys(o1, rest);
      if k0 in o.keys {
        assert k0 in o.values;
        assert NewKeys(o.keys, attrs) == NewKeys(o.keys, rest);
      } else {
        assert k0 !in o.values;
        var later := NewKeys(o.keys + [k0], rest);
        calc {
          AssignAll(o, attrs).keys;
          AssignAll(o1, rest).keys;
          o1.keys + later;
          (o.keys + [k0]) + later;
          { ConcatAssoc(o.keys, [k0], later); }
          o.keys + ([k0] + later);
          o.keys + NewKeys(o.keys, attrs);
        }
      }
    }
  }

  class OptionsExpr {
    var opts: Options

    ghost predicate Valid()
      reads this
    {
      opts.WellFormed()
    }

    /** `new OptionsExpr(attrs)`: a map filled from `attrs`. */
    constructor (attrs: seq<OptionPair>)
      ensures Valid() && opts == AssignAll(NoOptions, attrs)
    {
      opts := NoOptions;
      new;
      Assign(attrs);
    }

    /** `assign(attrs)`: `set` every pair of `attrs`, in order. */
    method Assign(attrs: seq<OptionPair>)
      requires Valid()
      modifies this
      ensures Valid() && opts == AssignAll(old(opts), attrs)
    {
      var i := 0;
      while i < |attrs|
        invariant 0 <= i <= |attrs|
        invariant Valid()
        invariant AssignAll(opts, attrs[i..]) == AssignAll(old(opts), attrs)
      {
        assert attrs[i..][1..] == attrs[i + 1..];
        opts := SetOption(opts, attrs[i].0, attrs[i].1);
        i := i + 1;
      }
    }
  }

  /** `printPair`: the name, parenthesised when it contains a dot, `=`, and the literal's text. */
  function PrintPair(p: OptionPair): string
  {
    (if '.' in p.0 then "(" + p.0 + ")" else p.0) + "=" + EncodeLiteral(p.1)
  }

  /** `short()`: empty for an empty map, otherwise ` [` + the printed entries joined by `, ` + `]`. */
  function Short(o: Options): (r: string)
    requires o.WellFormed()
    ensures r == "" <==> |o.keys| == 0
  {
    if |o.keys| == 0 then ""
    else " [" + Join(seq(|o.keys|, i requires 0 <= i < |o.keys| => PrintPair(Entries(o)[i])), ", ") + "]"
  }

  /** `long(pad)`: one `option key = value;` line per entry, in order, the key written as it is. */
  function Long(o: Options, pad: string): (r: seq<string>)
    requires o.WellFormed()
    ensures |r| == |o.keys|
  {
    seq(|o.keys|, i requires 0 <= i < |o.keys| => pad + "option " + o.keys[i] + " = " + EncodeLiteral(o.values[o.keys[i]]) + ";")
  }

  /** Line `i` of `long(pad)` is the `option` line of entry `i`: the pad, the key, then the value's literal and `;`. */
  lemma LongLines(o: Options, pad: string)
    requires o.WellFormed()
    ensures forall i :: 0 <= i < |o.keys| ==>
      StartsWith(Long(o, pad)[i], pad + "option " + o.keys[i] + " = ")
      && EndsWith(Long(o, pad)[i], EncodeLiteral(o.values[o.keys[i]]) + ";")
  {
    forall i | 0 <= i < |o.keys|
      ensures StartsWith(Long(o, pad)[i], pad + "option " + o.keys[i] + " = ")
      ensures EndsWith(Long(o, pad)[i], EncodeLiteral(o.values[o.keys[i]]) + ";")
    {
      var head, tail := pad + "option " + o.keys[i] + " = ", EncodeLiteral(o.values[o.keys[i]]) + ";";
      assert Long(o, pad)[i] == head + tail;
      Affixes(head, tail);
    }
  }

  /** In `short()`, a dotted name is parenthesised and any other name is written as it is. */
  lemma ShortEntry(o: Options, i: nat)
    requires o.WellFormed() && i < |o.keys|
    ensures |o.keys| == 1 ==> Short(o) == " [" + PrintPair((o.keys[0], o.values[o.keys[0]])) + "]"
    ensures var t := PrintPair((o.keys[i], o.values[o.keys[i]]));
      ('.' in o.keys[i] ==> t == "(" + o.keys[i] + ")=" + EncodeLiteral(o.values[o.keys[i]]))
      && ('.' !in o.keys[i] ==> t == o.keys[i] + "=" + EncodeLiteral(o.values[o.keys[i]]))
  {
  }

  // ---------------------------------------------------------------------
  // Scope naming. A scope is seen through its chain: its own scope name
  // first, then its parent's, up to the root, whose scope name is the file's
  // package or ''.

  /** `qualifiedScopeName` of the first scope of `chain`. */
  function QualifiedScopeName(chain: seq<string>): string
  {
    if |chain| == 0 then ""
    else
      var parent := QualifiedScopeName(chain[1..]);
      if chain[0] == "" then parent
      else if |chain| > 1 && parent != "" then parent + "." + chain[0]
      else chain[0]
  }

  function Reverse<T>(s: seq<T>): (r: seq<T>)
    ensures |r| == |s| && forall i :: 0 <= i < |s| ==> r[i] == s[|s| - 1 - i]
  {
    if |s| == 0 then [] else Reverse(s[1..]) + [s[0]]
  }

  function NonEmpty(s: seq<string>): (r: seq<string>)
    ensures forall i :: 0 <= i < |r| ==> r[i] != ""
  {
    if |s| == 0 then [] else (if s[0] == "" then [] else [s[0]]) + NonEmpty(s[1..])
  }

  lemma {:induction false} NonEmptyAppend(a: seq<string>, b: seq<string>)
    ensures NonEmpty(a + b) == NonEmpty(a) + NonEmpty(b)
  {
    if |a| > 0 {
      assert (a + b)[1..] == a[1..] + b;
      NonEmptyAppend(a[1..], b);
    } else {
      assert a + b == b;
    }
  }

  lemma {:induction false} JoinAppendOne(parts: seq<string>, x: string, sep: string)
    ensures Join(parts + [x], sep) == if |parts| == 0 then x else Join(parts, sep) + sep + x
  {
    if |parts| > 1 {
      assert (parts + [x])[1..] == parts[1..] + [x];
      JoinAppendOne(parts[1..], x, sep);
    } else if |parts| == 1 {
      assert (parts + [x])[1..] == [x];
    }
  }

  lemma JoinNonEmpty(parts: seq<string>, sep: string)
    requires forall i :: 0 <= i < |parts| ==> parts[i] != ""
    ensures Join(parts, sep) == "" <==> |parts| == 0
  {
    if |parts| > 1 {
      assert |Join(parts, sep)| >= |parts[0]|;
    }
  }

  /** The qualified scope name dot-joins the non-empty scope names from the root down. */
  lemma {:induction false} QualifiedScopeNameJoins(chain: seq<string>)
    ensures QualifiedScopeName(chain) == Join(NonEmpty(Reverse(chain)), ".")
  {
    if |chain| > 0 {
      var rest := Reverse(chain[1..]);
      assert Reverse(chain) == rest + [chain[0]];
      QualifiedScopeNameJoins(chain[1..]);
      NonEmptyAppend(rest, [chain[0]]);
      assert NonEmpty([chain[0]]) == if chain[0] == "" then [] else [chain[0]];
      JoinNonEmpty(NonEmpty(rest), ".");
      if chain[0] != "" {
        JoinAppendOne(NonEmpty(rest), chain[0], ".");
      } else {
        assert NonEmpty(rest) + [] == NonEmpty(rest);
      }
      if |chain| == 1 {
        assert rest == [];
      }
    }
  }

  /** `toHierarchy`: the scope names from the root down. */
  function ToHierarchy(chain: seq<string>): (r: seq<string>)
    ensures |r| == |chain|
  {
    Reverse(chain)
  }

  /**
   * `toSemiQualified(other)`: the hierarchy of this scope from the first
   * position where it differs from `other`'s, dot-joined; when it differs
   * nowhere within `other`'s length, this scope's own name. `other` is the
   * hierarchy of the other scope, `[]` when there is none.
   */
  function ToSemiQualified(own: seq<string>, other: seq<string>): string
    requires |own| > 0
  {
    SemiFrom(own, other, 0)
  }

  function SemiFrom(own: seq<string>, other: seq<string>, n: nat): string
    requires |own| > 0
    decreases |other| - n
  {
    if n >= |other| then own[|own| - 1]
    else if n >= |own| || own[n] != other[n] then (if n >= |own| then "" else Join(own[n..], "."))
    else SemiFrom(own, other, n + 1)
  }

  /** The first position below `|other|` where the two hierarchies differ (a missing entry differs from any). */
  predicate FirstMismatch(own: seq<string>, other: seq<string>, n: nat)
  {
    n < |other| && (n >= |own| || own[n] != other[n])
      && forall j :: 0 <= j < n ==> j < |own| && own[j] == other[j]
  }

  /** Below the first mismatch the hierarchies agree. */
  lemma MismatchPrefix(own: seq<string>, other: seq<string>, m: nat, n: nat)
    requires FirstMismatch(own, other, m) && n < m
    ensures n < |own| && n < |other| && own[n] == other[n]
  {
  }

  /**
   * The semi-qualified name is `own[n..]` dot-joined for the first mismatch
   * `n`, and the scope's own name when there is none.
   */
  lemma {:induction false} SemiQualifiedSpec(own: seq<string>, other: seq<string>, n: nat)
    requires |own| > 0
    requires forall j :: 0 <= j < n ==> j < |own| && j < |other| && own[j] == other[j]
    ensures forall m :: n <= m && FirstMismatch(own, other, m) ==> SemiFrom(own, other, n) == (if m >= |own| then "" else Join(own[m..], "."))
    ensures (forall m :: n <= m ==> !FirstMismatch(own, other, m)) ==> SemiFrom(own, other, n) == own[|own| - 1]
    decreases |other| - n
  {
    if n < |other| && n < |own| && own[n] == other[n] {
      SemiQualifiedSpec(own, other, n + 1);
      forall m | n <= m && FirstMismatch(own, other, m)
        ensures n + 1 <= m
      {
        if m == n { assert false; }
      }
    } else if n < |other| {
      assert FirstMismatch(own, other, n);
      forall m | n <= m && FirstMismatch(own, other, m)
        ensures m == n
      {
        if m > n {
          MismatchPrefix(own, other, m, n);
          assert false;
        }
      }
    }
  }

  /** Seen from itself, or from no scope at all, a scope's semi-qualified name is its own name. */
  lemma SemiQualifiedSelf(own: seq<string>)
    requires |own| > 0
    ensures ToSemiQualified(own, own) == own[|own| - 1]
    ensures ToSemiQualified(own, []) == own[|own| - 1]
  {
    SemiQualifiedSpec(own, own, 0);
  }

  /** `resolve(name)`: the nearest definition of `name` in the chain of name tables, innermost first. */
  function Resolve<D>(tables: seq<map<string, D>>, name: string): Option<D>
  {
    if |tables| == 0 then None
    else if name in tables[0] then Some(tables[0][name])
    else Resolve(tables[1..], name)
  }

  /** `resolve` finds `d` exactly when the nearest table naming `name` maps it to `d`. */
  lemma {:induction false} ResolveNearest<D>(tables: seq<map<string, D>>, name: string, d: D)
    ensures Resolve(tables, name) == Some(d) <==>
      exists i :: 0 <= i < |tables| && name in tables[i] && tables[i][name] == d
        && forall j :: 0 <= j < i ==> name !in tables[j]
    ensures Resolve(tables, name).None? <==> forall i :: 0 <= i < |tables| ==> name !in tables[i]
  {
    if |tables| > 0 {
      ResolveNearest(tables[1..], name, d);
      if name !in tables[0] {
        if Resolve(tables, name) == Some(d) {
          var i :| 0 <= i < |tables[1..]| && name in tables[1..][i] && tables[1..][i][name] == d
            && forall j :: 0 <= j < i ==> name !in tables[1..][j];
          assert forall j :: 0 <= j < i + 1 ==> name !in tables[j] by {
            forall j | 0 <= j < i + 1 ensures name !in tables[j] {
              if j > 0 { assert tables[j] == tables[1..][j - 1]; }
            }
          }
        }
        if exists i :: 0 <= i < |tables| && name in tables[i] && tables[i][name] == d
            && forall j :: 0 <= j < i ==> name !in tables[j] {
          var i :| 0 <= i < |tables| && name in tables[i] && tables[i][name] == d
            && forall j :: 0 <= j < i ==> name !in tables[j];
          assert i > 0;
          assert tables[1..][i - 1] == tables[i];
        }
        if forall i :: 0 <= i < |tables[1..]| ==> name !in tables[1..][i] {
          forall i | 0 <= i < |tables| ensures name !in tables[i] {
            if i > 0 { assert tables[i] == tables[1..][i - 1]; }
          }
        }
      }
    }
  }

  // ---------------------------------------------------------------------
  // IndexAllocator

  /** `hi ? Math.max(lo, hi) : lo`: a missing or zero upper bound claims `lo` alone. */
  function RangeEnd(lo: int, hi: Option<int>): int
  {
    if hi.Some? && hi.value != 0 then (if hi.value > lo then hi.value else lo) else lo
  }

  /** The indices `lo..hi`, both included. */
  function Range(lo: int, hi: int): (r: set<int>)
    ensures forall i :: i in r <==> lo <= i <= hi
    decreases hi - lo
  {
    if hi < lo then {} else Range(lo, hi - 1) + {hi}
  }

  class IndexAllocator {
    /** Every index handed out or reserved so far. */
    var taken: set<int>
    /** `lowestFreeHint`: no index below it, from 1, is free. */
    var hint: int

    ghost predicate Valid()
      reads this
    {
      hint >= 1 && forall i :: 1 <= i < hint ==> i in taken
    }

    constructor ()
      ensures Valid() && taken == {} && hint == 1
    {
      taken := {};
      hint := 1;
    }

    /**
     * `mark(lo, hi)`: claims `lo..RangeEnd(lo, hi)` and fails at the first
     * index already taken, the ones before it having been claimed. On
     * success the hint moves past the range only when it lies inside it.
     */
    method Mark(lo: int, hi: Option<int>) returns (ok: bool)
      requires Valid()
      modifies this
      ensures Valid()
      ensures ok <==> old(taken) !! Range(lo, RangeEnd(lo, hi))
      ensures ok ==> taken == old(taken) + Range(lo, RangeEnd(lo, hi))
      ensures ok ==> hint == if lo <= old(hint) <= RangeEnd(lo, hi) then RangeEnd(lo, hi) + 1 else old(hint)
      ensures !ok ==> exists c :: (c in old(taken) && lo <= c <= RangeEnd(lo, hi)
        && taken == old(taken) + Range(lo, c - 1) && forall j :: lo <= j < c ==> j !in old(taken))
    {
      var end := RangeEnd(lo, hi);
      var i := lo;
      while i <= end
        invariant lo <= i <= if end < lo then lo else end + 1
        invariant taken == old(taken) + Range(lo, i - 1)
        invariant forall j :: lo <= j < i ==> j !in old(taken)
        invariant hint == old(hint)
        invariant Valid()
        decreases end - i
      {
        if i in taken {
          assert i in old(taken);
          return false;
        }
        taken := taken + {i};
        i := i + 1;
      }
      if lo <= hint && hint <= end {
        hint := end + 1;
      }
      ok := true;
    }

    /** `next()`: the lowest positive index not taken, which it then claims. */
    method Next() returns (x: int)
      requires Valid()
      modifies this
      ensures Valid()
      ensures x >= 1 && x !in old(taken)
      ensures forall y :: 1 <= y < x ==> y in old(taken)
      ensures x == LowestFree(old(taken), 1)
      ensures taken == old(taken) + {x}
    {
      x := hint;
      while x in taken
        invariant Valid() && taken == old(taken) && hint == old(hint)
        invariant x >= hint
        invariant forall y :: 1 <= y < x ==> y in taken
        decreases TakenAbove(taken, x)
      {
        TakenAboveShrinks(taken, x);
        x := x + 1;
      }
      LowestFreeUnique(taken, 1, x);
      assert Range(x, RangeEnd(x, None)) == {x};
      var ok := Mark(x, None);
    }

    /** `reset()`: nothing taken, hint back to 1. */
    method Reset()
      modifies this
      ensures Valid() && taken == {} && hint == 1
    {
      taken := {};
      hint := 1;
    }
  }

  /** How many taken indices lie at or above `x`: the measure that bounds the scan in `next`. */
  function TakenAbove(taken: set<int>, x: int): nat
  {
    |set i | i in taken && i >= x|
  }

  lemma TakenAboveShrinks(taken: set<int>, x: int)
    requires x in taken
    ensures TakenAbove(taken, x + 1) < TakenAbove(taken, x)
  {
    var a := set i | i in taken && i >= x + 1;
    var b := set i | i in taken && i >= x;
    assert b == a + {x};
    assert x !in a;
  }

  /** The lowest integer at or above `from` that is not taken. */
  function LowestFree(taken: set<int>, from: int): (r: int)
    ensures r >= from && r !in taken
    ensures forall y :: from <= y < r ==> y in taken
    decreases TakenAbove(taken, from)
  {
    if from in taken then
      TakenAboveShrinks(taken, from);
      LowestFree(taken, from + 1)
    else from
  }

  /** Any free index with everything from `from` below it taken is the lowest free one. */
  lemma LowestFreeUnique(taken: set<int>, from: int, x: int)
    requires from <= x && x !in taken
    requires forall y :: from <= y < x ==> y in taken
    ensures LowestFree(taken, from) == x
  {
    var r := LowestFree(taken, from);
    assert r < x ==> r in taken;
    assert x < r ==> x in taken;
  }

  /** Marking 2 and 5, then asking three times, hands out 1, 3 and 4. */
  method NextAfterMarks() returns (a: int, b: int, c: int)
    ensures a == 1 && b == 3 && c == 4
  {
    var alloc := new IndexAllocator();
    var ok := alloc.Mark(2, None);
    ok := alloc.Mark(5, None);
    assert Range(2, 2) == {2} && Range(5, 5) == {5};
    var t := alloc.taken;
    assert t == {2, 5};
    a := alloc.Next();
    assert 1 !in t;
    t := alloc.taken;
    assert t == {1, 2, 5};
    b := alloc.Next();
    assert 3 !in t;
    t := alloc.taken;
    assert t == {1, 2, 3, 5};
    c := alloc.Next();
    assert 4 !in t;
  }
}
