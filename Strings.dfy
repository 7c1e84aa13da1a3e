/**
 * The JavaScript string built-ins the compiler relies on (`join`, `split`,
 * `indexOf`, `trim`, `parseInt`, `toString(radix)`, `padStart`,
 * `replaceAll`), written out on `seq<char>`.
 */
module Strings {
  import opened Wrappers

  /** `parts.join(sep)`. */
  function Join(parts: seq<string>, sep: string): string
  {
    if |parts| == 0 then ""
    else if |parts| == 1 then parts[0]
    else parts[0] + sep + Join(parts[1..], sep)
  }

  /** `s.indexOf(c)`: the first position of `c`, or -1. */
  function IndexOf(s: string, c: char): (r: int)
    ensures r == -1 <==> c !in s
    ensures r != -1 ==> 0 <= r < |s| && s[r] == c && c !in s[..r]
  {
    if |s| == 0 then -1
    else if s[0] == c then 0
    else
      var k := IndexOf(s[1..], c);
      assert s[1..][..if k < 0 then 0 else k] == s[1..if k < 0 then 1 else k + 1];
      if k == -1 then -1 else k + 1
  }

  /** The first occurrence of `c` is where `c` occurs with none before it. */
  lemma IndexOfAt(s: string, c: char, k: nat)
    requires k < |s| && s[k] == c && c !in s[..k]
    ensures IndexOf(s, c) == k
  {
    assert s[k] in s;
  }

  /** `s.split(c)` for a one-character separator: every piece, empty ones included. */
  function Split(s: string, c: char): (r: seq<string>)
    ensures |r| >= 1
    decreases |s|
  {
    var i := IndexOf(s, c);
    if i == -1 then [s] else [s[..i]] + Split(s[i + 1..], c)
  }

  lemma JoinCons(parts: seq<string>, sep: string)
    requires |parts| >= 2
    ensures Join(parts, sep) == parts[0] + sep + Join(parts[1..], sep)
  {
  }

  /** No piece contains the separator. */
  lemma {:induction false} SplitPieces(s: string, c: char)
    ensures forall i :: 0 <= i < |Split(s, c)| ==> c !in Split(s, c)[i]
    decreases |s|
  {
    var i := IndexOf(s, c);
    if i != -1 {
      SplitCons(s, c, i);
      SplitPieces(s[i + 1..], c);
      var parts, rest := Split(s, c), Split(s[i + 1..], c);
      forall j | 0 <= j < |parts| ensures c !in parts[j] {
        if j == 0 {
          assert parts[0] == s[..i];
        } else {
          assert parts[j] == parts[1..][j - 1] == rest[j - 1];
        }
      }
    }
  }

  /** Splitting on `c` and joining again with `c` gives back the text. */
  lemma {:induction false} JoinSplit(s: string, c: char)
    ensures Join(Split(s, c), [c]) == s
    decreases |s|
  {
    var i := IndexOf(s, c);
    if i != -1 {
      var tail := s[i + 1..];
      JoinSplit(tail, c);
      SplitCons(s, c, i);
      JoinCons(Split(s, c), [c]);
      Around(s, i);
    }
  }

  /** The pieces after the first separator, at `i`. */
  lemma SplitCons(s: string, c: char, i: nat)
    requires i < |s| && IndexOf(s, c) == i
    ensures |Split(s, c)| >= 2
    ensures Split(s, c)[0] == s[..i] && Split(s, c)[1..] == Split(s[i + 1..], c)
  {
    var rest := Split(s[i + 1..], c);
    assert Split(s, c) == [s[..i]] + rest;
    assert ([s[..i]] + rest)[1..] == rest;
  }

  lemma Around(s: string, i: nat)
    requires i < |s|
    ensures s == s[..i] + [s[i]] + s[i + 1..]
  {
  }

  /** Joining pieces free of `c` with `c` and splitting on `c` gives back the pieces. */
  lemma {:induction false} SplitJoin(parts: seq<string>, c: char)
    requires |parts| >= 1
    requires forall i :: 0 <= i < |parts| ==> c !in parts[i]
    ensures Split(Join(parts, [c]), c) == parts
    decreases |parts|
  {
    if |parts| == 1 {
      SplitWithout(parts[0], c);
    } else {
      var rest := Join(parts[1..], [c]);
      JoinCons(parts, [c]);
      var s := parts[0] + [c] + rest;
      Pieces(parts[0], c, rest);
      IndexOfAt(s, c, |parts[0]|);
      SplitCons(s, c, |parts[0]|);
      SplitJoin(parts[1..], c);
      assert parts == [parts[0]] + parts[1..];
    }
  }

  /** The three pieces of `a + [c] + b`. */
  lemma Pieces(a: string, c: char, b: string)
    ensures (a + [c] + b)[..|a|] == a && (a + [c] + b)[|a|] == c && (a + [c] + b)[|a| + 1..] == b
  {
  }

  /** The pieces of a text without the separator are the text alone. */
  lemma SplitWithout(s: string, c: char)
    requires c !in s
    ensures Split(s, c) == [s]
  {
  }

  predicate StartsWith(s: string, prefix: string)
  {
    |prefix| <= |s| && s[..|prefix|] == prefix
  }

  predicate EndsWith(s: string, suffix: string)
  {
    |suffix| <= |s| && s[|s| - |suffix|..] == suffix
  }

  /** A concatenation starts with its first part and ends with its second. */
  lemma Affixes(a: string, b: string)
    ensures StartsWith(a + b, a) && EndsWith(a + b, b)
  {
    assert (a + b)[..|a|] == a;
    assert (a + b)[|a|..] == b;
  }

  /** `s.replaceAll(a, b)` for one-character patterns. */
  function ReplaceChar(s: string, a: char, b: char): (r: string)
    ensures |r| == |s|
    ensures forall i :: 0 <= i < |s| ==> r[i] == (if s[i] == a then b else s[i])
  {
    if |s| == 0 then "" else [if s[0] == a then b else s[0]] + ReplaceChar(s[1..], a, b)
  }

  /**
   * The characters `String.prototype.trim` and `parseInt` skip: ECMAScript's
   * white space (tab, vertical tab, form feed, the byte order mark and every
   * space separator of Unicode category Zs) and its line terminators.
   */
  predicate IsSpace(ch: char)
  {
    ch == '\t' || ch == '\U{B}' || ch == '\U{C}' || ch == '\U{FEFF}'
    || ch == '\n' || ch == '\r' || ch == '\U{2028}' || ch == '\U{2029}'
    || IsSpaceSeparator(ch)
  }

  /** Unicode's category Zs. */
  predicate IsSpaceSeparator(ch: char)
  {
    ch == ' ' || ch == '\U{A0}' || ch == '\U{1680}' || '\U{2000}' <= ch <= '\U{200A}'
    || ch == '\U{202F}' || ch == '\U{205F}' || ch == '\U{3000}'
  }

  /** `trim` removes the space separators beyond ASCII and Latin-1 too. */
  lemma TrimsSpaceSeparators(x: string)
    requires |x| > 0 && !IsSpace(x[0]) && !IsSpace(x[|x| - 1])
    ensures Trim("\U{2000}" + x + "\U{205F}") == x
  {
    var t := x + "\U{205F}";
    var s := "\U{2000}" + t;
    assert s == "\U{2000}" + x + "\U{205F}";
    assert s[1..] == t;
    assert TrimStart(s) == TrimStart(t);
    assert t[0] == x[0];
    assert TrimStart(t) == t;
    assert t[..|t| - 1] == x;
    assert TrimEnd(t) == TrimEnd(x);
    assert TrimEnd(x) == x;
  }

  function TrimStart(s: string): (r: string)
    ensures |r| <= |s| && r == s[|s| - |r|..]
    ensures |r| > 0 ==> !IsSpace(r[0])
    ensures forall i :: 0 <= i < |s| - |r| ==> IsSpace(s[i])
  {
    if |s| > 0 && IsSpace(s[0]) then
      var r := TrimStart(s[1..]);
      assert s[1..][|s| - 1 - |r|..] == s[|s| - |r|..];
      assert forall i :: 1 <= i < |s| ==> s[1..][i - 1] == s[i];
      r
    else s
  }

  function TrimEnd(s: string): (r: string)
    ensures |r| <= |s| && r == s[..|r|]
    ensures |r| > 0 ==> !IsSpace(r[|r| - 1])
    ensures forall i :: |r| <= i < |s| ==> IsSpace(s[i])
  {
    if |s| > 0 && IsSpace(s[|s| - 1]) then
      var r := TrimEnd(s[..|s| - 1]);
      assert forall i :: 0 <= i < |s| - 1 ==> s[..|s| - 1][i] == s[i];
      r
    else s
  }

  /** `s.trim()`. */
  function Trim(s: string): string
  {
    TrimEnd(TrimStart(s))
  }

  /** The digit character for `d` in `toString(radix)`: `0-9` then `a-z`. */
  function DigitChar(d: nat): char
    requires d < 36
  {
    if d < 10 then '0' + d as char else 'a' + (d - 10) as char
  }

  /** The value `parseInt` gives a digit character (either case), 36 for any other character. */
  function DigitOf(ch: char): (v: nat)
    ensures v <= 36
  {
    if '0' <= ch <= '9' then ch as int - '0' as int
    else if 'a' <= ch <= 'z' then ch as int - 'a' as int + 10
    else if 'A' <= ch <= 'Z' then ch as int - 'A' as int + 10
    else 36
  }

  predicate IsDigit(ch: char, radix: nat)
  {
    DigitOf(ch) < radix
  }

  lemma DigitOfChar(d: nat)
    requires d < 36
    ensures DigitOf(DigitChar(d)) == d
  {
  }

  lemma DivModRadix(n: nat, radix: nat)
    requires 2 <= radix
    ensures n >= radix ==> 0 < n / radix < n
    ensures n % radix < radix
    ensures n == n / radix * radix + n % radix
  {
    var q, r := n / radix, n % radix;
    assert n == q * radix + r;
    if n >= radix {
      TwiceAtMost(q, radix);
    }
  }

  lemma {:induction false} TwiceAtMost(q: nat, radix: nat)
    requires 2 <= radix
    ensures 2 * q <= q * radix
  {
    if q > 0 {
      TwiceAtMost(q - 1, radix);
      assert (q - 1) * radix == q * radix - radix;
    }
  }

  /** `n.toString(radix)` for a non-negative integer. */
  function NatToString(n: nat, radix: nat): (r: string)
    requires 2 <= radix <= 36
    ensures |r| >= 1
    ensures forall i :: 0 <= i < |r| ==> IsDigit(r[i], radix)
    decreases n
  {
    DivModRadix(n, radix);
    DigitOfChar(n % radix);
    if n < radix then [DigitChar(n)] else NatToString(n / radix, radix) + [DigitChar(n % radix)]
  }

  /** `n.toString()` for an integer. */
  function IntToString(n: int): string
  {
    if n < 0 then "-" + NatToString(-n, 10) else NatToString(n, 10)
  }

  /** `s.padStart(width, c)`. */
  function PadStart(s: string, width: nat, c: char): (r: string)
    ensures |r| == if |s| < width then width else |s|
    ensures EndsWith(r, s)
    ensures forall i :: 0 <= i < |r| - |s| ==> r[i] == c
  {
    if |s| < width then
      var pad := seq(width - |s|, _ => c);
      assert (pad + s)[|pad|..] == s;
      pad + s
    else s
  }

  /** The value of a string of digits read most significant first. */
  function DigitsValue(s: string, radix: nat): nat
    requires 2 <= radix <= 36
  {
    if |s| == 0 then 0 else DigitsValue(s[..|s| - 1], radix) * radix + DigitOf(s[|s| - 1])
  }

  /** The length of the longest prefix of `s` made of base-`radix` digits. */
  function DigitRun(s: string, radix: nat): (k: nat)
    requires 2 <= radix <= 36
    ensures k <= |s|
    ensures forall i :: 0 <= i < k ==> IsDigit(s[i], radix)
    ensures k < |s| ==> !IsDigit(s[k], radix)
  {
    if |s| > 0 && IsDigit(s[0], radix) then 1 + DigitRun(s[1..], radix) else 0
  }

  /**
   * `parseInt(s)` without a radix argument: leading white space, an optional
   * sign, an optional `0x`/`0X` prefix selecting base 16, then the longest run
   * of digits. `None` is the source's NaN.
   */
  function ParseInt(s: string): Option<int>
  {
    var t := TrimStart(s);
    if |t| > 0 && (t[0] == '-' || t[0] == '+') then
      match ParseMagnitude(t[1..])
      case None => None
      case Some(v) => Some(if t[0] == '-' then -v else v)
    else ParseMagnitude(t)
  }

  /** The unsigned part of `parseInt`: a `0x` prefix selects base 16. */
  function ParseMagnitude(u: string): (r: Option<int>)
    ensures r.Some? ==> r.value >= 0
  {
    var hex := |u| >= 2 && u[0] == '0' && (u[1] == 'x' || u[1] == 'X');
    var radix := if hex then 16 else 10;
    var digits := if hex then u[2..] else u;
    var k := DigitRun(digits, radix);
    if k == 0 then None else Some(DigitsValue(digits[..k], radix) as int)
  }

  lemma {:induction false} DigitsOfNat(n: nat, radix: nat)
    requires 2 <= radix <= 36
    ensures DigitsValue(NatToString(n, radix), radix) == n
    decreases n
  {
    var r := NatToString(n, radix);
    DivModRadix(n, radix);
    DigitOfChar(n % radix);
    if n < radix {
      DigitOfChar(n);
    } else {
      var hi := NatToString(n / radix, radix);
      DigitsOfNat(n / radix, radix);
      assert r == hi + [DigitChar(n % radix)];
      assert r[..|r| - 1] == hi;
      calc {
        DigitsValue(r, radix);
        DigitsValue(hi, radix) * radix + DigitOf(DigitChar(n % radix));
        (n / radix) * radix + n % radix;
      }
    }
  }

  lemma DigitRunAll(s: string, radix: nat)
    requires 2 <= radix <= 36
    requires forall i :: 0 <= i < |s| ==> IsDigit(s[i], radix)
    ensures DigitRun(s, radix) == |s|
    decreases |s|
  {
    if |s| > 0 {
      DigitRunAll(s[1..], radix);
    }
  }

  lemma ParseDecimal(digits: string)
    requires |digits| >= 1
    requires forall i :: 0 <= i < |digits| ==> IsDigit(digits[i], 10)
    ensures ParseMagnitude(digits) == Some(DigitsValue(digits, 10) as int)
  {
    DigitRunAll(digits, 10);
    assert digits[..|digits|] == digits;
    assert |digits| >= 2 ==> digits[1] != 'x' && digits[1] != 'X' by {
      if |digits| >= 2 { assert IsDigit(digits[1], 10); }
    }
  }

  lemma ParseNoSign(t: string)
    requires |t| >= 1 && '0' <= t[0] <= '9'
    ensures ParseInt(t) == ParseMagnitude(t)
  {
    NoLeadingSpace(t);
  }

  /** A text that starts with something other than a space is its own `trimStart`. */
  lemma NoLeadingSpace(s: string)
    requires |s| > 0 && !IsSpace(s[0])
    ensures TrimStart(s) == s
  {
  }

  lemma ParseMinus(digits: string, v: int)
    requires |digits| >= 1
    requires ParseMagnitude(digits) == Some(v)
    ensures ParseInt(['-'] + digits) == Some(-v)
  {
    var s := ['-'] + digits;
    assert s[0] == '-' && s[1..] == digits;
    NoLeadingSpace(s);
  }

  /** `parseInt` reads back every decimal integer that `toString` writes. */
  lemma ParseIntOfString(n: int)
    ensures ParseInt(IntToString(n)) == Some(n)
  {
    var m: nat := if n < 0 then -n else n;
    var digits := NatToString(m, 10);
    DigitsOfNat(m, 10);
    ParseDecimal(digits);
    if n < 0 {
      ParseMinus(digits, m);
      assert IntToString(n) == ['-'] + digits;
    } else {
      assert IsDigit(digits[0], 10);
      ParseNoSign(digits);
    }
  }
}
