/**
 * The naming helpers of lib/compiler/utils.ts: rendering a flag set against
 * an enum table, the visible parent of a symbol, the dotted name of a symbol,
 * and the scope and local name a symbol resolves to.
 */
module Utils {
  import opened Wrappers
  import opened Strings
  import opened Ts

  // ---------------------------------------------------------------- printFlags

  /** A 32-bit integer of JavaScript's bitwise operators, as the set of its one bits. */
  type Bits = s: set<nat> | forall i :: i in s ==> i < 32

  /**
   * One entry of an enum object as `Object.entries` lists it: the numeric
   * members, and the reverse-mapping entries TypeScript adds (which carry
   * names and are skipped).
   */
  datatype EnumValue = NumberValue(bits: Bits) | NameValue(text: string)

  /**
   * The names listed for the entries of `table`, in order, and the bits left
   * over: an entry's name is listed when its bits meet the bits still left,
   * and its bits are then cleared.
   */
  function Listed(fl: Bits, table: seq<(string, EnumValue)>): (r: (seq<string>, Bits))
  {
    if |table| == 0 then ([], fl)
    else
      var (names, rest) := Listed(fl, table[..|table| - 1]);
      var (key, value) := table[|table| - 1];
      if value.NumberValue? && rest * value.bits != {} then (names + [key], rest - value.bits)
      else (names, rest)
  }

  function Pow2(n: nat): (r: nat)
    ensures r >= 1
  {
    if n == 0 then 1 else 2 * Pow2(n - 1)
  }

  /** The unsigned value of the bits below `n`. */
  function BitsValue(b: Bits, n: nat): (r: nat)
    ensures r < Pow2(n)
    ensures r == 0 <==> forall i :: i in b ==> i >= n
  {
    if n == 0 then 0 else BitsValue(b, n - 1) + (if n - 1 in b then Pow2(n - 1) else 0)
  }

  /**
   * `fl.toString(16)` of the signed 32-bit value of the bits, which is what
   * `fl` holds once `fl &= ~value` has run. When no entry matched, the source
   * prints `fl` as it was given, which differs from this only for a flag at
   * bit 31: TypeScript's type and symbol flags stay below it, and the text is
   * only logged.
   */
  function HexText(b: Bits): (r: string)
    ensures |r| >= 1
  {
    var u := BitsValue(b, 32);
    if u < Pow2(31) then NatToString(u, 16) else "-" + NatToString(Pow2(32) - u, 16)
  }

  /** The words `printFlags` joins: the listed names, then `0x<hex>` of any leftover bits. */
  function FlagWords(fl: Bits, table: seq<(string, EnumValue)>): (r: seq<string>)
    ensures |r| == |Listed(fl, table).0| + (if Listed(fl, table).1 == {} then 0 else 1)
    ensures forall i :: 0 <= i < |Listed(fl, table).0| ==> r[i] == Listed(fl, table).0[i]
    ensures Listed(fl, table).1 != {} ==> r[|r| - 1] == "0x" + HexText(Listed(fl, table).1)
  {
    var (names, rest) := Listed(fl, table);
    if rest != {} then names + ["0x" + HexText(rest)] else names
  }

  /** `printFlags(fl, base)`. */
  method PrintFlags(fl: Bits, table: seq<(string, EnumValue)>) returns (s: string)
    ensures s == Join(FlagWords(fl, table), " | ")
  {
    var flags: seq<string> := [];
    var left := fl;
    for i := 0 to |table|
      invariant (flags, left) == Listed(fl, table[..i])
    {
      assert table[..i + 1][..i] == table[..i];
      var (key, value) := table[i];
      if value.NumberValue? && left * value.bits != {} {
        flags := flags + [key];
        left := left - value.bits;
      }
    }
    assert table[..|table|] == table;
    if left != {} {
      flags := flags + ["0x" + HexText(left)];
    }
    s := Join(flags, " | ");
  }

  /** Bits are only ever cleared: what is left is part of what was given. */
  lemma {:induction false} ListedWithin(fl: Bits, table: seq<(string, EnumValue)>)
    ensures Listed(fl, table).1 <= fl
  {
    if |table| > 0 {
      ListedWithin(fl, table[..|table| - 1]);
    }
  }

  /** No leftover bit belongs to any numeric entry of the table. */
  lemma {:induction false} ListedLeavesNoEntry(fl: Bits, table: seq<(string, EnumValue)>)
    ensures forall i :: 0 <= i < |table| && table[i].1.NumberValue? ==> Listed(fl, table).1 !! table[i].1.bits
  {
    if |table| > 0 {
      var pre := table[..|table| - 1];
      ListedLeavesNoEntry(fl, pre);
      ListedLast(fl, table);
      forall i | 0 <= i < |table| && table[i].1.NumberValue?
        ensures Listed(fl, table).1 !! table[i].1.bits
      {
        if i < |pre| {
          assert table[i] == pre[i];
        }
      }
    }
  }

  /** The last entry leaves a part of the bits before it, and none of its own. */
  lemma ListedLast(fl: Bits, table: seq<(string, EnumValue)>)
    requires |table| > 0
    ensures Listed(fl, table).1 <= Listed(fl, table[..|table| - 1]).1
    ensures table[|table| - 1].1.NumberValue? ==> Listed(fl, table).1 !! table[|table| - 1].1.bits
  {
    var rest := Listed(fl, table[..|table| - 1]).1;
    var value := table[|table| - 1].1;
    if value.NumberValue? && rest * value.bits != {} {
      assert Listed(fl, table).1 == rest - value.bits;
    } else {
      assert Listed(fl, table).1 == rest;
      if value.NumberValue? {
        assert forall x :: x in rest && x in value.bits ==> x in rest * value.bits;
      }
    }
  }

  /** Numeric entries no two of which share a bit, as single-bit flag tables are. */
  predicate DisjointBits(table: seq<(string, EnumValue)>)
  {
    forall i, j :: 0 <= i < j < |table| && table[i].1.NumberValue? && table[j].1.NumberValue? ==>
      table[i].1.bits !! table[j].1.bits
  }

  /** The names of the numeric entries whose bits meet `fl`, in table order. */
  function Meeting(fl: Bits, table: seq<(string, EnumValue)>): seq<string>
  {
    if |table| == 0 then []
    else
      var (key, value) := table[|table| - 1];
      Meeting(fl, table[..|table| - 1]) + (if value.NumberValue? && fl * value.bits != {} then [key] else [])
  }

  /** Bits no entry has are never cleared. */
  lemma {:induction false} ListedKeeps(fl: Bits, table: seq<(string, EnumValue)>, v: set<nat>)
    requires forall i :: 0 <= i < |table| && table[i].1.NumberValue? ==> table[i].1.bits !! v
    ensures Listed(fl, table).1 * v == fl * v
  {
    if |table| > 0 {
      var pre := table[..|table| - 1];
      forall i | 0 <= i < |pre| && pre[i].1.NumberValue? ensures pre[i].1.bits !! v {
        assert pre[i] == table[i];
      }
      ListedKeeps(fl, pre, v);
    }
  }

  /** With entries that share no bits, a name is listed exactly when its bits meet the given flags. */
  lemma {:induction false} ListedDisjoint(fl: Bits, table: seq<(string, EnumValue)>)
    requires DisjointBits(table)
    ensures Listed(fl, table).0 == Meeting(fl, table)
  {
    if |table| > 0 {
      var pre, last := table[..|table| - 1], table[|table| - 1];
      assert DisjointBits(pre) by {
        forall i, j | 0 <= i < j < |pre| ensures pre[i] == table[i] && pre[j] == table[j] { }
      }
      ListedDisjoint(fl, pre);
      if last.1.NumberValue? {
        forall i | 0 <= i < |pre| && pre[i].1.NumberValue? ensures pre[i].1.bits !! last.1.bits {
          assert pre[i] == table[i];
        }
        ListedKeeps(fl, pre, last.1.bits);
      }
    }
  }

  // ----------------------------------------------------------- symbol chains

  /** A parent is shown when it has a name that is not a quoted module name. */
  predicate Named(p: Symbol)
  {
    |p.name| > 0 && p.name[0] != '"'
  }

  /** `getParentSymbol` of a present symbol. */
  function ParentOf(s: Symbol): (r: Option<Symbol>)
    ensures r.Some? <==> s.parent.Some? && Named(s.parent.value)
    ensures r.Some? ==> r == s.parent
  {
    if s.parent.Some? && Named(s.parent.value) then s.parent else None
  }

  /** `getParentSymbol(s)`: nothing for no symbol, otherwise its shown parent. */
  function ParentSymbol(s: Option<Symbol>): (r: Option<Symbol>)
    ensures r.Some? ==> s.Some? && s.value.parent == r && Named(r.value)
    ensures s.Some? && s.value.parent.Some? && Named(s.value.parent.value) ==> r == s.value.parent
  {
    if s.None? then None else ParentOf(s.value)
  }

  /** The shown ancestors of `s`, nearest first: the walk of `getParentSymbol` until it gives nothing. */
  function Ancestors(s: Symbol): (r: seq<Symbol>)
    ensures forall i :: 0 <= i < |r| ==> Named(r[i])
    decreases s
  {
    match ParentOf(s)
    case None => []
    case Some(p) => [p] + Ancestors(p)
  }

  /** The `i`-th ancestor, or nothing past the last: where the parent walk stands after `i` steps. */
  function At(anc: seq<Symbol>, i: nat): Option<Symbol>
  {
    if i < |anc| then Some(anc[i]) else None
  }

  /** The symbols a parent walk standing at `p` still visits: `p` itself and its shown ancestors. */
  function Walk(p: Option<Symbol>): seq<Symbol>
  {
    match p
    case None => []
    case Some(a) => [a] + Ancestors(a)
  }

  /** Each step of the parent walk moves to the next ancestor, and it stops after the last. */
  lemma {:induction false} AncestorSteps(s: Symbol)
    ensures Walk(ParentOf(s)) == Ancestors(s)
    ensures forall i :: 0 <= i < |Ancestors(s)| ==> ParentOf(Ancestors(s)[i]) == At(Ancestors(s), i + 1)
    decreases s
  {
    match ParentOf(s)
    case None =>
    case Some(p) =>
      AncestorSteps(p);
      var anc := Ancestors(s);
      assert anc == [p] + Ancestors(p);
      forall i | 0 <= i < |anc| ensures ParentOf(anc[i]) == At(anc, i + 1) {
        if i > 0 {
          assert anc[i] == Ancestors(p)[i - 1];
        }
      }
  }

  /** A walk from the `i`-th ancestor visits the ancestors from `i` on. */
  lemma {:induction false} WalkFrom(s: Symbol, i: nat)
    requires i <= |Ancestors(s)|
    ensures Walk(At(Ancestors(s), i)) == Ancestors(s)[i..]
    decreases s
  {
    var anc := Ancestors(s);
    if i < |anc| {
      match ParentOf(s)
      case Some(p) =>
        assert anc == [p] + Ancestors(p);
        if i == 0 {
          assert anc[0..] == anc;
        } else {
          WalkFrom(p, i - 1);
          assert anc[i..] == Ancestors(p)[i - 1..];
          assert anc[i] == Ancestors(p)[i - 1];
        }
    }
  }

  /** The steps of a walk standing at `p`. */
  lemma WalkSteps(p: Option<Symbol>)
    ensures forall i :: 0 <= i < |Walk(p)| ==> ParentOf(Walk(p)[i]) == At(Walk(p), i + 1)
  {
    if p.Some? {
      var w := Walk(p);
      AncestorSteps(p.value);
      forall i | 0 <= i < |w| ensures ParentOf(w[i]) == At(w, i + 1) {
        if i > 0 {
          assert w[i] == Ancestors(p.value)[i - 1];
        }
      }
    }
  }

  /** One step of a walk: the parent of its `i`-th symbol is where it stands next. */
  lemma WalkStep(p: Option<Symbol>, i: nat)
    requires i < |Walk(p)|
    ensures ParentOf(Walk(p)[i]) == At(Walk(p), i + 1)
  {
    WalkSteps(p);
  }

  /** The names of some ancestors, outermost first. */
  function OutwardNames(anc: seq<Symbol>): (r: seq<string>)
    ensures |r| == |anc| && forall i :: 0 <= i < |anc| ==> r[i] == anc[|anc| - 1 - i].name
  {
    seq(|anc|, i requires 0 <= i < |anc| => anc[|anc| - 1 - i].name)
  }

  /** `base` prefixed by the names of `anc`, outermost first, joined by `sep`. */
  function Prefixed(anc: seq<Symbol>, base: string, sep: string): string
  {
    Join(OutwardNames(anc) + [base], sep)
  }

  /** Walking one ancestor further puts its name in front. */
  lemma PrefixedSnoc(anc: seq<Symbol>, x: Symbol, base: string, sep: string)
    ensures Prefixed(anc + [x], base, sep) == x.name + sep + Prefixed(anc, base, sep)
  {
    var parts := OutwardNames(anc + [x]) + [base];
    assert parts == [x.name] + (OutwardNames(anc) + [base]);
    JoinCons(parts, sep);
    assert parts[1..] == OutwardNames(anc) + [base];
  }

  /** One more step of a walk over `w`. */
  lemma PrefixStep(w: seq<Symbol>, i: nat, base: string, sep: string)
    requires i < |w|
    ensures Prefixed(w[..i + 1], base, sep) == w[i].name + sep + Prefixed(w[..i], base, sep)
  {
    PrefixedSnoc(w[..i], w[i], base, sep);
    assert w[..i + 1] == w[..i] + [w[i]];
  }

  /** The loop `while (parent) { q = parent.name + sep + q; parent = getParentSymbol(parent); }`. */
  method PrefixLoop(start: Option<Symbol>, base: string, sep: string) returns (q: string)
    ensures q == Prefixed(Walk(start), base, sep)
  {
    ghost var w := Walk(start);
    q := base;
    var parent := start;
    ghost var i := 0;
    while parent.Some?
      invariant i <= |w| && parent == At(w, i)
      invariant q == Prefixed(w[..i], base, sep)
      decreases |w| - i
    {
      WalkStep(start, i);
      PrefixStep(w, i, base, sep);
      q := parent.value.name + sep + q;
      parent := ParentOf(parent.value);
      i := i + 1;
    }
    assert w[..|w|] == w;
  }

  // -------------------------------------------------------- getQualifiedName

  /** The dotted name of a symbol: its shown ancestors' names, outermost first, then its own. */
  function Qualified(s: Symbol): string
  {
    Prefixed(Ancestors(s), s.name, ".")
  }

  /** `getQualifiedName(s, id)`; a thrown error is `Err`. */
  function QualifiedName(s: Option<Symbol>, id: Option<string>): Result<string>
  {
    if s.None? then Ok(if id.Some? then id.value else "")
    else if id.Some? && s.value.name != id.value then
      match ParentOf(s.value)
      case Some(p) =>
        if p.name == id.value then Ok(Qualified(p) + "." + id.value)
        else Err("Mismatched names: " + Qualified(s.value) + " != " + id.value)
      case None => Err("Mismatched names: " + Qualified(s.value) + " != " + id.value)
    else Ok(Qualified(s.value))
  }

  /** The `while (parent)` loop of `getQualifiedName`. */
  method QualifiedLoop(s: Symbol) returns (name: string)
    ensures name == Qualified(s)
  {
    AncestorSteps(s);
    name := PrefixLoop(ParentOf(s), s.name, ".");
  }

  /** `getQualifiedName(s, id)`. */
  method GetQualifiedName(s: Option<Symbol>, id: Option<string>) returns (r: Result<string>)
    ensures r == QualifiedName(s, id)
  {
    if s.None? {
      return Ok(if id.Some? then id.value else "");
    }
    var parent := ParentOf(s.value);
    if id.Some? && s.value.name != id.value {
      if parent.Some? && parent.value.name == id.value {
        var q := QualifiedLoop(parent.value);
        return Ok(q + "." + id.value);
      }
      var q := QualifiedLoop(s.value);
      return Err("Mismatched names: " + q + " != " + id.value);
    }
    var q := QualifiedLoop(s.value);
    r := Ok(q);
  }

  /** No name in the chain has a dot: the qualified name splits back into the ancestors' names and the symbol's own. */
  lemma QualifiedSplits(s: Symbol)
    requires '.' !in s.name && forall a :: a in Ancestors(s) ==> '.' !in a.name
    ensures Split(Qualified(s), '.') == OutwardNames(Ancestors(s)) + [s.name]
  {
    var anc := Ancestors(s);
    var parts := OutwardNames(anc) + [s.name];
    forall i | 0 <= i < |parts| ensures '.' !in parts[i] {
      if i < |anc| {
        assert anc[|anc| - 1 - i] in anc;
      }
    }
    SplitJoin(parts, '.');
  }

  /** A mismatched identifier names the parent or is refused; a matching one gives the dotted name. */
  lemma QualifiedNameCases(s: Symbol, id: Option<string>)
    ensures id.None? || id.value == s.name ==> QualifiedName(Some(s), id) == Ok(Qualified(s))
    ensures id.Some? && id.value != s.name ==>
      (QualifiedName(Some(s), id).Ok? <==> s.parent.Some? && Named(s.parent.value) && s.parent.value.name == id.value)
    ensures QualifiedName(Some(s), id).Ok? && id.Some? && id.value != s.name ==>
      QualifiedName(Some(s), id).value == Qualified(s.parent.value) + "." + s.parent.value.name
  {
  }

  // ------------------------------------------------------------ resolveSymbol

  /** What `symbolMap` holds for a symbol: a scope (by its identity), or another definition. */
  datatype Registered = ScopeEntry(scope: nat) | OtherEntry

  /** The scope and names a symbol resolves to. */
  datatype Resolution = Resolution(scope: nat, name: string, qualifiedName: string)

  predicate IsScopeOf(smap: map<Symbol, Registered>, a: Symbol)
  {
    a in smap && smap[a].ScopeEntry?
  }

  /** The position of the nearest ancestor registered as a scope, `|anc|` when there is none. */
  function FirstScoped(anc: seq<Symbol>, smap: map<Symbol, Registered>): (k: nat)
    ensures k <= |anc|
    ensures forall j :: 0 <= j < k ==> !IsScopeOf(smap, anc[j])
    ensures k < |anc| ==> IsScopeOf(smap, anc[k])
  {
    if |anc| == 0 then 0 else if IsScopeOf(smap, anc[0]) then 0 else 1 + FirstScoped(anc[1..], smap)
  }

  /**
   * Where a present symbol resolves: the nearest ancestor registered as a
   * scope gives the scope (the initial file when there is none); the name is
   * the symbol's own behind the names of the ancestors passed on the way,
   * joined by `_`; the qualified name puts in front of it only the ancestors
   * beyond that scope, dot-joined.
   */
  function ResolveChain(initial: nat, smap: map<Symbol, Registered>, s: Symbol): Resolution
  {
    var anc := Ancestors(s);
    var k := FirstScoped(anc, smap);
    Resolution(
      if k < |anc| then smap[anc[k]].scope else initial,
      Prefixed(anc[..k], s.name, "_"),
      Prefixed(anc[if k < |anc| then k + 1 else k..], s.name, "."))
  }

  /** `resolveSymbol(initial, sym, id)`; a thrown error is `Err`. */
  function Resolve(initial: nat, smap: map<Symbol, Registered>, sym: Option<Symbol>, id: Option<string>): Result<Resolution>
  {
    if sym.None? then
      if id.None? then Err("No symbol or identifier provided") else Ok(Resolution(initial, id.value, id.value))
    else if id.Some? && sym.value.name != id.value then
      match ParentOf(sym.value)
      case Some(p) =>
        if p.name == id.value then Ok(ResolveChain(initial, smap, p))
        else Err("Mismatched names: " + Qualified(sym.value) + " != " + id.value)
      case None => Err("Mismatched names: " + Qualified(sym.value) + " != " + id.value)
    else Ok(ResolveChain(initial, smap, sym.value))
  }

  /** Before the nearest scope, an ancestor is a scope exactly when it is that one. */
  lemma ScopedAt(anc: seq<Symbol>, smap: map<Symbol, Registered>, i: nat)
    requires i <= FirstScoped(anc, smap) && i < |anc|
    ensures IsScopeOf(smap, anc[i]) <==> i == FirstScoped(anc, smap)
  {
  }

  /** The first `while (parent)` loop of `resolveSymbol`: out to the nearest registered scope. */
  method ScopeLoop(initial: nat, smap: map<Symbol, Registered>, sym: Symbol)
    returns (scope: nat, name: string, parent: Option<Symbol>)
    ensures var anc := Ancestors(sym); var k := FirstScoped(anc, smap);
      && scope == (if k < |anc| then smap[anc[k]].scope else initial)
      && name == Prefixed(anc[..k], sym.name, "_")
      && parent == At(anc, if k < |anc| then k + 1 else k)
  {
    ghost var anc := Ancestors(sym);
    ghost var k := FirstScoped(anc, smap);
    AncestorSteps(sym);
    name := sym.name;
    scope := initial;
    parent := ParentOf(sym);
    ghost var i := 0;
    while parent.Some?
      invariant i <= k && parent == At(anc, i)
      invariant name == Prefixed(anc[..i], sym.name, "_") && scope == initial
      decreases |anc| - i
    {
      var prev := parent.value;
      parent := ParentOf(prev);
      ScopedAt(anc, smap, i);
      if prev in smap && smap[prev].ScopeEntry? {
        scope := smap[prev].scope;
        return;
      }
      PrefixStep(anc, i, sym.name, "_");
      name := prev.name + "_" + name;
      i := i + 1;
    }
  }

  /** The two `while (parent)` loops of `resolveSymbol`. */
  method ResolveLoops(initial: nat, smap: map<Symbol, Registered>, sym: Symbol) returns (res: Resolution)
    ensures res == ResolveChain(initial, smap, sym)
  {
    var scope, name, parent := ScopeLoop(initial, smap, sym);
    ghost var anc := Ancestors(sym);
    ghost var k := FirstScoped(anc, smap);
    WalkFrom(sym, if k < |anc| then k + 1 else k);
    var qualifiedName := PrefixLoop(parent, sym.name, ".");
    res := Resolution(scope, name, qualifiedName);
  }

  /** `resolveSymbol(initial, sym, id)`. */
  method ResolveSymbol(initial: nat, smap: map<Symbol, Registered>, sym: Option<Symbol>, id: Option<string>)
    returns (r: Result<Resolution>)
    ensures r == Resolve(initial, smap, sym, id)
  {
    if sym.None? {
      if id.None? {
        return Err("No symbol or identifier provided");
      }
      return Ok(Resolution(initial, id.value, id.value));
    }
    var parent := ParentOf(sym.value);
    if id.Some? && sym.value.name != id.value {
      if parent.Some? && parent.value.name == id.value {
        var res := ResolveLoops(initial, smap, parent.value);
        return Ok(res);
      }
      var q := QualifiedLoop(sym.value);
      return Err("Mismatched names: " + q + " != " + id.value);
    }
    var res := ResolveLoops(initial, smap, sym.value);
    r := Ok(res);
  }

  /** With no ancestor registered as a scope, the symbol lands in the initial file under all its ancestors' names. */
  lemma ResolveUnscoped(initial: nat, smap: map<Symbol, Registered>, s: Symbol)
    requires forall a :: a in Ancestors(s) ==> !IsScopeOf(smap, a)
    ensures ResolveChain(initial, smap, s) ==
      Resolution(initial, Join(OutwardNames(Ancestors(s)) + [s.name], "_"), s.name)
  {
    var anc := Ancestors(s);
    var k := FirstScoped(anc, smap);
    assert anc[..k] == anc;
    assert Prefixed(anc[k..], s.name, ".") == Join([s.name], ".") by {
      assert OutwardNames(anc[k..]) == [];
    }
  }

  /** A symbol whose own parent is a registered scope resolves into it under its own name. */
  lemma ResolveInParent(initial: nat, smap: map<Symbol, Registered>, s: Symbol, p: Symbol)
    requires ParentOf(s) == Some(p) && IsScopeOf(smap, p)
    ensures ResolveChain(initial, smap, s).scope == smap[p].scope
    ensures ResolveChain(initial, smap, s).name == s.name
    ensures ResolveChain(initial, smap, s).qualifiedName == Prefixed(Ancestors(p), s.name, ".")
  {
    var anc := Ancestors(s);
    assert anc == [p] + Ancestors(p);
    assert anc[..0] == [];
    assert anc[1..] == Ancestors(p);
  }
}
