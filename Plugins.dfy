/**
 * The plugin half of the compiler driver: the parameter string a code
 * generator plugin is sent, the grouping of the descriptor set's files by
 * package (one request per plugin and package), and the handling of a
 * generator's response. Spawning the plugin and reading its output are
 * outside the model: a response enters as a value.
 */
module Plugins {
  import opened Wrappers
  import opened Strings
  import opened Udts
  import opened Descriptors

  // ---------------------------------------------------------------------
  // The parameter.

  /** A plugin option's value, as the option schema admits it; a number carries the text JavaScript gives it. */
  datatype Literal = Str(s: string) | Bool(b: bool) | Null | Num(text: string)

  /** The value in a template literal. */
  function Text(v: Literal): string
  {
    match v
    case Str(s) => s
    case Bool(b) => if b then "true" else "false"
    case Null => "null"
    case Num(t) => t
  }

  /** A plugin's entry: the options other than `exec` and `outDir`, in entry order. */
  datatype PluginOptions = PluginOptions(exec: Option<string>, outDir: string, options: seq<(string, Literal)>)

  /** The `k=v` text of each option. */
  function Pairs(opts: seq<(string, Literal)>): (r: seq<string>)
    ensures |r| == |opts| && forall i :: 0 <= i < |opts| ==> r[i] == opts[i].0 + "=" + Text(opts[i].1)
  {
    seq(|opts|, i requires 0 <= i < |opts| => opts[i].0 + "=" + Text(opts[i].1))
  }

  /** `Object.entries(opts.options).map(([k, v]) => `${k}=${v}`).join(',')`. */
  function Parameter(opts: seq<(string, Literal)>): string
  {
    Join(Pairs(opts), ",")
  }

  /** How a plugin reads the parameter back: split on `,`, each piece at its first `=`. */
  function ReadParameter(p: string): seq<(string, string)>
  {
    var pieces := Split(p, ',');
    seq(|pieces|, i requires 0 <= i < |pieces| => AtFirst(pieces[i]))
  }

  function AtFirst(piece: string): (string, string)
  {
    var k := IndexOf(piece, '=');
    if k == -1 then (piece, "") else (piece[..k], piece[k + 1..])
  }

  /**
   * The parameter carries every option, in order: reading it back gives each
   * key and the text of its value, as long as no key holds `=` or `,` and no
   * value's text holds `,`.
   */
  lemma ParameterRoundTrip(opts: seq<(string, Literal)>)
    requires |opts| >= 1
    requires forall i :: 0 <= i < |opts| ==> '=' !in opts[i].0 && ',' !in opts[i].0 && ',' !in Text(opts[i].1)
    ensures ReadParameter(Parameter(opts)) == seq(|opts|, i requires 0 <= i < |opts| => (opts[i].0, Text(opts[i].1)))
  {
    var ps := Pairs(opts);
    forall i | 0 <= i < |ps| ensures ',' !in ps[i] {
      assert ps[i] == opts[i].0 + "=" + Text(opts[i].1);
    }
    SplitJoin(ps, ',');
    forall i | 0 <= i < |opts| ensures AtFirst(ps[i]) == (opts[i].0, Text(opts[i].1)) {
      var k, v := opts[i].0, Text(opts[i].1);
      Pieces(k, '=', v);
      IndexOfAt(ps[i], '=', |k|);
    }
  }

  // ---------------------------------------------------------------------
  // One request per plugin and package.

  /** The groups of `byPackage`, in the order their packages first appear. */
  type Groups = seq<(string, seq<Option<string>>)>

  /** Where the group of package `key` is, if there is one. */
  function GroupAt(gs: Groups, key: string): (r: Option<nat>)
    ensures r.Some? ==> r.value < |gs| && gs[r.value].0 == key
    ensures r.None? ==> forall i :: 0 <= i < |gs| ==> gs[i].0 != key
  {
    if |gs| == 0 then None
    else if gs[|gs| - 1].0 == key then Some(|gs| - 1)
    else GroupAt(gs[..|gs| - 1], key)
  }

  /** `set.push(name)` into the group of `key`, made when missing. */
  function AddTo(gs: Groups, key: string, name: Option<string>): Groups
  {
    match GroupAt(gs, key)
    case None => gs + [(key, [name])]
    case Some(i) => gs[i := (key, gs[i].1 + [name])]
  }

  /** Files of an ignored package are skipped; a file without a package counts as package `''`. */
  predicate Skipped(fd: FileDesc, ignore: seq<string>)
  {
    fd.package != "" && fd.package in ignore
  }

  /** The grouping loop over the descriptor set, in file order. */
  function Grouped(fds: seq<FileDesc>, ignore: seq<string>): Groups
  {
    if |fds| == 0 then []
    else
      var gs := Grouped(fds[..|fds| - 1], ignore);
      var fd := fds[|fds| - 1];
      if Skipped(fd, ignore) then gs else AddTo(gs, fd.package, fd.name)
  }

  /** The names of the files of package `key` that are not skipped, in file order: the reference for a group. */
  function Members(fds: seq<FileDesc>, ignore: seq<string>, key: string): seq<Option<string>>
  {
    if |fds| == 0 then []
    else
      var fd := fds[|fds| - 1];
      Members(fds[..|fds| - 1], ignore, key) + if fd.package == key && !Skipped(fd, ignore) then [fd.name] else []
  }

  predicate DistinctKeys(gs: Groups)
  {
    forall i, j :: 0 <= i < j < |gs| ==> gs[i].0 != gs[j].0
  }

  /** The groups of a grouping: one per package with a member, none empty, each holding exactly its members in order. */
  ghost predicate GroupsOf(gs: Groups, fds: seq<FileDesc>, ignore: seq<string>)
  {
    && DistinctKeys(gs)
    && (forall i :: 0 <= i < |gs| ==> gs[i].1 == Members(fds, ignore, gs[i].0) && gs[i].1 != [])
    && (forall key :: Members(fds, ignore, key) != [] ==> GroupAt(gs, key).Some?)
  }

  /**
   * The grouping puts every file that is not skipped in the group of its
   * package, keeps file order within each group, and makes one group per
   * package and no empty group.
   */
  lemma {:induction false} GroupedSpec(fds: seq<FileDesc>, ignore: seq<string>)
    ensures GroupsOf(Grouped(fds, ignore), fds, ignore)
  {
    if |fds| > 0 {
      var pre, fd := fds[..|fds| - 1], fds[|fds| - 1];
      GroupedSpec(pre, ignore);
      var gs := Grouped(pre, ignore);
      if Skipped(fd, ignore) {
        MembersSame(fds, ignore);
      } else {
        AddToSpec(gs, pre, fd, ignore);
      }
    }
  }

  lemma MembersSame(fds: seq<FileDesc>, ignore: seq<string>)
    requires |fds| > 0 && Skipped(fds[|fds| - 1], ignore)
    ensures forall key :: Members(fds, ignore, key) == Members(fds[..|fds| - 1], ignore, key)
  {
    forall key ensures Members(fds, ignore, key) == Members(fds[..|fds| - 1], ignore, key) {
      assert Members(fds, ignore, key) == Members(fds[..|fds| - 1], ignore, key) + [];
    }
  }

  /** Adding the last file's name to the groups of the files before it gives the groups of all of them. */
  lemma AddToSpec(gs: Groups, pre: seq<FileDesc>, fd: FileDesc, ignore: seq<string>)
    requires GroupsOf(gs, pre, ignore) && !Skipped(fd, ignore)
    ensures GroupsOf(AddTo(gs, fd.package, fd.name), pre + [fd], ignore)
  {
    MembersSnoc(pre, fd, ignore);
    if GroupAt(gs, fd.package).None? {
      AddToNew(gs, pre, fd, ignore);
    } else {
      AddToOld(gs, pre, fd, ignore);
    }
  }

  lemma MembersSnoc(pre: seq<FileDesc>, fd: FileDesc, ignore: seq<string>)
    requires !Skipped(fd, ignore)
    ensures forall key :: Members(pre + [fd], ignore, key) == Members(pre, ignore, key) + if key == fd.package then [fd.name] else []
  {
    assert (pre + [fd])[..|pre|] == pre;
  }

  lemma AddToNew(gs: Groups, pre: seq<FileDesc>, fd: FileDesc, ignore: seq<string>)
    requires GroupsOf(gs, pre, ignore) && GroupAt(gs, fd.package).None?
    requires forall key :: Members(pre + [fd], ignore, key) == Members(pre, ignore, key) + if key == fd.package then [fd.name] else []
    ensures GroupsOf(AddTo(gs, fd.package, fd.name), pre + [fd], ignore)
  {
    var fds := pre + [fd];
    var hs := gs + [(fd.package, [fd.name])];
    assert Members(pre, ignore, fd.package) == [];
    forall key | Members(fds, ignore, key) != [] ensures GroupAt(hs, key).Some? {
      if key != fd.package {
        var i := GroupAt(gs, key).value;
        assert hs[i] == gs[i];
      } else {
        assert hs[|gs|].0 == key;
      }
    }
  }

  lemma AddToOld(gs: Groups, pre: seq<FileDesc>, fd: FileDesc, ignore: seq<string>)
    requires GroupsOf(gs, pre, ignore) && GroupAt(gs, fd.package).Some?
    requires forall key :: Members(pre + [fd], ignore, key) == Members(pre, ignore, key) + if key == fd.package then [fd.name] else []
    ensures GroupsOf(AddTo(gs, fd.package, fd.name), pre + [fd], ignore)
  {
    var fds := pre + [fd];
    var k := GroupAt(gs, fd.package).value;
    var hs := gs[k := (fd.package, gs[k].1 + [fd.name])];
    forall key | Members(fds, ignore, key) != [] ensures GroupAt(hs, key).Some? {
      var i := GroupAt(gs, key).value;
      assert hs[i].0 == key;
    }
  }

  /** `byPackage`: the loop over the descriptor set's files. */
  method ByPackage(fds: seq<FileDesc>, ignore: seq<string>) returns (gs: Groups)
    ensures gs == Grouped(fds, ignore)
  {
    gs := [];
    var i := 0;
    while i < |fds|
      invariant 0 <= i <= |fds| && gs == Grouped(fds[..i], ignore)
    {
      assert fds[..i + 1][..i] == fds[..i];
      var fd := fds[i];
      if !(fd.package != "" && fd.package in ignore) {
        var at := FindGroup(gs, fd.package);
        if at.None? {
          gs := gs + [(fd.package, [fd.name])];
        } else {
          gs := gs[at.value := (fd.package, gs[at.value].1 + [fd.name])];
        }
      }
      i := i + 1;
    }
    assert fds[..i] == fds;
  }

  /** `byPackage.get(pkg)`. */
  method FindGroup(gs: Groups, key: string) returns (r: Option<nat>)
    ensures r == GroupAt(gs, key)
  {
    var j := |gs|;
    assert gs[..j] == gs;
    while j > 0
      invariant 0 <= j <= |gs| && GroupAt(gs, key) == GroupAt(gs[..j], key)
    {
      assert gs[..j][..j - 1] == gs[..j - 1];
      if gs[j - 1].0 == key {
        return Some(j - 1);
      }
      j := j - 1;
    }
    return None;
  }

  /** The compiler version sent with each request. */
  datatype Version = Version(major: int, minor: int, patch: int)

  const CompilerVersion := Version(5, 26, 0)

  /** A `CodeGeneratorRequest`. */
  datatype Request = Request(plugin: string, fileToGenerate: seq<Option<string>>, protoFile: seq<FileDesc>, version: Version, parameter: string)

  /** The requests of `runPlugins`: for each plugin, in entry order, one per group, in group order. */
  function Requests(plugins: seq<(string, PluginOptions)>, gs: Groups, fds: seq<FileDesc>): (r: seq<Request>)
  {
    if |plugins| == 0 then []
    else
      var (name, opts) := plugins[|plugins| - 1];
      Requests(plugins[..|plugins| - 1], gs, fds) + GroupRequests(name, Parameter(opts.options), gs, fds)
  }

  /** One plugin's requests: one per group, in group order. */
  function GroupRequests(name: string, parameter: string, gs: Groups, fds: seq<FileDesc>): (r: seq<Request>)
    ensures |r| == |gs| && forall j :: 0 <= j < |gs| ==> r[j] == Request(name, gs[j].1, fds, CompilerVersion, parameter)
  {
    seq(|gs|, j requires 0 <= j < |gs| => Request(name, gs[j].1, fds, CompilerVersion, parameter))
  }

  /** Request `i * |gs| + j` is plugin `i`'s, for group `j`, with the whole descriptor set and the plugin's parameter. */
  lemma {:induction false} RequestsAt(plugins: seq<(string, PluginOptions)>, gs: Groups, fds: seq<FileDesc>, i: nat, j: nat)
    requires i < |plugins| && j < |gs|
    ensures i * |gs| + j < |Requests(plugins, gs, fds)|
    ensures Requests(plugins, gs, fds)[i * |gs| + j] == Request(plugins[i].0, gs[j].1, fds, CompilerVersion, Parameter(plugins[i].1.options))
  {
    var pre := plugins[..|plugins| - 1];
    RequestsLength(pre, gs, fds);
    Offset(i, j, |gs|, |pre|);
    if i < |pre| {
      RequestsAt(pre, gs, fds, i, j);
      assert plugins[i] == pre[i];
    }
  }

  lemma {:induction false} RequestsLength(plugins: seq<(string, PluginOptions)>, gs: Groups, fds: seq<FileDesc>)
    ensures |Requests(plugins, gs, fds)| == |plugins| * |gs|
  {
    if |plugins| > 0 {
      RequestsLength(plugins[..|plugins| - 1], gs, fds);
      assert |plugins| * |gs| == (|plugins| - 1) * |gs| + |gs|;
    }
  }

  lemma Offset(i: nat, j: nat, n: nat, p: nat)
    requires i <= p && j < n
    ensures i * n + j < (p + 1) * n && (i < p ==> i * n + j < p * n) && (i == p ==> i * n + j == p * n + j)
  {
    if i < p {
      assert (i + 1) * n <= p * n;
    }
  }

  /** The loop over the groups for one plugin. */
  method PluginRequests(name: string, opts: PluginOptions, gs: Groups, fds: seq<FileDesc>) returns (rs: seq<Request>)
    ensures rs == GroupRequests(name, Parameter(opts.options), gs, fds)
  {
    var parameter := Parameter(opts.options);
    rs := [];
    var j := 0;
    while j < |gs|
      invariant 0 <= j <= |gs| && rs == GroupRequests(name, parameter, gs[..j], fds)
    {
      rs := rs + [Request(name, gs[j].1, fds, CompilerVersion, parameter)];
      j := j + 1;
    }
    assert gs[..j] == gs;
  }

  /**
   * `runPlugins`: nothing at all without plugins, otherwise the descriptor
   * set of the compiled files, placed as the files place their definitions,
   * grouped, and the requests for it.
   */
  method RunPlugins(plugins: seq<(string, PluginOptions)>, roots: seq<Root>, pascal: string -> string, ignore: seq<string>) returns (r: Result<seq<Request>>)
    ensures |plugins| == 0 ==> r == Ok([])
    ensures |plugins| > 0 && FdSet(roots, Compiling(roots, pascal)).Err? ==> r == Err(FdSet(roots, Compiling(roots, pascal)).msg)
    ensures |plugins| > 0 && FdSet(roots, Compiling(roots, pascal)).Ok? ==>
      r == Ok(Requests(plugins, Grouped(FdSet(roots, Compiling(roots, pascal)).value, ignore), FdSet(roots, Compiling(roots, pascal)).value))
  {
    if |plugins| == 0 {
      return Ok([]);
    }
    var fs := CreateFdSet(roots, Compiling(roots, pascal));
    if fs.Err? {
      return Err(fs.msg);
    }
    var fds := fs.value;
    var gs := ByPackage(fds, ignore);
    var out := [];
    var i := 0;
    while i < |plugins|
      invariant 0 <= i <= |plugins| && out == Requests(plugins[..i], gs, fds)
    {
      assert plugins[..i + 1][..i] == plugins[..i];
      var rs := PluginRequests(plugins[i].0, plugins[i].1, gs, fds);
      out := out + rs;
      i := i + 1;
    }
    assert plugins[..i] == plugins;
    r := Ok(out);
  }

  // ---------------------------------------------------------------------
  // The response.

  /** One `CodeGeneratorResponse.File`: a field that was never set is `None`. */
  datatype Entry = Entry(name: Option<string>, insertionPoint: Option<string>, content: string)

  /** `writeFile([outDir, name], content)`. */
  datatype Write = Write(dir: string, name: string, content: string)

  /** `lastName` after the entries: the name of the last entry that has one, `''` when none has. */
  function LastName(es: seq<Entry>): string
  {
    if |es| == 0 then ""
    else if es[|es| - 1].name.Some? then es[|es| - 1].name.value
    else LastName(es[..|es| - 1])
  }

  /** The writes of the entries, each to the most recent name. */
  function Writes(es: seq<Entry>, outDir: string): (r: seq<Write>)
    ensures |r| == |es|
  {
    if |es| == 0 then []
    else Writes(es[..|es| - 1], outDir) + [Write(outDir, LastName(es), es[|es| - 1].content)]
  }

  /** The first entry with an insertion point. */
  function FirstInsertion(es: seq<Entry>): (r: Option<nat>)
    ensures r.Some? ==> r.value < |es| && es[r.value].insertionPoint.Some?
    ensures forall i :: 0 <= i < |es| && (r.None? || i < r.value) ==> es[i].insertionPoint.None?
  {
    if |es| == 0 then None
    else if es[0].insertionPoint.Some? then Some(0)
    else
      var r := FirstInsertion(es[1..]);
      assert forall i :: 1 <= i < |es| ==> es[i] == es[1..][i - 1];
      if r.Some? then Some(r.value + 1) else None
  }

  /** The lines 440-453 of `runPluginOn`: the writes made, then how the call ends. */
  function Response(plugin: string, error: string, es: seq<Entry>, outDir: string): (seq<Write>, Result<()>)
  {
    if error != "" then ([], Err("[" + plugin + "] Generator reported an error"))
    else
      match FirstInsertion(es)
      case Some(k) => (Writes(es[..k], outDir), Err("Insertion points are not supported"))
      case None => (Writes(es, outDir), Ok(()))
  }

  method HandleResponse(plugin: string, error: string, es: seq<Entry>, outDir: string) returns (writes: seq<Write>, r: Result<()>)
    ensures (writes, r) == Response(plugin, error, es, outDir)
  {
    if error != "" {
      return [], Err("[" + plugin + "] Generator reported an error");
    }
    var lastName := "";
    writes := [];
    var i := 0;
    while i < |es|
      invariant 0 <= i <= |es| && writes == Writes(es[..i], outDir) && lastName == LastName(es[..i])
      invariant forall k :: 0 <= k < i ==> es[k].insertionPoint.None?
    {
      assert es[..i + 1][..i] == es[..i];
      if es[i].insertionPoint.Some? {
        assert FirstInsertion(es) == Some(i);
        return writes, Err("Insertion points are not supported");
      }
      if es[i].name.Some? {
        lastName := es[i].name.value;
      }
      writes := writes + [Write(outDir, lastName, es[i].content)];
      i := i + 1;
    }
    assert es[..i] == es;
    r := Ok(());
  }

  /**
   * An entry without a name goes to the file most recently named: the name
   * is that of the last named entry up to it, or `''` before any.
   */
  lemma {:induction false} LastNameSpec(es: seq<Entry>, j: nat)
    requires j <= |es|
    requires forall i :: j <= i < |es| ==> es[i].name.None?
    ensures j == 0 ==> LastName(es) == ""
    ensures 0 < j && es[j - 1].name.Some? ==> LastName(es) == es[j - 1].name.value
    decreases |es|
  {
    if |es| > j {
      var pre := es[..|es| - 1];
      assert forall i :: j <= i < |pre| ==> pre[i] == es[i];
      LastNameSpec(pre, j);
      assert 0 < j ==> pre[j - 1] == es[j - 1];
    }
  }

  /**
   * A reported error writes nothing. Otherwise the entries are written in
   * order up to the first one with an insertion point, which ends the call
   * with an error; with none, every entry is written and the call succeeds.
   * Each write carries its entry's content under the most recent name.
   */
  lemma ResponseSpec(plugin: string, error: string, es: seq<Entry>, outDir: string)
    ensures var (ws, r) := Response(plugin, error, es, outDir);
      && (error != "" ==> ws == [] && r == Err("[" + plugin + "] Generator reported an error"))
      && (error == "" ==>
        && |ws| <= |es|
        && (forall i :: 0 <= i < |ws| ==> es[i].insertionPoint.None?)
        && (|ws| < |es| ==> es[|ws|].insertionPoint.Some? && r == Err("Insertion points are not supported"))
        && (|ws| == |es| ==> r == Ok(())))
      && forall i :: 0 <= i < |ws| ==> ws[i] == Write(outDir, LastName(es[..i + 1]), es[i].content)
  {
    var (ws, r) := Response(plugin, error, es, outDir);
    if error == "" {
      match FirstInsertion(es)
      case Some(k) => WritesPrefix(es, k, outDir);
      case None =>
        assert es[..|es|] == es;
        WritesPrefix(es, |es|, outDir);
    }
  }

  lemma WritesPrefix(es: seq<Entry>, n: nat, outDir: string)
    requires n <= |es|
    ensures forall i :: 0 <= i < n ==> Writes(es[..n], outDir)[i] == Write(outDir, LastName(es[..i + 1]), es[i].content)
  {
    WritesSpec(es[..n], outDir);
    forall i | 0 <= i < n ensures es[..n][..i + 1] == es[..i + 1] && es[..n][i] == es[i] {
    }
  }

  lemma {:induction false} WritesSpec(es: seq<Entry>, outDir: string)
    ensures forall i :: 0 <= i < |es| ==> Writes(es, outDir)[i] == Write(outDir, LastName(es[..i + 1]), es[i].content)
  {
    if |es| > 0 {
      var pre := es[..|es| - 1];
      WritesSpec(pre, outDir);
      forall i | 0 <= i < |es| ensures Writes(es, outDir)[i] == Write(outDir, LastName(es[..i + 1]), es[i].content) {
        if i < |pre| {
          assert pre[..i + 1] == es[..i + 1];
        } else {
          assert es[..i + 1] == es;
        }
      }
    }
  }
}
