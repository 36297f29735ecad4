/**
 The imports-field plugin: Node.js subpath imports. A specifier starting
 with `#` is looked up in the package's "imports" tree under the active
 condition names; the single candidate found is either a path inside the
 package or a bare module name, and the latter is re-resolved against the
 nested package through the exports, imports and alias field plugins.
 */
module ImportsField {
  import opened Resolution

  /** Directory name under which installed packages live. */
  const MODULE: string := "node_modules"

  /** The parsed "imports" field of a manifest. Its structure is only
      ever inspected by the field matcher, so it is kept opaque. */
  datatype ImportsTree = ImportsTree(raw: string)

  /** The parts of a loaded package manifest this plugin reads. */
  datatype PkgFileInfo = PkgFileInfo(absDirPath: Path, importsFieldTree: Option<ImportsTree>)

  datatype MatchResult = Matched(list: seq<string>) | MatchFailed(err: string)

  datatype LoadResult = Loaded(pkg: Option<PkgFileInfo>) | LoadFailed(err: string)

  /** The resolver's services this plugin calls: condition matching of the
      imports tree, specifier parsing, path joining, the path an info
      denotes, manifest loading, and the exports and alias field plugins. */
  datatype Env = Env(
    fieldProcess: (ImportsTree, string, seq<string>) -> MatchResult,
    parse: string -> Request,
    join: (Path, string) -> Path,
    getPath: Info -> Path,
    loadPkgFile: Path -> LoadResult,
    exportsPlugin: (Option<PkgFileInfo>, Info) -> State,
    aliasPlugin: (Option<PkgFileInfo>, Info) -> State)

  /** How a run of the plugin ends: with an outcome, by aborting on a
      candidate list longer than one, or by exhausting the fuel that bounds
      its self-call. */
  datatype Run = Done(state: State) | Aborted | OutOfFuel

  predicate StartsWithHash(s: string) {
    |s| > 0 && s[0] == '#'
  }

  /** `sub` occurs in `s` starting at position `j`. */
  predicate OccursAt(s: string, sub: string, j: nat) {
    j + |sub| <= |s| && s[j..j + |sub|] == sub
  }

  /** `sub` occurs in `s` at position `i` or later. */
  function ContainsFrom(s: string, sub: string, i: nat): (b: bool)
    requires i <= |s|
    ensures b <==> exists j: nat :: i <= j && OccursAt(s, sub, j)
    decreases |s| - i
  {
    if |s| - i < |sub| then false
    else if OccursAt(s, sub, i) then true
    else ContainsFrom(s, sub, i + 1)
  }

  /** Substring test, as `str::contains` on the directory's display string. */
  predicate Contains(s: string, sub: string) {
    ContainsFrom(s, sub, 0)
  }

  function NotExportedMessage(target: string): string {
    "Package path " + target + " is not exported"
  }

  /** The plugin acts on this request: there is a package, the target is
      a `#` specifier and the package declares an imports field. */
  predicate Engaged(pkg: Option<PkgFileInfo>, info: Info) {
    pkg.Some? && StartsWithHash(info.request.target) && pkg.value.importsFieldTree.Some?
  }

  /** The matcher's answer for an engaged request. */
  function Candidates(env: Env, opts: Options, pkg: Option<PkgFileInfo>, info: Info): MatchResult
    requires Engaged(pkg, info)
  {
    env.fieldProcess(pkg.value.importsFieldTree.value, info.request.target, opts.conditionNames)
  }

  /** The info a single candidate is resolved from: under the package's
      `node_modules` directory for a bare module name, the package
      directory itself otherwise. */
  function CandidateInfo(env: Env, pkg: PkgFileInfo, item: string): Info {
    var request := env.parse(item);
    if request.kind == Normal then Info(env.join(pkg.absDirPath, MODULE), request)
    else Info(pkg.absDirPath, request)
  }

  /** `s` is an outcome that the alias field plugin of some package
      returns for some info. */
  ghost predicate FromAliasPlugin(env: Env, s: State) {
    exists p, i :: env.aliasPlugin(p, i) == s
  }

  /** `s` is an outcome that the exports or the alias field plugin of
      some package returns for some info. */
  ghost predicate FromNestedPlugin(env: Env, s: State) {
    exists p, i :: env.exportsPlugin(p, i) == s || env.aliasPlugin(p, i) == s
  }

  /** `request` is the parse of the single candidate the matcher found,
      resolved from the package directory or its `node_modules`. */
  ghost predicate FromSingleCandidate(env: Env, opts: Options, pkg: Option<PkgFileInfo>, info: Info, next: Info) {
    && Engaged(pkg, info)
    && var m := Candidates(env, opts, pkg, info);
    && m.Matched? && |m.list| == 1
    && next.request == env.parse(m.list[0])
    && (next.path == pkg.value.absDirPath || next.path == env.join(pkg.value.absDirPath, MODULE))
  }

  /**
   The plugin's `apply`. `fuel` bounds how often the plugin may re-enter
   itself through the nested sub-chain. The plugin leaves every request
   it does not engage with untouched; a request it forwards is the
   original one, the parsed single candidate, or one the nested alias
   field plugin forwarded.
   */
  function Apply(env: Env, opts: Options, pkg: Option<PkgFileInfo>, info: Info, fuel: nat): (r: Run)
    ensures r != Done(Resolving(info)) ==> Engaged(pkg, info)
    ensures r.Done? && r.state.Resolving? ==>
              || r.state.info == info
              || FromSingleCandidate(env, opts, pkg, info, r.state.info)
              || FromAliasPlugin(env, r.state)
    decreases fuel, 1
  {
    if pkg.None? then Done(Resolving(info))
    else if !StartsWithHash(info.request.target) then Done(Resolving(info))
    else if pkg.value.importsFieldTree.None? then Done(Resolving(info))
    else
      var target := info.request.target;
      match Candidates(env, opts, pkg, info)
      case MatchFailed(err) => Done(Error(err, info))
      case Matched(list) =>
        if |list| > 1 then Aborted
        else if |list| == 0 then Done(Error(NotExportedMessage(target), info))
        else
          var next := CandidateInfo(env, pkg.value, list[0]);
          if next.request.kind != Normal then Done(Resolving(next))
          else match env.loadPkgFile(env.getPath(next))
            case LoadFailed(err) => Done(Error(err, next))
            case Loaded(nested) =>
              if nested.Some? && !Contains(nested.value.absDirPath, MODULE) then Done(Resolving(next))
              else SubChain(env, opts, nested, next, fuel)
  }

  /** Exports, then imports, then alias field plugins of the nested
      package, each fed the `Resolving` payload of the one before. Fuel is
      spent only when the nested imports plugin engages; a forwarded
      request is always the alias plugin's. */
  function SubChain(env: Env, opts: Options, nested: Option<PkgFileInfo>, info: Info, fuel: nat): (r: Run)
    ensures r.Done? && r.state.Resolving? ==> exists i :: env.aliasPlugin(nested, i) == r.state
    decreases fuel, 0
  {
    var exported := env.exportsPlugin(nested, info);
    if exported.IsFinished() then Done(exported)
    else if !Engaged(nested, exported.info) then Done(env.aliasPlugin(nested, exported.info))
    else if fuel == 0 then OutOfFuel
    else match Apply(env, opts, nested, exported.info, fuel - 1)
      case Done(imported) => Done(imported.AndThen(i => env.aliasPlugin(nested, i)))
      case other => other
  }

  /** The nested imports plugin as a chain member: its outcome when it
      ends with one, a pass-through otherwise. */
  function NestedImports(env: Env, opts: Options, nested: Option<PkgFileInfo>, fuel: nat): Info -> State {
    i => var o := Apply(env, opts, nested, i, fuel); if o.Done? then o.state else Resolving(i)
  }

  /** Whenever the sub-chain ends with an outcome, that outcome is the
      generic left-to-right chain of exports, imports and alias field
      plugins. */
  lemma SubChainIsPluginChain(env: Env, opts: Options, nested: Option<PkgFileInfo>, info: Info, fuel: nat)
    requires SubChain(env, opts, nested, info, fuel).Done?
    ensures SubChain(env, opts, nested, info, fuel).state ==
            RunChain([i => env.exportsPlugin(nested, i),
                      NestedImports(env, opts, nested, if fuel == 0 then 0 else fuel - 1),
                      i => env.aliasPlugin(nested, i)], info)
  {
    var chain := [i => env.exportsPlugin(nested, i),
                  NestedImports(env, opts, nested, if fuel == 0 then 0 else fuel - 1),
                  i => env.aliasPlugin(nested, i)];
    var exported := env.exportsPlugin(nested, info);
    assert chain[0](info) == exported;
    if !exported.IsFinished() {
      var imported := chain[1](exported.info);
      assert chain[1..][0](exported.info) == imported;
      if Engaged(nested, exported.info) {
        assert fuel > 0;
        assert imported == Apply(env, opts, nested, exported.info, fuel - 1).state;
      } else {
        assert imported == Resolving(exported.info);
      }
      if imported.Resolving? {
        var tail := chain[1..][1..];
        assert tail[1..] == [];
        assert RunChain(tail, imported.info) == env.aliasPlugin(nested, imported.info).AndThen(i => RunChain([], i));
        assert RunChain(tail, imported.info) == env.aliasPlugin(nested, imported.info);
      }
      assert RunChain(chain[1..], exported.info) == imported.AndThen(i => RunChain(chain[1..][1..], i));
    }
  }

  /** More fuel never changes how a run ended, unless it ran out. */
  lemma {:induction false} ApplyFuelMonotone(env: Env, opts: Options, pkg: Option<PkgFileInfo>, info: Info, fuel: nat, more: nat)
    requires fuel <= more
    requires !Apply(env, opts, pkg, info, fuel).OutOfFuel?
    ensures Apply(env, opts, pkg, info, more) == Apply(env, opts, pkg, info, fuel)
    decreases fuel, 1
  {
    if Engaged(pkg, info) {
      match Candidates(env, opts, pkg, info)
      case MatchFailed(_) =>
      case Matched(list) =>
        if |list| == 1 {
          var next := CandidateInfo(env, pkg.value, list[0]);
          if next.request.kind == Normal {
            match env.loadPkgFile(env.getPath(next))
            case LoadFailed(_) =>
            case Loaded(nested) =>
              if !(nested.Some? && !Contains(nested.value.absDirPath, MODULE)) {
                SubChainFuelMonotone(env, opts, nested, next, fuel, more);
              }
          }
        }
    }
  }

  lemma {:induction false} SubChainFuelMonotone(env: Env, opts: Options, nested: Option<PkgFileInfo>, info: Info, fuel: nat, more: nat)
    requires fuel <= more
    requires !SubChain(env, opts, nested, info, fuel).OutOfFuel?
    ensures SubChain(env, opts, nested, info, more) == SubChain(env, opts, nested, info, fuel)
    decreases fuel, 0
  {
    var exported := env.exportsPlugin(nested, info);
    if !exported.IsFinished() && Engaged(nested, exported.info) {
      ApplyFuelMonotone(env, opts, nested, exported.info, fuel - 1, more - 1);
    }
  }

  /** The plugin never succeeds on its own: every successful outcome is
      one that an exports or alias field plugin of some nested package
      returned. */
  lemma {:induction false} SuccessComesFromNestedPlugin(env: Env, opts: Options, pkg: Option<PkgFileInfo>, info: Info, fuel: nat)
    requires Apply(env, opts, pkg, info, fuel).Done?
    requires Apply(env, opts, pkg, info, fuel).state.Success?
    ensures FromNestedPlugin(env, Apply(env, opts, pkg, info, fuel).state)
    decreases fuel, 1
  {
    var next := CandidateInfo(env, pkg.value, Candidates(env, opts, pkg, info).list[0]);
    match env.loadPkgFile(env.getPath(next))
    case Loaded(nested) =>
      SubChainSuccessComesFromNestedPlugin(env, opts, nested, next, fuel);
  }

  lemma {:induction false} SubChainSuccessComesFromNestedPlugin(env: Env, opts: Options, nested: Option<PkgFileInfo>, info: Info, fuel: nat)
    requires SubChain(env, opts, nested, info, fuel).Done?
    requires SubChain(env, opts, nested, info, fuel).state.Success?
    ensures FromNestedPlugin(env, SubChain(env, opts, nested, info, fuel).state)
    decreases fuel, 0
  {
    var exported := env.exportsPlugin(nested, info);
    if exported.IsFinished() {
      assert env.exportsPlugin(nested, info) == exported;
    } else if !Engaged(nested, exported.info) {
      assert env.aliasPlugin(nested, exported.info) == SubChain(env, opts, nested, info, fuel).state;
    } else {
      var imported := Apply(env, opts, nested, exported.info, fuel - 1).state;
      if imported.Resolving? {
        assert env.aliasPlugin(nested, imported.info) == SubChain(env, opts, nested, info, fuel).state;
      } else {
        SuccessComesFromNestedPlugin(env, opts, nested, exported.info, fuel - 1);
      }
    }
  }

  /** A `#` specifier the matcher rejects fails with the matcher's error,
      carrying the request as it arrived. */
  lemma MatcherErrorKeepsInfo(env: Env, opts: Options, pkg: Option<PkgFileInfo>, info: Info, fuel: nat, err: string)
    requires Engaged(pkg, info)
    requires Candidates(env, opts, pkg, info) == MatchFailed(err)
    ensures Apply(env, opts, pkg, info, fuel) == Done(Error(err, info))
  {
  }

  /** More than one candidate aborts the resolution. */
  lemma SeveralCandidatesAbort(env: Env, opts: Options, pkg: Option<PkgFileInfo>, info: Info, fuel: nat)
    requires Engaged(pkg, info)
    requires Candidates(env, opts, pkg, info).Matched? && |Candidates(env, opts, pkg, info).list| > 1
    ensures Apply(env, opts, pkg, info, fuel) == Aborted
  {
  }

  /** No candidate for the active conditions: the specifier is reported as
      not exported, the message names it, and the original info is kept. */
  lemma NoCandidateIsNotExported(env: Env, opts: Options, pkg: Option<PkgFileInfo>, info: Info, fuel: nat)
    requires Engaged(pkg, info)
    requires Candidates(env, opts, pkg, info) == Matched([])
    ensures Apply(env, opts, pkg, info, fuel).Done?
    ensures Apply(env, opts, pkg, info, fuel).state.Error?
    ensures Apply(env, opts, pkg, info, fuel).state.at == info
    ensures Contains(Apply(env, opts, pkg, info, fuel).state.message, info.request.target)
  {
    var target := info.request.target;
    var msg := NotExportedMessage(target);
    assert msg[13..13 + |target|] == target;
    assert OccursAt(msg, target, 13);
  }

  /** A single candidate that is a path inside the package is resolved
      from the package directory; nothing is loaded and no other plugin
      runs, so the outcome does not depend on the loader, the nested
      plugins or the fuel. */
  lemma RelativeCandidateRootedAtPackage(env: Env, opts: Options, pkg: Option<PkgFileInfo>, info: Info, fuel: nat, item: string,
                                         loader: Path -> LoadResult, exports: (Option<PkgFileInfo>, Info) -> State, alias: (Option<PkgFileInfo>, Info) -> State)
    requires Engaged(pkg, info)
    requires Candidates(env, opts, pkg, info) == Matched([item])
    requires env.parse(item).kind != Normal
    ensures Apply(env, opts, pkg, info, fuel) == Done(Resolving(Info(pkg.value.absDirPath, env.parse(item))))
    ensures Apply(env.(loadPkgFile := loader, exportsPlugin := exports, aliasPlugin := alias), opts, pkg, info, 0)
            == Apply(env, opts, pkg, info, fuel)
  {
  }

  /** A single bare-module candidate is resolved from `<package>/node_modules`:
      a load failure is an error carrying that new info; a loaded package
      outside any `node_modules` directory continues with the new info;
      otherwise the outcome is that of the nested sub-chain. */
  lemma ModuleCandidateStages(env: Env, opts: Options, pkg: Option<PkgFileInfo>, info: Info, fuel: nat, item: string)
    requires Engaged(pkg, info)
    requires Candidates(env, opts, pkg, info) == Matched([item])
    requires env.parse(item).kind == Normal
    ensures var next := Info(env.join(pkg.value.absDirPath, MODULE), env.parse(item));
            var r := Apply(env, opts, pkg, info, fuel);
            var loaded := env.loadPkgFile(env.getPath(next));
            && (loaded.LoadFailed? ==> r == Done(Error(loaded.err, next)))
            && (loaded.Loaded? && loaded.pkg.Some? && !Contains(loaded.pkg.value.absDirPath, MODULE) ==> r == Done(Resolving(next)))
            && (loaded.Loaded? && (loaded.pkg.None? || Contains(loaded.pkg.value.absDirPath, MODULE)) ==>
                  r == SubChain(env, opts, loaded.pkg, next, fuel))
  {
  }

  /** The nested sub-chain stops at the first finished plugin: a finished
      exports outcome is returned verbatim, whatever the fuel and the
      alias plugin. */
  lemma SubChainStopsAtExports(env: Env, opts: Options, nested: Option<PkgFileInfo>, info: Info, fuel: nat, alias: (Option<PkgFileInfo>, Info) -> State)
    requires env.exportsPlugin(nested, info).IsFinished()
    ensures SubChain(env, opts, nested, info, fuel) == Done(env.exportsPlugin(nested, info))
    ensures SubChain(env.(aliasPlugin := alias), opts, nested, info, 0) == Done(env.exportsPlugin(nested, info))
  {
  }
}
