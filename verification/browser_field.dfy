/**
 The browser-field plugin: the manifest's "browser" object as an ordered
 alias list. Entries whose key matches the request are handled in
 declaration order: an entry either ignores the module, leaves a
 self-mapped request alone, or re-resolves the request under its new name;
 a re-resolution that does not finish lets the scan go on to the next entry.
 */
module BrowserField {
  import opened Resolution

  /** Value of a browser-field entry: a replacement specifier, or `false`. */
  datatype AliasMap = Target(converted: string) | Ignored

  /** The parts of a package description this plugin reads; `aliasFields`
      keeps the declaration order of the manifest. */
  datatype PkgInfo = PkgInfo(dirPath: Path, aliasFields: seq<(string, AliasMap)>)

  /** Path services, `Request::with_target`, and the resolver's
      recursive entry point. */
  datatype Env = Env(
    normalize: Path -> Path,
    join: (Path, string) -> Path,
    resolvedPath: Info -> Path,
    appendExt: (Path, string) -> Path,
    withTarget: (Request, string) -> Request,
    resolve: Info -> State)

  /** Bare-module matching: the key is the request's target, verbatim. */
  predicate ModuleKeyMatches(aliasKey: string, info: Info) {
    info.request.target == aliasKey
  }

  /** Some configured extension appended to `requestPath` gives `aliasPath`. */
  function AnyExtension(env: Env, aliasPath: Path, requestPath: Path, extensions: seq<string>): (b: bool)
    ensures b <==> exists k :: 0 <= k < |extensions| && aliasPath == env.appendExt(requestPath, extensions[k])
    decreases |extensions|
  {
    if |extensions| == 0 then false
    else aliasPath == env.appendExt(requestPath, extensions[0]) || AnyExtension(env, aliasPath, requestPath, extensions[1..])
  }

  /** Path matching: the normalized alias path is the normalized request
      path, or that path with one of the extensions appended. */
  function PathKeyMatches(env: Env, aliasPath: Path, info: Info, extensions: seq<string>): (b: bool)
    ensures b <==> (|| env.normalize(aliasPath) == env.normalize(env.resolvedPath(info))
                    || exists k :: 0 <= k < |extensions| &&
                         env.normalize(aliasPath) == env.appendExt(env.normalize(env.resolvedPath(info)), extensions[k]))
  {
    var alias := env.normalize(aliasPath);
    var request := env.normalize(env.resolvedPath(info));
    alias == request || AnyExtension(env, alias, request, extensions)
  }

  /** Whether the entry with key `aliasKey` applies to the request. */
  predicate KeyMatches(env: Env, opts: Options, pkg: PkgInfo, aliasKey: string, info: Info) {
    if info.request.kind == Normal then ModuleKeyMatches(aliasKey, info)
    else PathKeyMatches(env, env.join(pkg.dirPath, aliasKey), info, opts.extensions)
  }

  /** The request re-rooted at the package directory with a new target. */
  function Redirect(env: Env, pkg: PkgInfo, info: Info, converted: string): Info {
    Info(pkg.dirPath, env.withTarget(info.request, converted))
  }

  /** What a matching entry decides: `Some` outcome ends the scan, `None`
      means the re-resolution did not finish and the scan goes on. */
  function Decide(env: Env, pkg: PkgInfo, info: Info, aliasKey: string, target: AliasMap): (d: Option<State>)
    ensures d.Some? && d.value.Resolving? ==> d.value == Resolving(info)
    ensures target == Target(aliasKey) ==> d == Some(Resolving(info))
    ensures d.None? <==> target.Target? && target.converted != aliasKey && !env.resolve(Redirect(env, pkg, info, target.converted)).IsFinished()
  {
    match target
    case Ignored => Some(Success(ResolveResult.Ignored))
    case Target(converted) =>
      if aliasKey == converted then Some(Resolving(info))
      else
        var state := env.resolve(Redirect(env, pkg, info, converted));
        if state.IsFinished() then Some(state) else None
  }

  /** The entry ends the scan. */
  predicate Decisive(env: Env, opts: Options, pkg: PkgInfo, info: Info, entry: (string, AliasMap)) {
    KeyMatches(env, opts, pkg, entry.0, info) && Decide(env, pkg, info, entry.0, entry.1).Some?
  }

  /** Scans `entries` in order. A `Resolving` outcome is always the info
      the plugin was given: the plugin never rewrites the request it
      passes on. */
  function Scan(env: Env, opts: Options, pkg: PkgInfo, info: Info, entries: seq<(string, AliasMap)>): (r: State)
    ensures r.Resolving? ==> r == Resolving(info)
    decreases |entries|
  {
    if |entries| == 0 then Resolving(info)
    else if !KeyMatches(env, opts, pkg, entries[0].0, info) then Scan(env, opts, pkg, info, entries[1..])
    else match Decide(env, pkg, info, entries[0].0, entries[0].1)
      case Some(s) => s
      case None => Scan(env, opts, pkg, info, entries[1..])
  }

  /** The plugin's `apply`: either the request passes on unchanged or the
      resolution is finished. */
  function Apply(env: Env, opts: Options, pkg: PkgInfo, info: Info): (r: State)
    ensures r.Resolving? ==> r == Resolving(info)
  {
    if !opts.browserField then Resolving(info)
    else Scan(env, opts, pkg, info, pkg.aliasFields)
  }

  /** The plugin's loop over the alias list, entry by entry. */
  method ApplyLoop(env: Env, opts: Options, pkg: PkgInfo, info: Info) returns (r: State)
    ensures r == Apply(env, opts, pkg, info)
  {
    if !opts.browserField {
      return Resolving(info);
    }
    var entries := pkg.aliasFields;
    var k := 0;
    while k < |entries|
      invariant 0 <= k <= |entries|
      invariant Scan(env, opts, pkg, info, entries) == Scan(env, opts, pkg, info, entries[k..])
    {
      var (aliasKey, aliasTarget) := entries[k];
      assert entries[k..][1..] == entries[k + 1..];
      if KeyMatches(env, opts, pkg, aliasKey, info) {
        match aliasTarget {
          case Target(converted) =>
            if aliasKey == converted {
              return Resolving(info);
            }
            var state := env.resolve(Redirect(env, pkg, info, converted));
            if state.IsFinished() {
              return state;
            }
          case Ignored =>
            return Success(ResolveResult.Ignored);
        }
      }
      k := k + 1;
    }
    return Resolving(info);
  }

  /** The entry at `i` is the first one that ends the scan. */
  ghost predicate FirstDecisiveAt(env: Env, opts: Options, pkg: PkgInfo, info: Info, entries: seq<(string, AliasMap)>, i: int) {
    && 0 <= i < |entries|
    && Decisive(env, opts, pkg, info, entries[i])
    && forall j :: 0 <= j < i ==> !Decisive(env, opts, pkg, info, entries[j])
  }

  /** First-match order: the outcome is what the first decisive entry
      decides; the entries before it matched not or fell through. */
  lemma {:induction false} ScanFirstDecisive(env: Env, opts: Options, pkg: PkgInfo, info: Info, entries: seq<(string, AliasMap)>, i: int)
    requires FirstDecisiveAt(env, opts, pkg, info, entries, i)
    ensures Scan(env, opts, pkg, info, entries) == Decide(env, pkg, info, entries[i].0, entries[i].1).value
    decreases i
  {
    if i > 0 {
      assert !Decisive(env, opts, pkg, info, entries[0]);
      assert forall j :: 0 <= j < i - 1 ==> entries[1..][j] == entries[j + 1];
      ScanFirstDecisive(env, opts, pkg, info, entries[1..], i - 1);
    }
  }

  /** With no decisive entry the request passes on unchanged. */
  lemma {:induction false} ScanNoneDecisive(env: Env, opts: Options, pkg: PkgInfo, info: Info, entries: seq<(string, AliasMap)>)
    requires forall j :: 0 <= j < |entries| ==> !Decisive(env, opts, pkg, info, entries[j])
    ensures Scan(env, opts, pkg, info, entries) == Resolving(info)
    decreases |entries|
  {
    if |entries| > 0 {
      assert !Decisive(env, opts, pkg, info, entries[0]);
      assert forall j :: 0 <= j < |entries| - 1 ==> entries[1..][j] == entries[j + 1];
      ScanNoneDecisive(env, opts, pkg, info, entries[1..]);
    }
  }

  /** Once an entry of `prefix` ends the scan, nothing declared after it
      is consulted. */
  lemma {:induction false} ScanIgnoresSuffixAfterDecisive(env: Env, opts: Options, pkg: PkgInfo, info: Info, prefix: seq<(string, AliasMap)>, suffix: seq<(string, AliasMap)>, i: int)
    requires FirstDecisiveAt(env, opts, pkg, info, prefix, i)
    ensures Scan(env, opts, pkg, info, prefix + suffix) == Scan(env, opts, pkg, info, prefix)
  {
    var all := prefix + suffix;
    assert forall j :: 0 <= j < |prefix| ==> all[j] == prefix[j];
    assert FirstDecisiveAt(env, opts, pkg, info, all, i);
    ScanFirstDecisive(env, opts, pkg, info, all, i);
    ScanFirstDecisive(env, opts, pkg, info, prefix, i);
  }

  /** Entries that match not, or fall through, have no effect: the scan
      goes on with the entries declared after them. */
  lemma {:induction false} ScanSkipsTransparentPrefix(env: Env, opts: Options, pkg: PkgInfo, info: Info, prefix: seq<(string, AliasMap)>, suffix: seq<(string, AliasMap)>)
    requires forall j :: 0 <= j < |prefix| ==> !Decisive(env, opts, pkg, info, prefix[j])
    ensures Scan(env, opts, pkg, info, prefix + suffix) == Scan(env, opts, pkg, info, suffix)
    decreases |prefix|
  {
    if |prefix| > 0 {
      assert !Decisive(env, opts, pkg, info, prefix[0]);
      assert (prefix + suffix)[0] == prefix[0];
      assert (prefix + suffix)[1..] == prefix[1..] + suffix;
      assert forall j :: 0 <= j < |prefix| - 1 ==> prefix[1..][j] == prefix[j + 1];
      ScanSkipsTransparentPrefix(env, opts, pkg, info, prefix[1..], suffix);
    } else {
      assert prefix + suffix == suffix;
    }
  }

  /** With the browser field disabled the plugin passes the request on,
      whatever the package's entries and the resolver. */
  lemma DisabledIsNoOp(env: Env, opts: Options, pkg: PkgInfo, info: Info)
    requires !opts.browserField
    ensures Apply(env, opts, pkg, info) == Resolving(info)
  {
  }

  /** A bare request matches a key exactly when its target is that key;
      no extension is tried, whatever the configured extensions. */
  lemma ModuleRequestMatchesExactly(env: Env, opts: Options, pkg: PkgInfo, aliasKey: string, info: Info)
    requires info.request.kind == Normal
    ensures KeyMatches(env, opts, pkg, aliasKey, info) <==> info.request.target == aliasKey
  {
  }

  /** A path request matches a key when the normalized key path equals the
      normalized request path or that path with some extension appended;
      without extensions only equality is left. */
  lemma PathRequestMatchesByPath(env: Env, opts: Options, pkg: PkgInfo, aliasKey: string, info: Info)
    requires info.request.kind != Normal
    ensures var aliasPath := env.normalize(env.join(pkg.dirPath, aliasKey));
            var requestPath := env.normalize(env.resolvedPath(info));
            && (KeyMatches(env, opts, pkg, aliasKey, info) <==>
                 aliasPath == requestPath || exists k :: 0 <= k < |opts.extensions| && aliasPath == env.appendExt(requestPath, opts.extensions[k]))
            && (|opts.extensions| == 0 ==> (KeyMatches(env, opts, pkg, aliasKey, info) <==> aliasPath == requestPath))
  {
  }

  /** An `Ignored` entry reached first ends the resolution as ignored. */
  lemma IgnoredEntryIgnoresModule(env: Env, opts: Options, pkg: PkgInfo, info: Info, i: int)
    requires opts.browserField
    requires 0 <= i < |pkg.aliasFields| && pkg.aliasFields[i].1 == AliasMap.Ignored
    requires KeyMatches(env, opts, pkg, pkg.aliasFields[i].0, info)
    requires forall j :: 0 <= j < i ==> !Decisive(env, opts, pkg, info, pkg.aliasFields[j])
    ensures Apply(env, opts, pkg, info) == Success(ResolveResult.Ignored)
  {
    ScanFirstDecisive(env, opts, pkg, info, pkg.aliasFields, i);
  }

  /** A matching entry mapped to its own key leaves the request as it was
      and is decided without the resolver: the outcome is the same for
      every recursive resolver. */
  lemma SelfMappedEntryKeepsRequest(env: Env, opts: Options, pkg: PkgInfo, info: Info, i: int, resolver: Info -> State)
    requires opts.browserField
    requires 0 <= i < |pkg.aliasFields| && pkg.aliasFields[i].1 == Target(pkg.aliasFields[i].0)
    requires KeyMatches(env, opts, pkg, pkg.aliasFields[i].0, info)
    requires forall j :: 0 <= j < i ==> !KeyMatches(env, opts, pkg, pkg.aliasFields[j].0, info)
    ensures Apply(env.(resolve := resolver), opts, pkg, info) == Resolving(info)
  {
    var env' := env.(resolve := resolver);
    assert forall key :: KeyMatches(env', opts, pkg, key, info) == KeyMatches(env, opts, pkg, key, info);
    ScanFirstDecisive(env', opts, pkg, info, pkg.aliasFields, i);
  }

  /** The self-reference guard also holds after earlier redirects fell
      through: a self-mapped matching entry that is reached passes the
      original info on. */
  lemma SelfMappedAfterFallThrough(env: Env, opts: Options, pkg: PkgInfo, info: Info, i: int)
    requires opts.browserField
    requires 0 <= i < |pkg.aliasFields| && pkg.aliasFields[i].1 == Target(pkg.aliasFields[i].0)
    requires KeyMatches(env, opts, pkg, pkg.aliasFields[i].0, info)
    requires forall j :: 0 <= j < i ==> !Decisive(env, opts, pkg, info, pkg.aliasFields[j])
    ensures Apply(env, opts, pkg, info) == Resolving(info)
  {
    ScanFirstDecisive(env, opts, pkg, info, pkg.aliasFields, i);
  }

  /** A matching entry with another target re-resolves the request from
      the package directory under the new name; if that finishes, its
      outcome is the plugin's. */
  lemma RedirectedEntryFinishes(env: Env, opts: Options, pkg: PkgInfo, info: Info, i: int)
    requires opts.browserField
    requires 0 <= i < |pkg.aliasFields| && pkg.aliasFields[i].1.Target?
    requires pkg.aliasFields[i].1.converted != pkg.aliasFields[i].0
    requires KeyMatches(env, opts, pkg, pkg.aliasFields[i].0, info)
    requires env.resolve(Redirect(env, pkg, info, pkg.aliasFields[i].1.converted)).IsFinished()
    requires forall j :: 0 <= j < i ==> !Decisive(env, opts, pkg, info, pkg.aliasFields[j])
    ensures Apply(env, opts, pkg, info) == env.resolve(Info(pkg.dirPath, env.withTarget(info.request, pkg.aliasFields[i].1.converted)))
  {
    ScanFirstDecisive(env, opts, pkg, info, pkg.aliasFields, i);
  }

  /** If no entry ends the scan, the browser field has no effect. */
  lemma NoDecisiveEntryIsNoOp(env: Env, opts: Options, pkg: PkgInfo, info: Info)
    requires forall j :: 0 <= j < |pkg.aliasFields| ==> !Decisive(env, opts, pkg, info, pkg.aliasFields[j])
    ensures Apply(env, opts, pkg, info) == Resolving(info)
  {
    if opts.browserField {
      ScanNoneDecisive(env, opts, pkg, info, pkg.aliasFields);
    }
  }
}
