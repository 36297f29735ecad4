/**
 Shared vocabulary of the resolver's plugin pipeline: the request being
 resolved, the information a plugin receives (`Info`), and the closed
 outcome variant (`State`) every plugin returns.

 Paths are modelled as plain strings, so a path's display string is the
 path itself; joining, normalizing and extension appending are supplied by
 the callers as uninterpreted functions.
 */
module Resolution {

  type Path = string

  datatype Option<+T> = None | Some(value: T)

  /** Classification of a specifier, as computed by the resolver's parser.
      Only the distinction `Normal` (bare module name) versus everything
      else matters to the field plugins. */
  datatype PathKind = Normal | Relative | Absolute | Internal

  /** The specifier currently being resolved. */
  datatype Request = Request(target: string, kind: PathKind)

  /** A request together with the directory it is resolved from. */
  datatype Info = Info(path: Path, request: Request)

  datatype ResolveResult = Resource(info: Info) | Ignored

  /** Outcome of a plugin: keep resolving with this info, or a terminal
      success or error. */
  datatype State = Resolving(info: Info) | Success(result: ResolveResult) | Error(message: string, at: Info)
  {
    predicate IsFinished() {
      !Resolving?
    }

    /** Runs the next plugin on a `Resolving` payload; a finished state
        passes through untouched. */
    function AndThen(next: Info -> State): State {
      match this
      case Resolving(i) => next(i)
      case _ => this
    }
  }

  /** Resolver options read by the two field plugins. */
  datatype Options = Options(browserField: bool, extensions: seq<string>, conditionNames: seq<string>)

  /** Runs a chain of plugins left to right, stopping at the first finished state. */
  function RunChain(plugins: seq<Info -> State>, info: Info): State
    decreases |plugins|
  {
    if |plugins| == 0 then Resolving(info)
    else plugins[0](info).AndThen(i => RunChain(plugins[1..], i))
  }

  /** Some plugin of the chain, fed the `Resolving` payload of all its
      predecessors, finishes. */
  ghost predicate ChainStopsAt(plugins: seq<Info -> State>, info: Info, k: nat, s: State)
    decreases |plugins|
  {
    |plugins| > 0 &&
    var first := plugins[0](info);
    if k == 0 then first == s && first.IsFinished()
    else first.Resolving? && ChainStopsAt(plugins[1..], first.info, k - 1, s)
  }

  /** The chain's outcome is the first finished state if some plugin
      finishes, and otherwise `Resolving` of the last plugin's payload;
      plugins after the first finished one are not consulted. */
  lemma {:induction false} RunChainShortCircuits(plugins: seq<Info -> State>, info: Info, rest: seq<Info -> State>, k: nat, s: State)
    requires ChainStopsAt(plugins, info, k, s)
    ensures RunChain(plugins, info) == s
    ensures RunChain(plugins + rest, info) == s
    decreases |plugins|
  {
    assert (plugins + rest)[0] == plugins[0];
    assert (plugins + rest)[1..] == plugins[1..] + rest;
    if k > 0 {
      RunChainShortCircuits(plugins[1..], plugins[0](info).info, rest, k - 1, s);
    }
  }

  /** Every plugin of the chain keeps resolving when fed the payload of
      its predecessor, and the last payload is `out`. */
  ghost predicate ChainPassesTo(plugins: seq<Info -> State>, info: Info, out: Info)
    decreases |plugins|
  {
    if |plugins| == 0 then info == out
    else plugins[0](info).Resolving? && ChainPassesTo(plugins[1..], plugins[0](info).info, out)
  }

  /** A chain in which no plugin finishes along the run keeps resolving
      with the last plugin's payload. */
  lemma {:induction false} RunChainPassesThrough(plugins: seq<Info -> State>, info: Info, out: Info)
    requires ChainPassesTo(plugins, info, out)
    ensures RunChain(plugins, info) == Resolving(out)
    decreases |plugins|
  {
    if |plugins| > 0 {
      RunChainPassesThrough(plugins[1..], plugins[0](info).info, out);
    }
  }
}
