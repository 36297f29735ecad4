# Browser-field and imports-field plugins of nodejs_resolver, in Dafny

This project models the two package-metadata redirection plugins of the
`nodejs_resolver` crate. Each plugin takes the request being resolved and
returns an outcome of a closed variant. `Resolving(info)` means the next
plugin of the chain gets `info`. `Success` and `Error` are terminal.

- **Browser field** (`BrowserField`). The manifest's "browser" object is an
  ordered list of `(key, Target(name) | Ignored)` entries. A bare request
  matches a key only by exact string equality. A path request matches when
  the normalized `<package dir>/<key>` equals the normalized request path,
  or equals that path with one configured extension appended. Matching
  entries are handled in declaration order; the first one that ends the
  scan decides the outcome:
  - `Ignored` ends the resolution as ignored.
  - A key mapped to itself leaves the request alone.
  - Any other target re-enters the resolver from the package directory.
    A finished outcome of that call is returned. An unfinished one lets the
    scan continue with the next entry.
- **Imports field** (`ImportsField`). This is Node.js subpath imports. A `#`
  specifier is passed to the condition matcher. The matcher's error, or an
  empty candidate list, is a terminal error. A single path candidate is
  resolved from the package directory. A single bare-module candidate is
  resolved from `<package>/node_modules`. That package is then loaded and
  its exports, imports and alias field plugins run in sequence.
- **Shared vocabulary** (`Resolution`). This module holds the request, the
  info, the outcome `State`, `AndThen`, and a generic left-to-right plugin
  chain `RunChain`.

The external collaborators are fields of an `Env` datatype holding
uninterpreted functions:
- path normalization, `Path::join`, `to_resolved_path` / `get_path` and
  `append_ext_for_path`;
- `Request::with_target` and the recursive `Resolver::_resolve`;
- `ImportsField::field_process`, `Resolver::parse` and `load_pkg_file`;
- the exports-field and alias-field plugins.

Paths are strings, so a path's display string is the path itself.

The two source files use different type names for the same things. One uses
`State` and `Info`; the other uses `ResolverStats` and `ResolverInfo`. Both
are modelled by the one `State` and `Info`. `is_finished` is taken to mean
"not `Resolving`".

The constant `MODULE` is defined elsewhere in the crate and is modelled as
`"node_modules"`. `Request::with_target` is also defined elsewhere. It is
an uninterpreted function of the browser plugin's `Env`.

Two behaviours of the code worth noting:
- `load_pkg_file` can succeed with no package at all. In that case the
  `node_modules` check is skipped, and the exports, imports and alias
  sub-chain runs with no package.
- The code's `assert!(list.len() <= 1)` aborts the resolution when the
  matcher returns several candidates for the request at hand. This is the
  `Aborted` ending of a run, distinct from every plugin outcome.

## Model

| member | source | states |
|---|---|---|
| Resolution.RunChainShortCircuits | src/plugin/imports_field.rs:65-68 | A plugin chain's outcome is the first finished outcome, and plugins after it, however many are appended, are not consulted |
| Resolution.RunChainPassesThrough | src/plugin/imports_field.rs:65-68 | A chain whose plugins each keep resolving along the run ends with `Resolving` of the last plugin's payload |
| ImportsField.ContainsFrom | src/plugin/imports_field.rs:60 | The directory-name test holds exactly when `node_modules` occurs somewhere in the path string |
| ImportsField.Apply | src/plugin/imports_field.rs:22-84 | The plugin changes nothing unless there is a package, the target starts with `#` and the package has an imports tree; a request it forwards is the original one, the parse of the single candidate rooted at the package directory or its `node_modules`, or one the nested alias plugin forwarded |
| ImportsField.SubChain | src/plugin/imports_field.rs:65-73 | A request the nested sub-chain forwards is always one the nested package's own alias field plugin forwarded |
| ImportsField.SuccessComesFromNestedPlugin | src/plugin/imports_field.rs:22-84 | The plugin never succeeds on its own: every successful outcome, at any nesting depth, is one an exports or alias field plugin returned |
| ImportsField.SubChainSuccessComesFromNestedPlugin | src/plugin/imports_field.rs:65-73 | Every successful outcome of the sub-chain is one an exports or alias field plugin returned |
| ImportsField.SeveralCandidatesAbort | src/plugin/imports_field.rs:38 | More than one candidate for the request aborts the resolution |
| ImportsField.MatcherErrorKeepsInfo | src/plugin/imports_field.rs:30-32 | A matcher error becomes an error outcome carrying the original info |
| ImportsField.NoCandidateIsNotExported | src/plugin/imports_field.rs:78-79 | With no candidate, the outcome is an error whose message names the target, and it carries the original info |
| ImportsField.RelativeCandidateRootedAtPackage | src/plugin/imports_field.rs:41-77 | A single path candidate continues with the parsed request from the package directory, whatever the loader, the nested plugins and the fuel |
| ImportsField.ModuleCandidateStages | src/plugin/imports_field.rs:41-73 | A single bare-module candidate: a load error carries the new `node_modules` info; a package outside `node_modules` continues with that info; otherwise the outcome is the sub-chain's |
| ImportsField.SubChainIsPluginChain | src/plugin/imports_field.rs:65-73 | Whenever the sub-chain ends with an outcome (it neither aborts nor runs out of fuel), that outcome is the generic chain of exports, then imports, then alias plugins, returned whether finished or not |
| ImportsField.SubChainStopsAtExports | src/plugin/imports_field.rs:65-73 | A finished exports outcome is returned verbatim, whatever the fuel and the alias plugin |
| ImportsField.ApplyFuelMonotone | src/plugin/imports_field.rs:65-68 | Extra fuel for the plugin's self-call never changes how a run ended, unless it ran out |
| ImportsField.SubChainFuelMonotone | src/plugin/imports_field.rs:65-68 | Extra fuel never changes how the sub-chain ended, unless it ran out |
| BrowserField.AnyExtension | src/plugin/browser_field.rs:29-32 | True exactly when some configured extension, appended to the request path, gives the alias path |
| BrowserField.PathKeyMatches | src/plugin/browser_field.rs:20-33 | A path key matches exactly when the normalized alias path is the normalized request path or that path plus some extension |
| BrowserField.Decide | src/plugin/browser_field.rs:62-82 | A matching entry lets the scan go on exactly when it is a non-self target whose re-resolution is unfinished; a self-mapped entry, and any continuing outcome, gives the original info |
| BrowserField.Scan | src/plugin/browser_field.rs:41-84 | The scan never passes on a rewritten request: a continuing outcome carries the original info |
| BrowserField.Apply | src/plugin/browser_field.rs:37-84 | The plugin either passes the original info on or finishes |
| BrowserField.ApplyLoop | src/plugin/browser_field.rs:37-85 | The entry-by-entry loop computes the plugin's outcome |
| BrowserField.ScanFirstDecisive | src/plugin/browser_field.rs:41-83 | The outcome is what the first decisive entry decides, in declaration order |
| BrowserField.ScanNoneDecisive | src/plugin/browser_field.rs:41-84 | With no decisive entry, the original info is passed on |
| BrowserField.ScanIgnoresSuffixAfterDecisive | src/plugin/browser_field.rs:41-82 | Entries declared after the first decisive one are never consulted |
| BrowserField.ScanSkipsTransparentPrefix | src/plugin/browser_field.rs:41-79 | Entries that do not match, or that fall through, have no effect on the outcome |
| BrowserField.DisabledIsNoOp | src/plugin/browser_field.rs:38-40 | With the browser field disabled, the original info is passed on |
| BrowserField.ModuleRequestMatchesExactly | src/plugin/browser_field.rs:16-18 | A bare request matches a key exactly when its target equals the key, with no extension probing |
| BrowserField.PathRequestMatchesByPath | src/plugin/browser_field.rs:42-48 | A path request matches by normalized path, optionally with one extension appended; with no extensions, only by equality |
| BrowserField.IgnoredEntryIgnoresModule | src/plugin/browser_field.rs:81 | An `Ignored` entry reached first ends resolution as ignored |
| BrowserField.SelfMappedEntryKeepsRequest | src/plugin/browser_field.rs:63-69 | A first-matching self-mapped entry passes the original info on, for every recursive resolver |
| BrowserField.SelfMappedAfterFallThrough | src/plugin/browser_field.rs:63-69 | A self-mapped entry reached after earlier entries matched not or fell through passes the original info on |
| BrowserField.RedirectedEntryFinishes | src/plugin/browser_field.rs:71-78 | A decisive redirect returns the finished outcome of resolving, from the package directory, the request given the new target by `with_target` |
| BrowserField.NoDecisiveEntryIsNoOp | src/plugin/browser_field.rs:84 | If no entry ends the scan, the browser field has no effect |

## Left out

- Tracing and log formatting (`tracing::debug!`, `color`, `depth`): they have no effect on outcomes.
- The resolution `Context`: `_resolve` is modelled as a function of the info alone, so its dependence on the context's recursion depth is not modelled.
- Path normalization, `Path::join`, `to_resolved_path`, `get_path` and `append_ext_for_path`: their code is not part of this model. They are uninterpreted functions.
- `load_pkg_file`, `Resolver::parse` and `ImportsField::field_process`: manifest loading, specifier classification and condition/pattern matching are not part of this model. They are uninterpreted functions returning result variants, so condition precedence and subpath patterns are not modelled.
- `Resolver::_resolve` is an uninterpreted function from info to outcome; `ExportsFieldPlugin` and `AliasFieldPlugin` are uninterpreted functions from package and info to outcome.
- BrowserField.Redirect: `Request::with_target` is not part of this model, so nothing is promised about the request it builds (its target, or whether the specifier kind is kept or re-classified).
- ImportsField.Apply: the plugin's self-call through the nested sub-chain is bounded by a `fuel` argument, spent only when the nested imports plugin engages. `OutOfFuel` means the bound was reached; the crate recurses without a bound.
- The panic of the `assert!` is the `Aborted` ending; its message and unwinding are not modelled.
- `Request` is reduced to its target and kind; its other fields play no part in either plugin.
- `Arc` sharing of `PkgFileInfo` and borrowed lifetimes: ownership plumbing with no behaviour.
