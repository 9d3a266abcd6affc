# SDK-to-MCP converter: a verified model of its core

The converter turns the methods of a Python SDK into MCP tools. It has two
discovery strategies.

- **Config-driven discovery** (`loader.py`, `registry.py`). Each configured
  provider builds one client, and each declared method becomes one catalog
  entry. The entry takes its name from the rename (or else the method name),
  its mode from the declaration (default `"read"`), and its argument hints
  (default `{}`).
- **Reflective discovery** (`autodiscover.py`). Three stages are merged into
  one catalog keyed by tool name, and a later entry with the same name
  overwrites an earlier one:
  - the package's public top-level functions;
  - the methods of a client built from a built-in hint table;
  - the methods of up to three instances of zero-argument classes.

At call time (`executor.py`), one catalog entry runs against one payload:
- the `dry_run` and `confirm` control keys are stripped;
- a `'write'` tool called with neither flag is refused;
- the rest of the payload is bound to the target's signature by keyword, and defaults are applied;
- a dry run returns a preview instead of calling;
- otherwise the target is called and its result normalised.

In the model every path ends in a single structured outcome. In the source some exceptions escape `call_tool`; those known are listed under "## Left out".

The Python interpreter is modelled as `Py.Runtime`: a record of total oracle
functions for attribute lookup, calls, member listing, signatures, `repr`,
JSON encodability, truthiness of objects, and module import. Plain data
(`None`, booleans, integers, strings, lists, tuples, string-keyed dicts) is a
concrete `Py.Value`; every other object is an opaque `Ref`. The process
environment is a `map<string, string>`, and the configuration arrives
already parsed.

Modules, in dependency order:

- `Py` (py.dfy): values, exceptions, parameters, the runtime, and dotted attribute paths.
- `Text` (text.dfy): `startswith`, `in`, `split`, `strip`, and single-character `replace`.
- `Binding` (binding.dfy): `Signature.bind_partial(**payload)` followed by `apply_defaults()`.
- `Specs` (specs.dfy): the catalog entry, shared by both discovery strategies.
- `Executor` (executor.py → executor.dfy): `_jsonable` and `call_tool`.
- `Loader` (loader.py → loader.dfy): `build_client` and `collect_methods`.
- `Registry` (registry.py → registry.dfy): the fold of a list of entries into a name-keyed map, plus `build_registry`.
- `Autodiscover` (autodiscover.py → autodiscover.dfy): tool naming, member collection, path resolution, the hinted client, the zero-argument scan, and `build_registry_from_package`.

Form of the model:
- Loops in the source are methods with `while` loops. Each is proved equal to a specification function: `CollectMethods`, `ResolveAttr`, `ZeroArgInstances`, the collectors and the merge loops.
- Straight-line code with early returns is a method that returns early: `CallTool` and `InstantiateHintedClient`.
- Expressions are functions: `ToolName`, `BuildClient`, `Jsonable` and the dict comprehension of `build_registry`.

### Where the code differs from what its design suggests

The model follows the code in each of these cases.

- `_jsonable` (executor.py:4-15) returns `repr(obj)` for a result that
  `json.dumps` accepts. The encodable branch has no `return`, so control
  falls through to the last line. `Executor.Jsonable` states this: an
  encodable result comes back as `StrV(repr(obj))`, and a value is returned
  as itself only when it is the encodable raw attribute of a non-encodable
  object.
- `bind_partial` (executor.py:28) never rejects a missing required
  parameter. It fails only on a positional-only name or an unknown name with
  no `**kwargs`. `Binding.EmptyPayloadBinds` proves that an empty payload
  binds against every signature.
- The lossy-serialisation handler (executor.py:44-49) is reached only when
  `_jsonable` raises. Its two `json.dumps` calls are guarded, so the only
  exception that can leave it is one from the final `repr(obj)`
  (executor.py:15), which no `try` covers. The model's `repr` is total, so
  `Executor.CallTool` proves that the lossy outcome never occurs in the
  model.
- Loader and autodiscover parse the `"env:"` marker differently.
  - Loader: any occurrence counts, and the name is the text between the first marker and the next one (`split("env:")[1]`).
  - Autodiscover: only a leading marker counts, and the name is everything after it (`split("env:", 1)[1]`).
- The zero-argument scan checks its bound only after an append. A bound
  below one therefore still lets one instance through (`InstanceBound`).
- The catalog is keyed by sanitised names, and sanitising is not
  injective (`ToolNameDotCollides`). Across stages this is a real
  collision: a top-level function `Cls_m` and the method `m` of an
  instance of class `Cls` both become `pkg_Cls_m`
  (`FunctionMethodCollide`). The instance's record then silently replaces
  the function's (`PackageMerge`).
- Reflective discovery treats the failure of a single candidate as
  non-fatal only where the code has a `try`: a hinted client or a
  zero-argument class that fails to build is skipped. Member listing and
  the truthiness test are not guarded, so a failure there aborts the whole
  `build_registry_from_package` (see "## Left out").
- The target is called as `fn(**bound.arguments)` (executor.py:39), so
  every bound entry goes by keyword, the variadic ones too. A `*args`
  parameter arrives as the keyword `args=()`. A `**kwargs` parameter arrives
  as one keyword holding the dict of unknown payload keys, rather than as
  those keys (`VariadicPassedByKeyword`). What the target then does with
  such a call is up to the `call` oracle.

## Model

| member | source | states |
|---|---|---|
| Py.GetPathAppend | autodiscover.py:74-78 | resolving a dotted path in two pieces is the same as resolving the first piece and then the second from where the first ended; a failure in the first piece is the whole result |
| Py.GetPathMissingSegment | autodiscover.py:74-78 | if segment `i` is missing on the object the earlier segments reached, the whole path fails with that segment's `AttributeError`, whatever follows it |
| Text.Find | loader.py:25 | `"env:" in auth`: the index exists iff the pattern occurs, and it is the first occurrence |
| Text.FindIsFirst | loader.py:26 | `Find` returns `i` exactly when `i` is an occurrence with none before it |
| Text.FindPieceEnd | loader.py:26 | the end of the first `split` piece is the first occurrence of the separator, or the end of the string when there is none |
| Text.Strip | loader.py:26 | the result is a slice of the input with only whitespace cut from either end, and it neither starts nor ends with whitespace |
| Text.Split | autodiscover.py:76 | `split('.')` always yields at least one part, and no part contains the separator |
| Text.JoinSplit | autodiscover.py:76 | joining the parts of a split with the separator gives back the original string |
| Text.SplitJoin | autodiscover.py:76 | splitting a join of separator-free parts gives back those parts |
| Text.ReplaceChar | autodiscover.py:39 | same length; every occurrence of the character is replaced and every other character is kept |
| Binding.PositionalOnlyClash | executor.py:28 | finds a name exactly when the payload names a positional-only parameter; the name found is in the payload and belongs to the first positional-only parameter the payload names |
| Binding.BindSucceedsIff | executor.py:27-31 | binding succeeds iff no positional-only parameter is named and every payload key names a parameter, unless there is a `**kwargs` parameter |
| Binding.EmptyPayloadBinds | executor.py:28 | missing required parameters are not an error: an empty payload binds against every signature |
| Binding.UnknownKeyRefused | executor.py:28-31 | an unknown key with no `**kwargs` parameter makes binding fail |
| Binding.ApplyDefaultsKept | executor.py:29 | `apply_defaults` keeps exactly the parameters that are bound, defaulted or variadic |
| Binding.ApplyDefaultsNames | executor.py:29 | the names after `apply_defaults` are the bound parameters plus all defaulted and all variadic ones |
| Binding.ApplyDefaultsEntries | executor.py:29 | every kept parameter appears with its resolved value (bound value, else default, else `()` / `{}`), and nothing else appears |
| Binding.VarKeywordUnique | executor.py:28 | in a well-formed signature, unknown keys go to the one `**kwargs` parameter, whose name is not a keyword name |
| Binding.BindPartialBinds | executor.py:28 | a successful bind maps each payload key that names a parameter to its payload value, and maps `**kwargs` to the unknown keys when there are any |
| Binding.BoundNames | executor.py:28-29 | the target receives the payload keys that name parameters plus every defaulted and variadic parameter; without `**kwargs` that is every payload key |
| Binding.BoundValues | executor.py:28-29 | per parameter: the payload value if named, else the default; `*args` gets `()`, and `**kwargs` gets the dict of unknown payload keys |
| Executor.ErrorText | executor.py:23-41 | the write-gate message is the fixed text; binding failures and SDK failures are told apart by their fixed prefixes, each in both directions |
| Executor.Jsonable | executor.py:4-15 | an encodable result comes back as its `repr` text; an encodable, non-`None` raw attribute of a non-encodable result comes back as itself; a non-encodable result with no such raw attribute comes back as its `repr` text; nothing else is returned, and never `None` |
| Executor.JsonableEncodable | executor.py:4-15 | whenever every string is encodable, the normalised result is encodable |
| Executor.RenderArgs | executor.py:36 | the rendered argument list is empty iff there are no arguments |
| Executor.RenderArgsAppend | executor.py:36 | the `', '.join` of `k=repr(v)` items: rendering splits at any point into the two halves joined by `", "` |
| Executor.RenderArgsSnoc | executor.py:36 | one more argument appends `", k=repr(v)"`, or is the whole rendering when it is the first |
| Executor.WouldCall | executor.py:36 | the preview is the qualified name, `(`, the rendered arguments and `)`; with no arguments it is `name()` |
| Executor.Stripped | executor.py:19-21 | the working payload contains neither control key, keeps every other key with its value, adds nothing, and is empty for a missing payload |
| Executor.CallTool | executor.py:18-49 | the write gate refuses exactly a 'write' tool with neither flag truthy, and does not call it. A binding failure is reported and nothing is called. A dry run never calls and returns the tool name and the preview. The target is called iff it is ungated, binds, and is not a dry run; it then returns the SDK exception or the normalised result. The lossy outcome never occurs. |
| Executor.VariadicPassedByKeyword | executor.py:39 | the keyword arguments handed to the target carry `*args` as the pair `(name, ())` and `**kwargs` as `(name, {unknown keys})` |
| Loader.MarkerPiece | loader.py:25-26 | `split("env:")[1]` exists iff `auth` contains `"env:"`, and it is the text from just after the first marker up to the next marker, or to the end when there is no other |
| Loader.AuthVariable | loader.py:25-26 | a variable name exists iff `auth` contains `"env:"`; it is the stripped text between the first marker and the next one (or the end); for a leading marker with no second one, it is the stripped remainder |
| Loader.MarkedNameExists | loader.py:25-26 | whenever `auth` contains `"env:"`, a first marker and the piece after it exist, so the name is always determined |
| Loader.LeadingMarker | loader.py:26 | an `auth` that starts with the only marker names everything after that marker |
| Loader.BuildClient | loader.py:20-28 | import and lookup failures propagate; with a marker the constructor gets exactly one argument (the variable's value, or `None` when unset); without one a callable is called with no arguments and anything else is the client |
| Loader.AppendProviderMethods | loader.py:35-46 | the inner loop appends one entry per declaration, in order, or stops with the first lookup or signature failure |
| Loader.CollectMethods | loader.py:31-47 | the nested loops compute `Collected`: per provider, the client's entries, in order, with the first failure aborting |
| Loader.ProviderSpecsMatch | loader.py:35-46 | a provider's entries match its declarations one to one, each the client attribute of that name with the declared name, mode and hints |
| Loader.CollectedMatchesDeclarations | loader.py:31-47 | a successful collection has as many entries as declared methods, ordered by provider then method; each is named by its rename or else its name, has the declared mode or else `"read"`, and the declared hints or else `{}` |
| Loader.ProviderSpecsSucceedsIff | loader.py:35-46 | a provider's methods collect iff every declared method resolves and has a signature |
| Loader.CollectedSucceedsIff | loader.py:31-47 | collection is all or nothing: it succeeds iff every provider builds and every declared method resolves |
| Registry.InsertAppend | registry.py:7 | folding two batches into the map one after the other is the same as folding in their concatenation |
| Registry.InsertKeys | registry.py:7 | after folding, every key names its own entry, and the keys are the old ones plus the list's tool names |
| Registry.InsertLastWins | registry.py:7 | for a name, the entry kept is the last one in the list with that name |
| Registry.InsertValuesFrom | registry.py:7 | every entry of the result comes from the list, or was already in the map |
| Registry.InsertKeepsOthers | autodiscover.py:144-154 | a name the folded list does not mention keeps the map's earlier entry, or stays absent |
| Registry.InsertIgnoresBase | autodiscover.py:144-154 | for a name the folded list mentions, the result does not depend on what the map held before |
| Registry.BuildMapKeys | registry.py:7 | every key equals its entry's tool name; the key set is exactly the list's tool names; there are no more keys than list items |
| Registry.BuildMapLastWins | registry.py:7 | on duplicate names the entry appearing last in the list is kept |
| Registry.BuildMapValuesFrom | registry.py:7 | every value of the map is an element of the list |
| Registry.BuildMapConcat | autodiscover.py:144-154 | after merging `b` into `a`, a name in `b` takes `b`'s entry, any other name keeps `a`'s, and the key set is the union |
| Registry.BuildRegistry | registry.py:4-7 | succeeds iff the collection does, carries the collection's error otherwise, and on success is the name-keyed map of the collected entries, each key naming its entry |
| Autodiscover.Sanitize | autodiscover.py:39 | same length; spaces and dots become underscores and every other character is kept |
| Autodiscover.ToolName | autodiscover.py:38-39 | the result has no space and no dot, has length `len(pkg) + 1 + len(qual)`, and is the sanitised package, one `_`, and the sanitised qualifier |
| Autodiscover.InstanceToolName | autodiscover.py:65 | an instance member is named `pkg_Class_member`, with each part sanitised |
| Autodiscover.ToolNameDotCollides | autodiscover.py:39 | putting `_` in place of a `.` in the qualifier gives the same tool name, so the two names collide |
| Autodiscover.FunctionMethodCollide | autodiscover.py:38-39 | a top-level function `Cls_m` and the method `m` of an instance of `Cls` get the same tool name |
| Autodiscover.UnreadableSignatureBindsNothing | autodiscover.py:31-35 | a member whose signature cannot be read gets the empty signature, so it binds exactly the empty payload, to no arguments |
| Autodiscover.PublicMembers | autodiscover.py:44-46 | a member survives the underscore filter iff its name does not start with `_`; the filter never lengthens the list |
| Autodiscover.ReflectedShape | autodiscover.py:42-71 | exactly one record per public member, in member order, named by `_tool_name` of the member, carrying the member and no mode or hints |
| Autodiscover.CollectTopLevelFunctions | autodiscover.py:42-55 | the loop with `continue` yields `TopLevelSpecs`, the records of the public function members |
| Autodiscover.CollectMethodsFromInstance | autodiscover.py:58-71 | the loop with `continue` yields `InstanceSpecs`, the records of the public callable members, qualified by the class name |
| Autodiscover.CollectedNames | autodiscover.py:42-71 | top-level records are named `pkg_function` and instance records `pkg_Class_member`, one per public member; none has a mode, so the write gate never applies to a reflected tool |
| Autodiscover.ResolveAttr | autodiscover.py:74-78 | the loop follows the dot-separated segments left to right, failing at the first missing one (`GetPath` of the split path) |
| Autodiscover.AuthNames | autodiscover.py:101-107 | a non-empty `auth_env` list takes precedence; otherwise a leading `"env:"` marker gives the stripped remainder; otherwise no variable |
| Autodiscover.FirstAuthValue | autodiscover.py:109 | a value is found iff some listed variable is set and non-empty, and it is the value of the first such variable |
| Autodiscover.HintedClient | autodiscover.py:81-114 | `None` for an unknown package, a hint without `construct`, or an unresolvable constructor; once the constructor resolves, the client is the constructor's result on the chosen argument, or `None` when that call raises |
| Autodiscover.InstantiateHintedClient | autodiscover.py:81-114 | the straight-line code with early returns computes `HintedClient`; the setup function is called iff it resolves, and its failure does not stop construction |
| Autodiscover.ConstructHinted | autodiscover.py:96-114 | resolving the constructor, choosing the credential and calling it computes `HintedClient` for a hint with a `construct` path |
| Autodiscover.GithubAuthName | autodiscover.py:15-19 | the GitHub hint `"env: GITHUB_TOKEN"` reads its token from `GITHUB_TOKEN`, with the blank stripped |
| Autodiscover.AuthEnvPrecedence | autodiscover.py:101-112 | with an `auth_env` list, the first set, non-empty variable of the list is the sole constructor argument |
| Autodiscover.NoAuthValueNoArgs | autodiscover.py:109-112 | with no candidate variable set, the constructor is called with no arguments |
| Autodiscover.ConstructedFrom | autodiscover.py:117-137 | every instance comes from a public class with a readable signature needing no argument whose construction succeeded, and every such class contributes its instance |
| Autodiscover.TryInstance | autodiscover.py:120-136 | one iteration: nothing for a private class, an unreadable signature, a required parameter or a raising constructor; otherwise the instance |
| Autodiscover.ZeroArgStop | autodiscover.py:130-132 | once a prefix of the classes has produced the bound's number of instances, those are exactly the bounded scan's result |
| Autodiscover.ZeroArgInstances | autodiscover.py:117-137 | the scan returns the first `max(1, max_instances)` instances of the eligible, constructible classes in member order (all of them when there are fewer), so never more than that bound |
| Autodiscover.Merge | autodiscover.py:144-145 | the dict-update loop folds the records into the map, a later record overwriting an earlier one of the same name |
| Autodiscover.MergeInstances | autodiscover.py:152-154 | the nested loops over instances fold each instance's records in, instance by instance |
| Autodiscover.BuildRegistryFromPackage | autodiscover.py:140-156 | a failing import propagates; otherwise the catalog is the name-keyed fold of the top-level records, then the hinted client's records (only when the client is truthy), then the zero-argument instances' records |
| Autodiscover.PackageMerge | autodiscover.py:140-156 | three-stage last-writer-wins: a name from a zero-argument instance takes that record, else one from the hinted client, else the top-level function; every key names its record, and the keys are the union of the stages' names |

## Left out

- `load_config` (loader.py:15-17): reading and parsing YAML is I/O. `Registry.BuildRegistry` takes the parsed `Config`.
- A YAML `auth: null` or a non-string `auth` is not representable: `auth` is an optional string.
- Missing required config keys (`import`, `construct`, `providers`, `methods`, `name`) raise `KeyError` in the source. The model's records always carry them.
- `eval(f"mod.{ctor}")` (loader.py:24) is modelled only for a `construct` that is a dotted attribute path, not for arbitrary Python expressions.
- `importlib.import_module`, `inspect.getmembers`, `inspect.signature`, `inspect.getdoc`, `callable`, `json.dumps`, `repr`, `__qualname__` and `type(e).__name__` are uninterpreted oracles of `Py.Runtime`. Their internals, including `repr` text and JSON encoding, are not modelled.
- Autodiscover.BuildRegistryFromPackage: `Runtime.members` and `Runtime.objectTruthy` are total, so the model builds a catalog whenever the import succeeds. In the source, three steps are unguarded, and a failure in any of them aborts the whole function:
  - `inspect.getmembers(inst, predicate=callable)` (autodiscover.py:60) reads every attribute and catches only `AttributeError`, so a property that raises anything else propagates. This happens for the hinted client (autodiscover.py:149) and for each zero-argument instance (autodiscover.py:153).
  - The same holds for a module attribute that raises when `inspect.getmembers` reads it for the top-level functions (autodiscover.py:44) or for the zero-argument scan (autodiscover.py:119).
  - A `__bool__` that raises on the hinted client fails the `if hinted:` test (autodiscover.py:148).
- Side effects of the hint setup call (for example loading a kube config) and of constructors: the runtime is pure, so a call's effect on later calls is not modelled.
- Executor.Jsonable: a `getattr` that raises something other than `AttributeError` inside `_jsonable` is modelled like a missing attribute.
- Loader.CollectMethods: when `inspect.signature` fails on a declared method (loader.py:42), the model always reports a `ValueError`, whatever type the source's exception has.
- Executor.BindErrorText: Python's message names the first unexpected keyword; a payload map has no order, so the model's message does not name it.
- The rule of newer Python releases that lets a positional-only name go to `**kwargs`: the model keeps the classic rule that raises `TypeError`.
- Python dict insertion order is not modelled. Payloads and catalogs are maps, so the `would_call` preview follows the signature order that `apply_defaults` produces.
- Floating-point, bytes and other non-string-keyed values are not modelled as data; they are opaque `Ref` objects.
- `str.strip()` in the model removes blank, `\t`, `\n`, `\v`, `\f`, `\r` and U+001C to U+001F. The non-ASCII whitespace Python also strips (U+0085, U+00A0, U+1680, U+2000 to U+200A, U+2028, U+2029, U+202F, U+205F, U+3000) is not modelled.
- Executor.CallTool: `repr`, `str`, `__qualname__` and the call itself are total oracles in the model, so the exceptions that escape `call_tool` in the source are not modelled. These include:
  - A `__repr__` that raises, on any result that reaches `repr(obj)` at executor.py:15. This covers encodable results, such as a `dict` subclass with a raising `__repr__`, and non-encodable ones without a usable raw attribute. The exception leaves `_jsonable` and reaches the handler at executor.py:44. The handler's own `repr(result)` (executor.py:47) then raises again, and the exception leaves `call_tool`.
  - The dry-run preview calls `repr` on every bound value (`{v!r}`, executor.py:36), signature defaults included, outside any `try`. A raising `__repr__` there leaves `call_tool`.
  - The SDK-error handler formats `str(e)` (executor.py:41). An exception whose `__str__` raises leaves `call_tool`.
  - On a dry run, `method_spec.fn.__qualname__` (executor.py:36) raises `AttributeError` for a target without one, such as a `functools.partial` or a callable instance picked up by `inspect.getmembers(inst, predicate=callable)`.
  - `except Exception` (executor.py:40) does not catch a `BaseException` such as `SystemExit` or `KeyboardInterrupt`. In the model, every failure of `call` is reported as an SDK error.
- The real behaviour of the SDKs in the hint table (GitHub, Kubernetes, Azure Blob Storage) is not modelled. Only the table's contents are kept, as `Autodiscover.HINTS`.
- mcp_server.py (the async stdio MCP transport), agent_demo.py (an LLM agent loop against an external service) and cli.py (argument parsing, printing, exit codes) are not part of this model.
