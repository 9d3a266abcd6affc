/** Reflective discovery: a package's public functions, the methods of a
    client built from a hint table, and the methods of a few instances of its
    zero-argument classes, merged into one name-keyed catalog. */
module Autodiscover {

  import opened Py
  import opened Text
  import opened Specs
  import opened Registry

  // ---------------------------------------------------------------- naming

  function SanitizeChar(c: char): char {
    if c == ' ' || c == '.' then '_' else c
  }

  /** `s.replace(" ", "_").replace(".", "_")`. */
  function Sanitize(s: string): (r: string)
    ensures |r| == |s|
    ensures forall k :: 0 <= k < |s| ==> r[k] == SanitizeChar(s[k])
  {
    ReplaceChar(ReplaceChar(s, ' ', '_'), '.', '_')
  }

  /** `_tool_name(pkg, qual)`: the dotted name `pkg.qual` with spaces and dots
      replaced by underscores. It is free of both, as long as the dotted name,
      and consists of the sanitised package, one underscore and the sanitised
      qualifier. */
  function ToolName(pkg: string, qual: string): (r: string)
    ensures |r| == |pkg| + 1 + |qual|
    ensures forall k :: 0 <= k < |r| ==> r[k] != ' ' && r[k] != '.'
    ensures r == Sanitize(pkg) + "_" + Sanitize(qual)
  {
    var dotted := pkg + "." + qual;
    var r := ReplaceChar(ReplaceChar(dotted, ' ', '_'), '.', '_');
    assert forall k :: 0 <= k < |r| ==> r[k] == SanitizeChar(dotted[k]);
    assert r == Sanitize(pkg) + "_" + Sanitize(qual) by {
      forall k | 0 <= k < |r| ensures r[k] == (Sanitize(pkg) + "_" + Sanitize(qual))[k] {
        if k < |pkg| { assert dotted[k] == pkg[k]; }
        else if k == |pkg| { assert dotted[k] == '.'; }
        else { assert dotted[k] == qual[k - |pkg| - 1]; }
      }
    }
    r
  }

  lemma SanitizeConcat(a: string, b: string)
    ensures Sanitize(a + b) == Sanitize(a) + Sanitize(b)
  {
    ReplaceCharConcat(a, b, ' ', '_');
    ReplaceCharConcat(ReplaceChar(a, ' ', '_'), ReplaceChar(b, ' ', '_'), '.', '_');
  }

  /** An instance member's name is `pkg_Class_member`, each part sanitised. */
  lemma InstanceToolName(pkg: string, cls: string, name: string)
    ensures ToolName(pkg, cls + "." + name) == Sanitize(pkg) + "_" + Sanitize(cls) + "_" + Sanitize(name)
  {
    SanitizeDotted(cls, name);
    assert ToolName(pkg, cls + "." + name) == Sanitize(pkg) + "_" + Sanitize(cls + "." + name);
  }

  lemma SanitizeDotted(cls: string, name: string)
    ensures Sanitize(cls + "." + name) == Sanitize(cls) + "_" + Sanitize(name)
  {
    assert cls + "." + name == cls + ("." + name);
    SanitizeConcat(cls, "." + name);
    SanitizeConcat(".", name);
    assert Sanitize(".") == "_";
  }

  /** Sanitising is not injective: a dot and an underscore in the same place
      give the same tool name, so such members overwrite each other. */
  lemma ToolNameDotCollides(pkg: string, qual: string, k: int)
    requires 0 <= k < |qual| && qual[k] == '.'
    ensures ToolName(pkg, qual[k := '_']) == ToolName(pkg, qual)
  {
    var q' := qual[k := '_'];
    assert Sanitize(q') == Sanitize(qual) by {
      forall j | 0 <= j < |qual| ensures Sanitize(q')[j] == Sanitize(qual)[j] {}
    }
  }

  /** The collision across stages: a top-level function `Cls_m` and the
      method `m` of an instance of class `Cls` get the same tool name. */
  lemma FunctionMethodCollide(pkg: string, cls: string, m: string)
    ensures ToolName(pkg, cls + "_" + m) == ToolName(pkg, cls + "." + m)
  {
    var qual := cls + "." + m;
    assert qual[|cls|] == '.';
    assert qual[|cls| := '_'] == cls + "_" + m;
    ToolNameDotCollides(pkg, qual, |cls|);
  }

  /** `name.startswith("_")`. */
  predicate IsPrivate(name: string) {
    StartsWith(name, "_")
  }

  // ------------------------------------------------- collecting members

  /** `_safe_signature(obj)`: an unreadable signature reads as empty. */
  function SafeSignature(rt: Runtime, obj: Value): Binding.Signature {
    match rt.signature(obj)
    case Some(sig) => sig
    case None => []
  }

  /** A tool whose signature could not be read takes no arguments: it binds
      exactly the empty payload, to an empty argument list. */
  lemma UnreadableSignatureBindsNothing(rt: Runtime, obj: Value, kwargs: map<string, Value>)
    requires rt.signature(obj).None?
    ensures Binding.Bind(SafeSignature(rt, obj), kwargs).Success? <==> kwargs == map[]
    ensures Binding.Bind(SafeSignature(rt, obj), kwargs).Success? ==>
              Binding.Bind(SafeSignature(rt, obj), kwargs).value == []
  {
    var sig := SafeSignature(rt, obj);
    assert sig == [];
    Binding.BindSucceedsIff(sig, kwargs);
    if kwargs != map[] {
      var k :| k in kwargs;
      assert k !in Binding.KeywordNames(sig);
    }
  }

  /** The record reflective discovery builds for `fn`: no mode, no hints. */
  function ReflectedSpec(rt: Runtime, toolName: string, fn: Value): MethodSpec {
    MethodSpec(toolName, fn, SafeSignature(rt, fn), rt.doc(fn), None, None)
  }

  /** The members whose name does not start with an underscore, in order. */
  function Public(ms: seq<(string, Value)>): seq<(string, Value)> {
    if ms == [] then []
    else Public(ms[..|ms| - 1]) + (if IsPrivate(ms[|ms| - 1].0) then [] else [ms[|ms| - 1]])
  }

  /** What the collecting loops append for `ms`: one record per public member,
      named `pkg` + `qualifier` + member name. */
  function Reflected(rt: Runtime, pkg: string, qualifier: string, ms: seq<(string, Value)>): seq<MethodSpec> {
    if ms == [] then []
    else
      var m := ms[|ms| - 1];
      Reflected(rt, pkg, qualifier, ms[..|ms| - 1])
        + (if IsPrivate(m.0) then [] else [ReflectedSpec(rt, ToolName(pkg, qualifier + m.0), m.1)])
  }

  /** A member is kept exactly when its name is public, and the kept ones
      appear in their original order. */
  lemma {:induction false} PublicMembers(ms: seq<(string, Value)>)
    ensures forall x :: x in Public(ms) <==> x in ms && !IsPrivate(x.0)
    ensures |Public(ms)| <= |ms|
  {
    if ms != [] {
      var init := ms[..|ms| - 1];
      PublicMembers(init);
      assert ms == init + [ms[|ms| - 1]];
    }
  }

  /** One record per public member, in order, named after it and carrying no
      mode, so the executor never gates a reflected tool. */
  lemma {:induction false} ReflectedShape(rt: Runtime, pkg: string, qualifier: string, ms: seq<(string, Value)>)
    ensures |Reflected(rt, pkg, qualifier, ms)| == |Public(ms)|
    ensures forall k :: 0 <= k < |Public(ms)| ==>
              Reflected(rt, pkg, qualifier, ms)[k]
                == ReflectedSpec(rt, ToolName(pkg, qualifier + Public(ms)[k].0), Public(ms)[k].1)
    ensures forall k :: 0 <= k < |Public(ms)| ==>
              Reflected(rt, pkg, qualifier, ms)[k].mode.None? && Reflected(rt, pkg, qualifier, ms)[k].argHints.None?
  {
    if ms != [] {
      ReflectedShape(rt, pkg, qualifier, ms[..|ms| - 1]);
    }
  }

  lemma ReflectedStep(rt: Runtime, pkg: string, qualifier: string, ms: seq<(string, Value)>, i: int)
    requires 0 <= i < |ms|
    ensures Reflected(rt, pkg, qualifier, ms[..i + 1])
              == Reflected(rt, pkg, qualifier, ms[..i])
                 + (if IsPrivate(ms[i].0) then [] else [ReflectedSpec(rt, ToolName(pkg, qualifier + ms[i].0), ms[i].1)])
  {
    assert ms[..i + 1][..i] == ms[..i];
  }

  /** `inspect.getmembers(mod, inspect.isfunction)`. */
  function Functions(rt: Runtime, mod: Value): seq<(string, Value)> {
    MembersWhere(rt.members(mod), rt.isFunction)
  }

  /** `inspect.getmembers(inst, predicate=callable)`. */
  function Callables(rt: Runtime, inst: Value): seq<(string, Value)> {
    MembersWhere(rt.members(inst), rt.isCallable)
  }

  function TopLevelSpecs(rt: Runtime, pkg: string, mod: Value): seq<MethodSpec> {
    Reflected(rt, pkg, "", Functions(rt, mod))
  }

  function InstanceSpecs(rt: Runtime, pkg: string, inst: Value): seq<MethodSpec> {
    Reflected(rt, pkg, rt.className(inst) + ".", Callables(rt, inst))
  }

  /** `_collect_top_level_functions(pkg, mod)`. */
  method CollectTopLevelFunctions(rt: Runtime, pkg: string, mod: Value) returns (out: seq<MethodSpec>)
    ensures out == TopLevelSpecs(rt, pkg, mod)
  {
    var fns := Functions(rt, mod);
    out := [];
    var i := 0;
    while i < |fns|
      invariant 0 <= i <= |fns|
      invariant out == Reflected(rt, pkg, "", fns[..i])
    {
      var (name, fn) := fns[i];
      ReflectedStep(rt, pkg, "", fns, i);
      if IsPrivate(name) {
        i := i + 1;
        continue;
      }
      assert "" + name == name;
      out := out + [ReflectedSpec(rt, ToolName(pkg, name), fn)];
      i := i + 1;
    }
    assert fns[..i] == fns;
  }

  /** `_collect_methods_from_instance(pkg, inst)`. */
  method CollectMethodsFromInstance(rt: Runtime, pkg: string, inst: Value) returns (out: seq<MethodSpec>)
    ensures out == InstanceSpecs(rt, pkg, inst)
  {
    var members := Callables(rt, inst);
    var cls := rt.className(inst);
    out := [];
    var i := 0;
    while i < |members|
      invariant 0 <= i <= |members|
      invariant out == Reflected(rt, pkg, cls + ".", members[..i])
    {
      var (name, member) := members[i];
      ReflectedStep(rt, pkg, cls + ".", members, i);
      if IsPrivate(name) {
        i := i + 1;
        continue;
      }
      out := out + [ReflectedSpec(rt, ToolName(pkg, cls + "." + name), member)];
      i := i + 1;
    }
    assert members[..i] == members;
  }

  /** Top-level records are named `pkg_function`; instance records
      `pkg_Class_member`; none of either kind carries a mode. */
  lemma CollectedNames(rt: Runtime, pkg: string, mod: Value, inst: Value)
    ensures |TopLevelSpecs(rt, pkg, mod)| == |Public(Functions(rt, mod))|
    ensures |InstanceSpecs(rt, pkg, inst)| == |Public(Callables(rt, inst))|
    ensures forall k :: 0 <= k < |TopLevelSpecs(rt, pkg, mod)| ==>
              TopLevelSpecs(rt, pkg, mod)[k].mode.None?
              && TopLevelSpecs(rt, pkg, mod)[k].toolName
                   == Sanitize(pkg) + "_" + Sanitize(Public(Functions(rt, mod))[k].0)
    ensures forall k :: 0 <= k < |InstanceSpecs(rt, pkg, inst)| ==>
              InstanceSpecs(rt, pkg, inst)[k].mode.None?
              && InstanceSpecs(rt, pkg, inst)[k].toolName
                   == Sanitize(pkg) + "_" + Sanitize(rt.className(inst)) + "_"
                      + Sanitize(Public(Callables(rt, inst))[k].0)
  {
    ReflectedShape(rt, pkg, "", Functions(rt, mod));
    ReflectedShape(rt, pkg, rt.className(inst) + ".", Callables(rt, inst));
    forall k | 0 <= k < |Public(Functions(rt, mod))|
      ensures "" + Public(Functions(rt, mod))[k].0 == Public(Functions(rt, mod))[k].0
    {
    }
    forall k | 0 <= k < |Public(Callables(rt, inst))|
      ensures ToolName(pkg, rt.className(inst) + "." + Public(Callables(rt, inst))[k].0)
              == Sanitize(pkg) + "_" + Sanitize(rt.className(inst)) + "_" + Sanitize(Public(Callables(rt, inst))[k].0)
    {
      var name := Public(Callables(rt, inst))[k].0;
      assert rt.className(inst) + "." + name == rt.className(inst) + ("." + name);
      InstanceToolName(pkg, rt.className(inst), name);
    }
  }

  // --------------------------------------------------- attribute paths

  /** `_resolve_attr(root, dotted)`: one `getattr` per dot-separated segment. */
  method ResolveAttr(rt: Runtime, root: Value, dotted: string) returns (r: Result<Value, Exc>)
    ensures r == GetPath(rt, root, Split(dotted, '.'))
  {
    var parts := Split(dotted, '.');
    var obj := root;
    var i := 0;
    while i < |parts|
      invariant 0 <= i <= |parts|
      invariant GetPath(rt, root, parts) == GetPath(rt, obj, parts[i..])
    {
      assert parts[i..][0] == parts[i] && parts[i..][1..] == parts[i + 1..];
      var next := rt.getattr(obj, parts[i]);
      if next.None? {
        return Failure(AttributeError(parts[i]));
      }
      obj := next.value;
      i := i + 1;
    }
    r := Success(obj);
  }

  // ------------------------------------------------------ hinted client

  /** One entry of the hint table. `authEnv` is `[]` when the entry has no
      `auth_env` list. */
  datatype Hint = Hint(
    setup: Option<string>,
    construct: Option<string>,
    auth: Option<string>,
    authEnv: seq<string>
  )

  /** The built-in hint table. */
  const HINTS: map<string, Hint> := map[
    "github" := Hint(None, Some("Github"), Some("env:" + " GITHUB_TOKEN"), []),
    "kubernetes" := Hint(Some("config.load_kube_config"), Some("client.CoreV1Api"), None, []),
    "azure.storage.blob" := Hint(None, Some("BlobServiceClient.from_connection_string"), None,
                                 ["AZURE_STORAGE_CONNECTION_STRING"])
  ]

  /** A present, non-empty path (Python truthiness of `hint.get(key)`). */
  predicate HasPath(p: Option<string>) {
    p.Some? && p.value != ""
  }

  /** The variables to try: the explicit `auth_env` list, or else the stripped
      name after a leading `"env:"` marker, or else none. */
  function AuthNames(h: Hint): (r: seq<string>)
    ensures h.authEnv != [] ==> r == h.authEnv
    ensures h.authEnv == [] && h.auth.Some? && StartsWith(h.auth.value, ENV_MARKER) ==>
              r == [Strip(h.auth.value[|ENV_MARKER|..])]
    ensures h.authEnv == [] && !(h.auth.Some? && StartsWith(h.auth.value, ENV_MARKER)) ==> r == []
  {
    if h.authEnv != [] then h.authEnv
    else if h.auth.Some? && StartsWith(h.auth.value, ENV_MARKER) then
      // `split("env:", 1)[1]`: what follows the first marker
      assert OccursAt(h.auth.value, ENV_MARKER, 0);
      var i := Find(h.auth.value, ENV_MARKER).value;
      [Strip(h.auth.value[i + |ENV_MARKER|..])]
    else []
  }

  predicate NonEmptyIn(env: Env, name: string) {
    name in env && env[name] != ""
  }

  /** `next((os.environ.get(e) for e in names if os.environ.get(e)), None)`:
      the value of the first listed variable that is set and non-empty. */
  function FirstAuthValue(names: seq<string>, env: Env): (r: Option<string>)
    ensures r.Some? <==> exists i :: 0 <= i < |names| && NonEmptyIn(env, names[i])
    ensures r.Some? ==>
              exists i :: 0 <= i < |names| && NonEmptyIn(env, names[i]) && r.value == env[names[i]]
                          && forall j :: 0 <= j < i ==> !NonEmptyIn(env, names[j])
  {
    if names == [] then None
    else if NonEmptyIn(env, names[0]) then Some(env[names[0]])
    else
      var r := FirstAuthValue(names[1..], env);
      assert forall i :: 1 <= i < |names| ==> names[1..][i - 1] == names[i];
      if r.Some? then
        var i :| 0 <= i < |names[1..]| && NonEmptyIn(env, names[1..][i]) && r.value == env[names[1..][i]]
                 && forall j :: 0 <= j < i ==> !NonEmptyIn(env, names[1..][j]);
        assert NonEmptyIn(env, names[i + 1]) && r.value == env[names[i + 1]];
        r
      else r
  }

  /** The constructor arguments: the chosen value alone, or nothing. */
  function AuthArgs(arg: Option<string>): seq<Value> {
    if arg.Some? then [StrV(arg.value)] else []
  }

  /** What `_instantiate_hinted_client(pkg, mod)` returns. Setup runs only for
      its effects, which the model does not see, so it does not appear here. */
  function HintedClient(rt: Runtime, env: Env, hints: map<string, Hint>, pkg: string, mod: Value): (r: Value)
    ensures pkg !in hints ==> r == NoneV
    ensures pkg in hints && !HasPath(hints[pkg].construct) ==> r == NoneV
    ensures (pkg in hints && HasPath(hints[pkg].construct)
             && GetPath(rt, mod, Split(hints[pkg].construct.value, '.')).Failure?) ==> r == NoneV
    ensures r != NoneV ==>
              && pkg in hints && HasPath(hints[pkg].construct)
              && var ctor := GetPath(rt, mod, Split(hints[pkg].construct.value, '.'));
                 ctor.Success?
                 && rt.call(ctor.value, AuthArgs(FirstAuthValue(AuthNames(hints[pkg]), env)), []) == Success(r)
    ensures pkg in hints && HasPath(hints[pkg].construct)
            && GetPath(rt, mod, Split(hints[pkg].construct.value, '.')).Success? ==>
              var made := rt.call(GetPath(rt, mod, Split(hints[pkg].construct.value, '.')).value,
                                  AuthArgs(FirstAuthValue(AuthNames(hints[pkg]), env)), []);
              r == if made.Success? then made.value else NoneV
  {
    if pkg !in hints then NoneV
    else
      var h := hints[pkg];
      if !HasPath(h.construct) then NoneV
      else
        match GetPath(rt, mod, Split(h.construct.value, '.'))
        case Failure(_) => NoneV
        case Success(ctor) =>
          match rt.call(ctor, AuthArgs(FirstAuthValue(AuthNames(h), env)), [])
          case Failure(_) => NoneV
          case Success(client) => client
  }

  /** `_instantiate_hinted_client(pkg, mod)`. Every failure collapses to `None`;
      the setup call's outcome is ignored. `setupRan` records whether a setup
      function was found and called. */
  method InstantiateHintedClient(rt: Runtime, env: Env, hints: map<string, Hint>, pkg: string, mod: Value)
    returns (client: Value, ghost setupRan: bool)
    ensures client == HintedClient(rt, env, hints, pkg, mod)
    ensures setupRan <==> pkg in hints && HasPath(hints[pkg].setup)
                          && GetPath(rt, mod, Split(hints[pkg].setup.value, '.')).Success?
  {
    setupRan := false;
    if pkg !in hints {
      return NoneV, setupRan;
    }
    var hint := hints[pkg];
    if HasPath(hint.setup) {
      var setupFn := ResolveAttr(rt, mod, hint.setup.value);
      if setupFn.Success? {
        var ignored := rt.call(setupFn.value, [], []);
        setupRan := true;
      }
    }
    if !HasPath(hint.construct) {
      return NoneV, setupRan;
    }
    client := ConstructHinted(rt, env, hints, pkg, mod);
  }

  /** The second half of `_instantiate_hinted_client`: resolve the
      constructor, pick the credential and call it. */
  method ConstructHinted(rt: Runtime, env: Env, hints: map<string, Hint>, pkg: string, mod: Value)
    returns (client: Value)
    requires pkg in hints && HasPath(hints[pkg].construct)
    ensures client == HintedClient(rt, env, hints, pkg, mod)
  {
    var hint := hints[pkg];
    var ctor := ResolveAttr(rt, mod, hint.construct.value);
    if ctor.Failure? {
      return NoneV;
    }
    var authEnv := HintAuthEnv(hint);
    var arg := FirstAuthValue(authEnv, env);
    var made := rt.call(ctor.value, AuthArgs(arg), []);
    if made.Failure? {
      return NoneV;
    }
    client := made.value;
  }

  /** The `auth_env` list, falling back to the name after a leading
      `"env:"` marker. */
  method HintAuthEnv(hint: Hint) returns (authEnv: seq<string>)
    ensures authEnv == AuthNames(hint)
  {
    authEnv := hint.authEnv;
    if authEnv == [] && hint.auth.Some? && StartsWith(hint.auth.value, ENV_MARKER) {
      authEnv := [Strip(hint.auth.value[|ENV_MARKER|..])];
    }
  }

  /** The GitHub hint takes its token from `GITHUB_TOKEN`: the marker name is
      stripped of the blank after `"env:"`. */
  lemma GithubAuthName()
    ensures AuthNames(HINTS["github"]) == ["GITHUB_TOKEN"]
  {
    var auth := "env:" + " GITHUB_TOKEN";
    assert HINTS["github"].authEnv == [] && HINTS["github"].auth == Some(auth);
    assert auth[..|ENV_MARKER|] == ENV_MARKER;
    assert auth[|ENV_MARKER|..] == " GITHUB_TOKEN";
    StripGithubToken();
  }

  lemma StripGithubToken()
    ensures Strip(" GITHUB_TOKEN") == "GITHUB_TOKEN"
  {
    var token := "GITHUB_TOKEN";
    assert (" " + token)[1..] == token;
    assert !IsSpace(token[0]) && !IsSpace(token[|token| - 1]);
    StripUnpadded(token);
  }

  /** An explicit `auth_env` list wins over an `"env:"` marker, and the first
      set, non-empty variable is the sole constructor argument. */
  lemma AuthEnvPrecedence(h: Hint, env: Env, i: int)
    requires h.authEnv != [] && 0 <= i < |h.authEnv| && NonEmptyIn(env, h.authEnv[i])
    requires forall j :: 0 <= j < i ==> !NonEmptyIn(env, h.authEnv[j])
    ensures AuthArgs(FirstAuthValue(AuthNames(h), env)) == [StrV(env[h.authEnv[i]])]
  {
    var r := FirstAuthValue(h.authEnv, env);
    var k :| 0 <= k < |h.authEnv| && NonEmptyIn(env, h.authEnv[k]) && r.value == env[h.authEnv[k]]
             && forall j :: 0 <= j < k ==> !NonEmptyIn(env, h.authEnv[j]);
    assert k == i;
  }

  /** With no listed variable set, the constructor is called with no arguments. */
  lemma NoAuthValueNoArgs(h: Hint, env: Env)
    requires forall i :: 0 <= i < |AuthNames(h)| ==> !NonEmptyIn(env, AuthNames(h)[i])
    ensures AuthArgs(FirstAuthValue(AuthNames(h), env)) == []
  {
  }

  // ------------------------------------------------ zero-argument classes

  /** Every parameter has a default or is `*args`/`**kwargs`. */
  predicate ZeroArgSignature(sig: Binding.Signature) {
    forall k :: 0 <= k < |sig| ==> sig[k].default.Some? || IsVariadic(sig[k])
  }

  /** A public class whose signature is readable and needs no argument. */
  predicate Eligible(rt: Runtime, c: (string, Value)) {
    && !IsPrivate(c.0)
    && rt.signature(c.1).Some?
    && ZeroArgSignature(rt.signature(c.1).value)
  }

  /** The instance `c` contributes when tried: eligible and constructible. */
  function Instance(rt: Runtime, c: (string, Value)): seq<Value> {
    if Eligible(rt, c) && rt.call(c.1, [], []).Success? then [rt.call(c.1, [], []).value] else []
  }

  /** The instances of every eligible, constructible class in `cs`, in order. */
  function Constructed(rt: Runtime, cs: seq<(string, Value)>): seq<Value> {
    if cs == [] then [] else Constructed(rt, cs[..|cs| - 1]) + Instance(rt, cs[|cs| - 1])
  }

  /** `inspect.getmembers(mod, inspect.isclass)`. */
  function Classes(rt: Runtime, mod: Value): seq<(string, Value)> {
    MembersWhere(rt.members(mod), rt.isClass)
  }

  /** How many instances the scan keeps: the check comes after an append, so
      a bound below one still lets the first instance through. */
  function InstanceBound(maxInstances: int): nat {
    if maxInstances < 1 then 1 else maxInstances
  }

  function Min(a: nat, b: nat): nat {
    if a < b then a else b
  }

  /** What `_zero_arg_instances(mod, maxInstances)` returns. */
  function ZeroArgSpec(rt: Runtime, mod: Value, maxInstances: int): seq<Value> {
    var all := Constructed(rt, Classes(rt, mod));
    all[..Min(|all|, InstanceBound(maxInstances))]
  }

  lemma {:induction false} ConstructedAppend(rt: Runtime, a: seq<(string, Value)>, b: seq<(string, Value)>)
    ensures Constructed(rt, a + b) == Constructed(rt, a) + Constructed(rt, b)
    decreases |b|
  {
    if b == [] {
      assert a + b == a;
    } else {
      assert (a + b)[..|a + b| - 1] == a + b[..|b| - 1];
      ConstructedAppend(rt, a, b[..|b| - 1]);
    }
  }

  /** Every instance comes from an eligible class whose construction
      succeeded, and every such class contributes its instance. */
  lemma {:induction false} ConstructedFrom(rt: Runtime, cs: seq<(string, Value)>)
    ensures forall v :: v in Constructed(rt, cs) ==>
              exists j :: 0 <= j < |cs| && Eligible(rt, cs[j]) && rt.call(cs[j].1, [], []) == Success(v)
    ensures forall j :: 0 <= j < |cs| && Eligible(rt, cs[j]) && rt.call(cs[j].1, [], []).Success? ==>
              rt.call(cs[j].1, [], []).value in Constructed(rt, cs)
    ensures |Constructed(rt, cs)| <= |cs|
  {
    if cs != [] {
      var init := cs[..|cs| - 1];
      ConstructedFrom(rt, init);
      assert forall j :: 0 <= j < |init| ==> init[j] == cs[j];
    }
  }

  /** `_zero_arg_instances(mod, maxInstances)`. Classes that are private, have
      no readable signature, need an argument or fail to construct are
      skipped; the scan stops once the bound is reached. */
  method ZeroArgInstances(rt: Runtime, mod: Value, maxInstances: int) returns (out: seq<Value>)
    ensures out == ZeroArgSpec(rt, mod, maxInstances)
    ensures |out| <= InstanceBound(maxInstances)
  {
    var cs := Classes(rt, mod);
    out := [];
    var i := 0;
    while i < |cs|
      invariant 0 <= i <= |cs|
      invariant out == Constructed(rt, cs[..i])
      invariant |out| < InstanceBound(maxInstances)
    {
      ConstructedStep(rt, cs, i);
      var made := TryInstance(rt, cs[i]);
      out := out + made;
      if made != [] && |out| >= maxInstances {
        ZeroArgStop(rt, cs, i + 1, maxInstances);
        return;
      }
      i := i + 1;
    }
    assert cs[..i] == cs;
  }

  lemma ConstructedStep(rt: Runtime, cs: seq<(string, Value)>, i: int)
    requires 0 <= i < |cs|
    ensures Constructed(rt, cs[..i + 1]) == Constructed(rt, cs[..i]) + Instance(rt, cs[i])
  {
    assert cs[..i + 1][..i] == cs[..i];
  }

  /** Once a prefix of the classes has produced as many instances as the bound
      allows, those are the bounded scan's whole result. */
  lemma ZeroArgStop(rt: Runtime, cs: seq<(string, Value)>, n: int, maxInstances: int)
    requires 0 <= n <= |cs|
    requires |Constructed(rt, cs[..n])| == InstanceBound(maxInstances)
    ensures Constructed(rt, cs[..n])
              == Constructed(rt, cs)[..Min(|Constructed(rt, cs)|, InstanceBound(maxInstances))]
  {
    assert cs == cs[..n] + cs[n..];
    ConstructedAppend(rt, cs[..n], cs[n..]);
  }

  /** One pass of the scan's loop body: the instance of `c`, or nothing when
      `c` is private, has no readable signature, needs an argument or raises. */
  method TryInstance(rt: Runtime, c: (string, Value)) returns (made: seq<Value>)
    ensures made == Instance(rt, c)
  {
    var (name, cls) := c;
    if IsPrivate(name) {
      return [];
    }
    var sig := rt.signature(cls);
    if sig.None? {
      return [];
    }
    made := [];
    if ZeroArgSignature(sig.value) {
      var result := rt.call(cls, [], []);
      if result.Success? {
        made := [result.value];
      }
    }
  }

  // ---------------------------------------------------- the whole package

  /** The records of the instances `insts`, instance by instance. */
  function InstancesSpecs(rt: Runtime, pkg: string, insts: seq<Value>): seq<MethodSpec> {
    if insts == [] then []
    else InstancesSpecs(rt, pkg, insts[..|insts| - 1]) + InstanceSpecs(rt, pkg, insts[|insts| - 1])
  }

  /** The records the three stages produce, in merge order: top-level
      functions, the hinted client's methods when the client is truthy, and
      the methods of at most three zero-argument instances. */
  function PackageSpecs(rt: Runtime, env: Env, hints: map<string, Hint>, pkg: string, mod: Value): seq<MethodSpec> {
    var hinted := HintedClient(rt, env, hints, pkg, mod);
    TopLevelSpecs(rt, pkg, mod)
      + (if Truthy(rt, hinted) then InstanceSpecs(rt, pkg, hinted) else [])
      + InstancesSpecs(rt, pkg, ZeroArgSpec(rt, mod, 3))
  }

  /** `for ms in specs: reg[ms.tool_name] = ms`. */
  method Merge(reg: Catalog, specs: seq<MethodSpec>) returns (r: Catalog)
    ensures r == Insert(reg, specs)
  {
    r := reg;
    var j := 0;
    while j < |specs|
      invariant 0 <= j <= |specs|
      invariant r == Insert(reg, specs[..j])
    {
      assert specs[..j + 1][..j] == specs[..j];
      r := r[specs[j].toolName := specs[j]];
      j := j + 1;
    }
    assert specs[..j] == specs;
  }

  /** `build_registry_from_package(package)`: a failing import propagates;
      otherwise the catalog holds the three stages merged in order. */
  method BuildRegistryFromPackage(rt: Runtime, env: Env, hints: map<string, Hint>, package: string)
    returns (r: Result<Catalog, Exc>)
    ensures rt.importModule(package).Failure? ==> r == Failure(rt.importModule(package).error)
    ensures rt.importModule(package).Success? ==>
              r == Success(BuildMap(PackageSpecs(rt, env, hints, package, rt.importModule(package).value)))
  {
    var imported := rt.importModule(package);
    if imported.Failure? {
      return Failure(imported.error);
    }
    var mod := imported.value;
    var reg: Catalog := map[];

    var top := CollectTopLevelFunctions(rt, package, mod);
    reg := Merge(reg, top);

    var hinted, ghostSetup := InstantiateHintedClient(rt, env, hints, package, mod);
    var fromHinted: seq<MethodSpec> := [];
    if Truthy(rt, hinted) {
      fromHinted := CollectMethodsFromInstance(rt, package, hinted);
      reg := Merge(reg, fromHinted);
    } else {
      assert Insert(reg, []) == reg;
    }
    InsertAppend(map[], top, fromHinted);

    var insts := ZeroArgInstances(rt, mod, 3);
    reg := MergeInstances(rt, package, reg, insts);
    InsertAppend(map[], top + fromHinted, InstancesSpecs(rt, package, insts));
    r := Success(reg);
  }

  /** `for inst in insts: for ms in _collect_methods_from_instance(...): reg[ms.tool_name] = ms`. */
  method MergeInstances(rt: Runtime, pkg: string, reg: Catalog, insts: seq<Value>) returns (r: Catalog)
    ensures r == Insert(reg, InstancesSpecs(rt, pkg, insts))
  {
    r := reg;
    var i := 0;
    while i < |insts|
      invariant 0 <= i <= |insts|
      invariant r == Insert(reg, InstancesSpecs(rt, pkg, insts[..i]))
    {
      assert insts[..i + 1][..i] == insts[..i];
      var ms := CollectMethodsFromInstance(rt, pkg, insts[i]);
      InsertAppend(reg, InstancesSpecs(rt, pkg, insts[..i]), ms);
      r := Merge(r, ms);
      i := i + 1;
    }
    assert insts[..i] == insts;
  }

  /** The three-stage merge: a zero-argument instance's record overrides the
      others, the hinted client's overrides a top-level function's, every key
      names its record, and every record comes from one of the stages. */
  lemma PackageMerge(rt: Runtime, env: Env, hints: map<string, Hint>, pkg: string, mod: Value, k: string)
    ensures var top, hinted := TopLevelSpecs(rt, pkg, mod), HintedClient(rt, env, hints, pkg, mod);
            var fromHinted := if Truthy(rt, hinted) then InstanceSpecs(rt, pkg, hinted) else [];
            var fromZero := InstancesSpecs(rt, pkg, ZeroArgSpec(rt, mod, 3));
            var reg := BuildMap(PackageSpecs(rt, env, hints, pkg, mod));
            && (k in reg <==> k in BuildMap(top) || k in BuildMap(fromHinted) || k in BuildMap(fromZero))
            && (k in BuildMap(fromZero) ==> reg[k] == BuildMap(fromZero)[k])
            && (k !in BuildMap(fromZero) && k in BuildMap(fromHinted) ==> reg[k] == BuildMap(fromHinted)[k])
            && (k !in BuildMap(fromZero) && k !in BuildMap(fromHinted) && k in BuildMap(top) ==>
                  reg[k] == BuildMap(top)[k])
            && (k in reg ==> reg[k].toolName == k)
  {
    var top, hinted := TopLevelSpecs(rt, pkg, mod), HintedClient(rt, env, hints, pkg, mod);
    var fromHinted := if Truthy(rt, hinted) then InstanceSpecs(rt, pkg, hinted) else [];
    var fromZero := InstancesSpecs(rt, pkg, ZeroArgSpec(rt, mod, 3));
    BuildMapConcat(top + fromHinted, fromZero, k);
    BuildMapConcat(top, fromHinted, k);
    BuildMapKeys(PackageSpecs(rt, env, hints, pkg, mod));
  }
}
