/** Config-driven discovery: one client per configured provider, one catalog
    entry per declared method. The configuration arrives already parsed. */
module Loader {

  import opened Py
  import opened Text
  import opened Specs

  /** One entry of a provider's `methods` list. */
  datatype MethodDecl = MethodDecl(
    name: string,
    rename: Option<string>,
    mode: Option<string>,
    args: Option<map<string, Value>>
  )

  /** One entry of `providers`: `import`, `construct`, optional `auth`, `methods`. */
  datatype Provider = Provider(
    importPath: string,
    construct: string,
    auth: Option<string>,
    methods: seq<MethodDecl>
  )

  datatype Config = Config(providers: seq<Provider>)

  /** `m.get("rename", m["name"])`. */
  function DeclaredToolName(m: MethodDecl): string {
    if m.rename.Some? then m.rename.value else m.name
  }

  /** `m.get("mode", "read")`. */
  function DeclaredMode(m: MethodDecl): string {
    if m.mode.Some? then m.mode.value else "read"
  }

  /** `m.get("args", {})`. */
  function DeclaredArgHints(m: MethodDecl): map<string, Value> {
    if m.args.Some? then m.args.value else map[]
  }

  /** The first marker of `auth` is at `i`, and the piece after it ends `k`
      characters later, at the next marker or at the end of `auth`. */
  predicate MarkedName(auth: string, i: nat, k: nat) {
    FirstAt(auth, ENV_MARKER, i) && PieceEnd(auth[i + |ENV_MARKER|..], ENV_MARKER, k)
  }

  /** `auth.split("env:")[1]` when `"env:" in auth`: the text after the first
      marker and before any later one. */
  function MarkerPiece(auth: string): (r: Option<string>)
    ensures r.Some? <==> Contains(auth, ENV_MARKER)
    ensures forall i: nat, k: nat :: MarkedName(auth, i, k) ==> r == Some(auth[i + |ENV_MARKER|..][..k])
  {
    match Find(auth, ENV_MARKER)
    case None => None
    case Some(i) =>
      var rest := auth[i + |ENV_MARKER|..];
      assert forall i': nat, k: nat | MarkedName(auth, i', k) ::
               i' == i && k == (if Find(rest, ENV_MARKER).Some? then Find(rest, ENV_MARKER).value else |rest|) by {
        forall i': nat, k: nat | MarkedName(auth, i', k)
          ensures i' == i && k == (if Find(rest, ENV_MARKER).Some? then Find(rest, ENV_MARKER).value else |rest|)
        {
          FindIsFirst(auth, ENV_MARKER, i');
          FindPieceEnd(rest, ENV_MARKER, k);
        }
      }
      match Find(rest, ENV_MARKER)
      case None =>
        assert rest[..|rest|] == rest;
        Some(rest)
      case Some(j) => Some(rest[..j])
  }

  /** `auth.split("env:")[1].strip()` when `"env:" in auth`: the text after the
      first marker and before any later one, stripped. */
  function AuthVariable(auth: string): (r: Option<string>)
    ensures r.Some? <==> Contains(auth, ENV_MARKER)
    ensures forall i: nat, k: nat :: MarkedName(auth, i, k) ==>
              r == Some(Strip(auth[i + |ENV_MARKER|..][..k]))
    ensures StartsWith(auth, ENV_MARKER) && !Contains(auth[|ENV_MARKER|..], ENV_MARKER) ==>
              r == Some(Strip(auth[|ENV_MARKER|..]))
  {
    LeadingMarker(auth);
    var piece := MarkerPiece(auth);
    if piece.None? then None else Some(Strip(piece.value))
  }

  /** A leading marker with no second one names all the text after it. */
  lemma LeadingMarker(auth: string)
    ensures StartsWith(auth, ENV_MARKER) && !Contains(auth[|ENV_MARKER|..], ENV_MARKER) ==>
              MarkedName(auth, 0, |auth| - |ENV_MARKER|)
              && auth[|ENV_MARKER|..][..|auth| - |ENV_MARKER|] == auth[|ENV_MARKER|..]
  {
    if StartsWith(auth, ENV_MARKER) && !Contains(auth[|ENV_MARKER|..], ENV_MARKER) {
      assert OccursAt(auth, ENV_MARKER, 0);
    }
  }

  /** Whenever `auth` contains the marker, its first marker and the piece after
      it are determined, so `AuthVariable`'s contract always fixes the name. */
  lemma MarkedNameExists(auth: string)
    requires Contains(auth, ENV_MARKER)
    ensures exists i: nat, k: nat :: MarkedName(auth, i, k)
  {
    var i := Find(auth, ENV_MARKER).value;
    FindIsFirst(auth, ENV_MARKER, i);
    var rest := auth[i + |ENV_MARKER|..];
    var k := if Find(rest, ENV_MARKER).Some? then Find(rest, ENV_MARKER).value else |rest|;
    FindPieceEnd(rest, ENV_MARKER, k);
    assert MarkedName(auth, i, k);
  }

  /** `os.environ.get(name)`. */
  function EnvGet(env: Env, name: string): Value {
    if name in env then StrV(env[name]) else NoneV
  }

  /** `eval(f"mod.{construct}")` after importing the provider's module, for a
      `construct` that is a dotted attribute path. */
  function Constructor(rt: Runtime, p: Provider): Result<Value, Exc> {
    match rt.importModule(p.importPath)
    case Failure(e) => Failure(e)
    case Success(mod) => GetPath(rt, mod, Split(p.construct, '.'))
  }

  /** `build_client(p)`. Nothing is guarded: an import, lookup or constructor
      failure is the result. With an `"env:"` marker the constructor gets
      exactly one argument, the variable's value or `None` when it is unset;
      without one, a callable is called with no arguments and anything else
      is the client itself. */
  function BuildClient(rt: Runtime, env: Env, p: Provider): (r: Result<Value, Exc>)
    ensures Constructor(rt, p).Failure? ==> r == Failure(Constructor(rt, p).error)
    ensures Constructor(rt, p).Success? && p.auth.Some? && Contains(p.auth.value, ENV_MARKER) ==>
              var name := AuthVariable(p.auth.value).value;
              r == rt.call(Constructor(rt, p).value, [EnvGet(env, name)], [])
    ensures Constructor(rt, p).Success? && !(p.auth.Some? && Contains(p.auth.value, ENV_MARKER)) ==>
              r == if rt.isCallable(Constructor(rt, p).value)
                   then rt.call(Constructor(rt, p).value, [], [])
                   else Success(Constructor(rt, p).value)
  {
    match Constructor(rt, p)
    case Failure(e) => Failure(e)
    case Success(obj) =>
      if p.auth.Some? && AuthVariable(p.auth.value).Some? then
        rt.call(obj, [EnvGet(env, AuthVariable(p.auth.value).value)], [])
      else if rt.isCallable(obj) then rt.call(obj, [], [])
      else Success(obj)
  }

  /** The entry for one declared method of `client`: `getattr(client, name)`,
      whose signature must be readable; either failure is the result. */
  function DeclSpec(rt: Runtime, client: Value, m: MethodDecl): Result<MethodSpec, Exc> {
    match rt.getattr(client, m.name)
    case None => Failure(AttributeError(m.name))
    case Some(fn) =>
      match rt.signature(fn)
      case None => Failure(Exc("ValueError", "no signature found"))
      case Some(sig) =>
        Success(MethodSpec(DeclaredToolName(m), fn, sig, rt.doc(fn),
                           Some(DeclaredMode(m)), Some(DeclaredArgHints(m))))
  }

  /** `done` followed by what `rest` produced; a failure stays a failure. */
  function After(done: seq<MethodSpec>, rest: Result<seq<MethodSpec>, Exc>): Result<seq<MethodSpec>, Exc> {
    match rest
    case Failure(e) => Failure(e)
    case Success(xs) => Success(done + xs)
  }

  /** The entries for a provider's declared methods, in order; the first failure aborts. */
  function ProviderSpecs(rt: Runtime, client: Value, ms: seq<MethodDecl>): Result<seq<MethodSpec>, Exc> {
    if ms == [] then Success([])
    else
      match DeclSpec(rt, client, ms[0])
      case Failure(e) => Failure(e)
      case Success(s) => After([s], ProviderSpecs(rt, client, ms[1..]))
  }

  /** What `collect_methods` computes for the providers `ps`, in order. */
  function Collected(rt: Runtime, env: Env, ps: seq<Provider>): Result<seq<MethodSpec>, Exc> {
    if ps == [] then Success([])
    else
      match BuildClient(rt, env, ps[0])
      case Failure(e) => Failure(e)
      case Success(client) =>
        match ProviderSpecs(rt, client, ps[0].methods)
        case Failure(e) => Failure(e)
        case Success(xs) => After(xs, Collected(rt, env, ps[1..]))
  }

  lemma AfterAfter(a: seq<MethodSpec>, b: seq<MethodSpec>, r: Result<seq<MethodSpec>, Exc>)
    ensures After(a, After(b, r)) == After(a + b, r)
  {
    if r.Success? {
      assert a + (b + r.value) == (a + b) + r.value;
    }
  }

  lemma CollectedStep(rt: Runtime, env: Env, ps: seq<Provider>, i: nat, client: Value)
    requires i < |ps| && BuildClient(rt, env, ps[i]) == Success(client)
    ensures Collected(rt, env, ps[i..]) ==
              match ProviderSpecs(rt, client, ps[i].methods)
              case Failure(e) => Failure(e)
              case Success(xs) => After(xs, Collected(rt, env, ps[i + 1..]))
  {
    assert ps[i..][0] == ps[i] && ps[i..][1..] == ps[i + 1..];
  }

  lemma ProviderSpecsStep(rt: Runtime, client: Value, ms: seq<MethodDecl>, j: nat)
    requires j < |ms|
    ensures ProviderSpecs(rt, client, ms[j..]) ==
              match DeclSpec(rt, client, ms[j])
              case Failure(e) => Failure(e)
              case Success(s) => After([s], ProviderSpecs(rt, client, ms[j + 1..]))
  {
    assert ms[j..][0] == ms[j] && ms[j..][1..] == ms[j + 1..];
  }

  /** The inner loop of `collect_methods`: appends to `methods` one entry per
      declaration of `ms` on `client`, stopping at the first failure. */
  method AppendProviderMethods(rt: Runtime, client: Value, ms: seq<MethodDecl>, methods: seq<MethodSpec>)
    returns (r: Result<seq<MethodSpec>, Exc>)
    ensures r == After(methods, ProviderSpecs(rt, client, ms))
  {
    var acc := methods;
    var j := 0;
    assert ms[j..] == ms;
    while j < |ms|
      invariant 0 <= j <= |ms|
      invariant After(methods, ProviderSpecs(rt, client, ms)) == After(acc, ProviderSpecs(rt, client, ms[j..]))
    {
      var m := ms[j];
      ProviderSpecsStep(rt, client, ms, j);
      var fn := rt.getattr(client, m.name);
      if fn.None? {
        return Failure(AttributeError(m.name));
      }
      var sig := rt.signature(fn.value);
      if sig.None? {
        return Failure(Exc("ValueError", "no signature found"));
      }
      var spec := MethodSpec(DeclaredToolName(m), fn.value, sig.value, rt.doc(fn.value),
                             Some(DeclaredMode(m)), Some(DeclaredArgHints(m)));
      AfterAfter(acc, [spec], ProviderSpecs(rt, client, ms[j + 1..]));
      acc := acc + [spec];
      j := j + 1;
    }
    assert ms[j..] == [];
    assert acc + [] == acc;
    r := Success(acc);
  }

  /** `collect_methods(cfg)`. */
  method CollectMethods(rt: Runtime, env: Env, cfg: Config) returns (r: Result<seq<MethodSpec>, Exc>)
    ensures r == Collected(rt, env, cfg.providers)
  {
    var ps := cfg.providers;
    var methods: seq<MethodSpec> := [];
    var i := 0;
    assert ps[i..] == ps;
    assert Collected(rt, env, ps).Success? ==> [] + Collected(rt, env, ps).value == Collected(rt, env, ps).value;
    while i < |ps|
      invariant 0 <= i <= |ps|
      invariant Collected(rt, env, ps) == After(methods, Collected(rt, env, ps[i..]))
    {
      var built := BuildClient(rt, env, ps[i]);
      if built.Failure? {
        assert ps[i..][0] == ps[i];
        return Failure(built.error);
      }
      CollectedStep(rt, env, ps, i, built.value);
      var appended := AppendProviderMethods(rt, built.value, ps[i].methods, methods);
      if appended.Failure? {
        return Failure(appended.error);
      }
      AfterAfter(methods, ProviderSpecs(rt, built.value, ps[i].methods).value, Collected(rt, env, ps[i + 1..]));
      methods := appended.value;
      i := i + 1;
    }
    assert ps[i..] == [];
    assert methods + [] == methods;
    r := Success(methods);
  }

  /** Every declared method, provider by provider. */
  function Declared(ps: seq<Provider>): seq<MethodDecl> {
    if ps == [] then [] else ps[0].methods + Declared(ps[1..])
  }

  function TotalMethods(ps: seq<Provider>): nat {
    if ps == [] then 0 else |ps[0].methods| + TotalMethods(ps[1..])
  }

  /** The entry built for declaration `m` of a provider whose client is `client`. */
  predicate BuiltFrom(rt: Runtime, client: Value, s: MethodSpec, m: MethodDecl) {
    && rt.getattr(client, m.name) == Some(s.fn)
    && s.toolName == DeclaredToolName(m)
    && s.mode == Some(DeclaredMode(m))
    && s.argHints == Some(DeclaredArgHints(m))
  }

  lemma {:induction false} ProviderSpecsMatch(rt: Runtime, client: Value, ms: seq<MethodDecl>)
    requires ProviderSpecs(rt, client, ms).Success?
    ensures |ProviderSpecs(rt, client, ms).value| == |ms|
    ensures forall k :: 0 <= k < |ms| ==> BuiltFrom(rt, client, ProviderSpecs(rt, client, ms).value[k], ms[k])
  {
    if ms != [] {
      ProviderSpecsMatch(rt, client, ms[1..]);
    }
  }

  /** A successful collection is the first provider's entries followed by the rest's. */
  lemma CollectedCons(rt: Runtime, env: Env, ps: seq<Provider>)
    requires ps != [] && Collected(rt, env, ps).Success?
    ensures BuildClient(rt, env, ps[0]).Success?
    ensures ProviderSpecs(rt, BuildClient(rt, env, ps[0]).value, ps[0].methods).Success?
    ensures Collected(rt, env, ps[1..]).Success?
    ensures Collected(rt, env, ps).value ==
              ProviderSpecs(rt, BuildClient(rt, env, ps[0]).value, ps[0].methods).value
              + Collected(rt, env, ps[1..]).value
  {
  }

  /** A successful collection has one entry per declared method, ordered by
      provider and then by method: its name is the rename or else the method
      name, its mode the declared one or else "read", its hints the declared
      ones or else `{}`. (`ProviderSpecsMatch` states, per provider, that its
      target is the attribute of that provider's client.) */
  lemma {:induction false} CollectedMatchesDeclarations(rt: Runtime, env: Env, ps: seq<Provider>)
    requires Collected(rt, env, ps).Success?
    ensures |Collected(rt, env, ps).value| == |Declared(ps)| == TotalMethods(ps)
    ensures forall k :: 0 <= k < |Declared(ps)| ==>
              var s, m := Collected(rt, env, ps).value[k], Declared(ps)[k];
              && s.toolName == DeclaredToolName(m)
              && s.mode == Some(DeclaredMode(m))
              && s.argHints == Some(DeclaredArgHints(m))
  {
    if ps != [] {
      CollectedCons(rt, env, ps);
      var client := BuildClient(rt, env, ps[0]).value;
      var xs := ProviderSpecs(rt, client, ps[0].methods).value;
      ProviderSpecsMatch(rt, client, ps[0].methods);
      CollectedMatchesDeclarations(rt, env, ps[1..]);
      var all := Collected(rt, env, ps).value;
      forall k | 0 <= k < |Declared(ps)|
        ensures var s, m := all[k], Declared(ps)[k];
                && s.toolName == DeclaredToolName(m)
                && s.mode == Some(DeclaredMode(m))
                && s.argHints == Some(DeclaredArgHints(m))
      {
        if k < |xs| {
          assert BuiltFrom(rt, client, xs[k], ps[0].methods[k]);
        }
      }
    }
  }

  /** A provider that builds and whose every declared method resolves. */
  predicate ProviderOk(rt: Runtime, env: Env, p: Provider) {
    && BuildClient(rt, env, p).Success?
    && forall k :: 0 <= k < |p.methods| ==> DeclSpec(rt, BuildClient(rt, env, p).value, p.methods[k]).Success?
  }

  lemma {:induction false} ProviderSpecsSucceedsIff(rt: Runtime, client: Value, ms: seq<MethodDecl>)
    ensures ProviderSpecs(rt, client, ms).Success? <==>
              forall k :: 0 <= k < |ms| ==> DeclSpec(rt, client, ms[k]).Success?
  {
    if ms != [] {
      ProviderSpecsSucceedsIff(rt, client, ms[1..]);
      assert forall k :: 1 <= k < |ms| ==> ms[1..][k - 1] == ms[k];
    }
  }

  /** Collection is all or nothing: it succeeds exactly when every provider
      builds and every declared method resolves; one failure anywhere aborts it. */
  lemma {:induction false} CollectedSucceedsIff(rt: Runtime, env: Env, ps: seq<Provider>)
    ensures Collected(rt, env, ps).Success? <==> forall i :: 0 <= i < |ps| ==> ProviderOk(rt, env, ps[i])
  {
    if ps != [] {
      CollectedSucceedsIff(rt, env, ps[1..]);
      assert forall i :: 1 <= i < |ps| ==> ps[1..][i - 1] == ps[i];
      if BuildClient(rt, env, ps[0]).Success? {
        ProviderSpecsSucceedsIff(rt, BuildClient(rt, env, ps[0]).value, ps[0].methods);
      }
    }
  }
}
