/** Keyword-only partial binding of a payload against a parameter list:
    `sig.bind_partial(**payload)` followed by `bound.apply_defaults()`, with
    nothing passed positionally, as the executor calls them. */
module Binding {

  import opened Py

  type Signature = seq<Param>

  /** The `TypeError`s that `bind_partial` raises. */
  datatype BindError =
    | PositionalOnlyAsKeyword(name: string)
    | UnexpectedKeyword(names: set<string>)

  /** Names a keyword argument can bind to directly (every non-variadic parameter). */
  function KeywordNames(sig: Signature): set<string> {
    set i | 0 <= i < |sig| && !IsVariadic(sig[i]) :: sig[i].name
  }

  function DefaultedNames(sig: Signature): set<string> {
    set i | 0 <= i < |sig| && sig[i].default.Some? :: sig[i].name
  }

  function VariadicNames(sig: Signature): set<string> {
    set i | 0 <= i < |sig| && IsVariadic(sig[i]) :: sig[i].name
  }

  predicate HasVarKeyword(sig: Signature) {
    exists i :: 0 <= i < |sig| && sig[i].kind == VarKeyword
  }

  /** The `**kwargs`-like parameter that collects unknown keywords: the last one
      the binding loop meets. */
  function VarKeywordName(sig: Signature): (r: Option<string>)
    ensures r.Some? <==> HasVarKeyword(sig)
    ensures r.Some? ==> exists i :: 0 <= i < |sig| && sig[i].kind == VarKeyword && sig[i].name == r.value
  {
    if sig == [] then None
    else if sig[|sig| - 1].kind == VarKeyword then Some(sig[|sig| - 1].name)
    else
      var r := VarKeywordName(sig[..|sig| - 1]);
      assert forall i :: 0 <= i < |sig| - 1 ==> sig[..|sig| - 1][i] == sig[i];
      r
  }

  /** The first positional-only parameter that the payload names. */
  function PositionalOnlyClash(sig: Signature, kwargs: map<string, Value>): (r: Option<string>)
    ensures r.None? <==> forall i :: 0 <= i < |sig| && sig[i].kind == PositionalOnly ==> sig[i].name !in kwargs
    ensures r.Some? ==> r.value in kwargs
    ensures r.Some? ==> exists i :: 0 <= i < |sig| && sig[i].kind == PositionalOnly && sig[i].name == r.value
                                    && forall j :: 0 <= j < i && sig[j].kind == PositionalOnly ==> sig[j].name !in kwargs
  {
    if sig == [] then None
    else if sig[0].kind == PositionalOnly && sig[0].name in kwargs then Some(sig[0].name)
    else
      var r := PositionalOnlyClash(sig[1..], kwargs);
      assert forall i :: 1 <= i < |sig| ==> sig[1..][i - 1] == sig[i];
      assert r.Some? ==> exists i :: 1 <= i < |sig| && sig[i].kind == PositionalOnly && sig[i].name == r.value
                                    && forall j :: 0 <= j < i && sig[j].kind == PositionalOnly ==> sig[j].name !in kwargs;
      r
  }

  /** `sig.bind_partial(**kwargs).arguments`, before defaults are applied. A
      missing parameter is never an error here: only a positional-only name in
      the payload, or an unknown name with no `**kwargs` to take it, is. */
  function BindPartial(sig: Signature, kwargs: map<string, Value>): Result<map<string, Value>, BindError> {
    match PositionalOnlyClash(sig, kwargs)
    case Some(n) => Failure(PositionalOnlyAsKeyword(n))
    case None =>
      var named := map k | k in kwargs && k in KeywordNames(sig) :: kwargs[k];
      var extra := Unknown(sig, kwargs);
      if |extra| == 0 then Success(named)
      else
        match VarKeywordName(sig)
        case None => Failure(UnexpectedKeyword(extra.Keys))
        case Some(v) => Success(named[v := DictV(extra)])
  }

  /** A parameter that `apply_defaults` keeps. */
  predicate Kept(p: Param, bound: map<string, Value>) {
    p.name in bound || p.default.Some? || IsVariadic(p)
  }

  /** The value `apply_defaults` gives a kept parameter: the bound value, else
      the default, else `()` for `*args` and `{}` for `**kwargs`. */
  function Resolved(p: Param, bound: map<string, Value>): Value
    requires Kept(p, bound)
  {
    if p.name in bound then bound[p.name]
    else if p.default.Some? then p.default.value
    else if p.kind == VarPositional then TupleV([])
    else DictV(map[])
  }

  /** `bound.apply_defaults()`: walks the parameters in order and keeps each one
      that is bound, defaulted or variadic, with its resolved value. */
  function ApplyDefaults(sig: Signature, bound: map<string, Value>): KwArgs {
    if sig == [] then []
    else
      var rest := ApplyDefaults(sig[1..], bound);
      if Kept(sig[0], bound) then [(sig[0].name, Resolved(sig[0], bound))] + rest else rest
  }

  /** Binding followed by `apply_defaults`: the arguments the target receives. */
  function Bind(sig: Signature, kwargs: map<string, Value>): Result<KwArgs, BindError> {
    match BindPartial(sig, kwargs)
    case Failure(e) => Failure(e)
    case Success(bound) => Success(ApplyDefaults(sig, bound))
  }

  function Names(args: KwArgs): set<string> {
    set i | 0 <= i < |args| :: args[i].0
  }

  /** Well-formed signatures as `inspect.Signature` builds them: distinct names,
      no default on a variadic parameter. */
  predicate WellFormed(sig: Signature) {
    && (forall i, j :: 0 <= i < j < |sig| ==> sig[i].name != sig[j].name)
    && (forall i :: 0 <= i < |sig| && IsVariadic(sig[i]) ==> sig[i].default.None?)
    && (forall i, j :: 0 <= i < |sig| && 0 <= j < |sig| && sig[i].kind == VarKeyword && sig[j].kind == VarKeyword ==> i == j)
  }

  /** The payload entries that match no parameter name. */
  function Unknown(sig: Signature, kwargs: map<string, Value>): map<string, Value> {
    map k | k in kwargs && k !in KeywordNames(sig) :: kwargs[k]
  }

  /** Binding fails exactly when the payload names a positional-only parameter,
      or names something that is not a parameter while there is no `**kwargs`. */
  lemma BindSucceedsIff(sig: Signature, kwargs: map<string, Value>)
    ensures BindPartial(sig, kwargs).Success? <==>
              && PositionalOnlyClash(sig, kwargs).None?
              && (kwargs.Keys <= KeywordNames(sig) || HasVarKeyword(sig))
  {
    var extra := Unknown(sig, kwargs);
    if PositionalOnlyClash(sig, kwargs).None? && !HasVarKeyword(sig) && !(kwargs.Keys <= KeywordNames(sig)) {
      var k :| k in kwargs.Keys && k !in KeywordNames(sig);
      assert k in extra;
    }
    if kwargs.Keys <= KeywordNames(sig) {
      assert extra.Keys == {};
    }
  }

  /** Missing required parameters are not a binding error: an empty payload binds
      against every signature. */
  lemma EmptyPayloadBinds(sig: Signature)
    ensures BindPartial(sig, map[]).Success?
  {
    BindSucceedsIff(sig, map[]);
  }

  /** An unknown key with no `**kwargs` parameter is refused. */
  lemma UnknownKeyRefused(sig: Signature, kwargs: map<string, Value>, k: string)
    requires k in kwargs && k !in KeywordNames(sig) && !HasVarKeyword(sig)
    ensures BindPartial(sig, kwargs).Failure?
  {
    BindSucceedsIff(sig, kwargs);
  }

  function KeptNames(sig: Signature, bound: map<string, Value>): set<string> {
    set i | 0 <= i < |sig| && Kept(sig[i], bound) :: sig[i].name
  }

  lemma NamesCons(x: (string, Value), rest: KwArgs)
    ensures Names([x] + rest) == {x.0} + Names(rest)
  {
    var l := [x] + rest;
    forall n | n in Names(rest) ensures n in Names(l) {
      var j :| 0 <= j < |rest| && rest[j].0 == n;
      assert l[j + 1] == rest[j];
    }
    assert l[0] == x;
  }

  lemma KeptNamesCons(sig: Signature, bound: map<string, Value>)
    requires sig != []
    ensures KeptNames(sig, bound)
         == (if Kept(sig[0], bound) then {sig[0].name} else {}) + KeptNames(sig[1..], bound)
  {
    var tail := sig[1..];
    forall n | n in KeptNames(tail, bound) ensures n in KeptNames(sig, bound) {
      var j :| 0 <= j < |tail| && Kept(tail[j], bound) && tail[j].name == n;
      assert sig[j + 1] == tail[j];
    }
    forall n | n in KeptNames(sig, bound) && n != sig[0].name ensures n in KeptNames(tail, bound) {
      var j :| 0 <= j < |sig| && Kept(sig[j], bound) && sig[j].name == n;
      assert tail[j - 1] == sig[j];
    }
  }

  /** `apply_defaults` keeps exactly the parameters that are bound, defaulted or variadic. */
  lemma {:induction false} ApplyDefaultsKept(sig: Signature, bound: map<string, Value>)
    ensures Names(ApplyDefaults(sig, bound)) == KeptNames(sig, bound)
  {
    if sig != [] {
      ApplyDefaultsKept(sig[1..], bound);
      KeptNamesCons(sig, bound);
      if Kept(sig[0], bound) {
        NamesCons((sig[0].name, Resolved(sig[0], bound)), ApplyDefaults(sig[1..], bound));
      }
    }
  }

  /** The names that survive `apply_defaults` are the bound names that are
      parameters, the defaulted ones, and the variadic ones. */
  lemma ApplyDefaultsNames(sig: Signature, bound: map<string, Value>)
    ensures Names(ApplyDefaults(sig, bound))
         == (set i | 0 <= i < |sig| && sig[i].name in bound :: sig[i].name)
          + DefaultedNames(sig) + VariadicNames(sig)
  {
    ApplyDefaultsKept(sig, bound);
  }

  /** `apply_defaults` lists every kept parameter with its resolved value, and nothing else. */
  lemma {:induction false} ApplyDefaultsEntries(sig: Signature, bound: map<string, Value>)
    ensures forall i :: 0 <= i < |sig| && Kept(sig[i], bound) ==>
              (sig[i].name, Resolved(sig[i], bound)) in ApplyDefaults(sig, bound)
    ensures forall e :: e in ApplyDefaults(sig, bound) ==>
              exists i :: 0 <= i < |sig| && Kept(sig[i], bound) && e == (sig[i].name, Resolved(sig[i], bound))
  {
    if sig != [] {
      ApplyDefaultsEntries(sig[1..], bound);
      var tail := sig[1..];
      assert forall i :: 1 <= i < |sig| ==> tail[i - 1] == sig[i];
      forall e | e in ApplyDefaults(sig, bound)
        ensures exists i :: 0 <= i < |sig| && Kept(sig[i], bound) && e == (sig[i].name, Resolved(sig[i], bound))
      {
        if e in ApplyDefaults(tail, bound) {
          var j :| 0 <= j < |tail| && Kept(tail[j], bound) && e == (tail[j].name, Resolved(tail[j], bound));
          assert sig[j + 1] == tail[j];
        } else {
          assert Kept(sig[0], bound) && e == (sig[0].name, Resolved(sig[0], bound));
        }
      }
    }
  }

  /** In a well-formed signature the `**kwargs` parameter is the one that
      collects unknown keys, and its name is no keyword name. */
  lemma VarKeywordUnique(sig: Signature, i: int)
    requires WellFormed(sig)
    requires 0 <= i < |sig| && sig[i].kind == VarKeyword
    ensures VarKeywordName(sig) == Some(sig[i].name)
    ensures sig[i].name !in KeywordNames(sig)
  {
    var j :| 0 <= j < |sig| && sig[j].kind == VarKeyword && sig[j].name == VarKeywordName(sig).value;
  }

  /** What `bind_partial` binds: each payload key that names a parameter, to its
      value, and, when some keys are unknown, the `**kwargs` parameter to them. */
  lemma BindPartialBinds(sig: Signature, kwargs: map<string, Value>)
    requires WellFormed(sig)
    requires BindPartial(sig, kwargs).Success?
    ensures var bound := BindPartial(sig, kwargs).value;
            forall n :: n in bound <==>
              (n in kwargs && n in KeywordNames(sig)) || (|Unknown(sig, kwargs)| > 0 && VarKeywordName(sig) == Some(n))
    ensures var bound := BindPartial(sig, kwargs).value;
            forall n :: n in kwargs && n in KeywordNames(sig) ==> bound[n] == kwargs[n]
    ensures var bound := BindPartial(sig, kwargs).value;
            |Unknown(sig, kwargs)| > 0 ==> bound[VarKeywordName(sig).value] == DictV(Unknown(sig, kwargs))
  {
    if |Unknown(sig, kwargs)| > 0 {
      var j :| 0 <= j < |sig| && sig[j].kind == VarKeyword && sig[j].name == VarKeywordName(sig).value;
      VarKeywordUnique(sig, j);
    }
  }

  /** The names the target receives after a successful bind: the payload keys
      that name parameters, and every defaulted and variadic parameter. Without
      a `**kwargs` parameter that is every payload key plus the defaulted and
      variadic parameters, and nothing else. */
  lemma BoundNames(sig: Signature, kwargs: map<string, Value>)
    requires WellFormed(sig)
    requires BindPartial(sig, kwargs).Success?
    ensures Bind(sig, kwargs).Success?
    ensures Names(Bind(sig, kwargs).value)
         == (kwargs.Keys * KeywordNames(sig)) + DefaultedNames(sig) + VariadicNames(sig)
    ensures !HasVarKeyword(sig) ==>
              Names(Bind(sig, kwargs).value) == kwargs.Keys + DefaultedNames(sig) + VariadicNames(sig)
  {
    var bound := BindPartial(sig, kwargs).value;
    BindPartialBinds(sig, kwargs);
    ApplyDefaultsNames(sig, bound);
    var boundNames := set i | 0 <= i < |sig| && sig[i].name in bound :: sig[i].name;
    forall n | n in boundNames ensures n in (kwargs.Keys * KeywordNames(sig)) + VariadicNames(sig) {
      if !(n in kwargs && n in KeywordNames(sig)) {
        var j :| 0 <= j < |sig| && sig[j].kind == VarKeyword && sig[j].name == n;
        assert n in VariadicNames(sig);
      }
    }
    forall n | n in kwargs.Keys * KeywordNames(sig) ensures n in boundNames {
      var j :| 0 <= j < |sig| && !IsVariadic(sig[j]) && sig[j].name == n;
    }
    if !HasVarKeyword(sig) {
      BindSucceedsIff(sig, kwargs);
    }
  }

  /** The value each parameter receives after a successful bind: the payload's
      value for a named key, else the default, `()` for `*args`, and for
      `**kwargs` the dict of the payload keys that name no parameter. */
  lemma BoundValues(sig: Signature, kwargs: map<string, Value>, i: int)
    requires WellFormed(sig)
    requires BindPartial(sig, kwargs).Success?
    requires 0 <= i < |sig|
    ensures Bind(sig, kwargs).Success?
    ensures !IsVariadic(sig[i]) && sig[i].name in kwargs ==>
              (sig[i].name, kwargs[sig[i].name]) in Bind(sig, kwargs).value
    ensures !IsVariadic(sig[i]) && sig[i].name !in kwargs && sig[i].default.Some? ==>
              (sig[i].name, sig[i].default.value) in Bind(sig, kwargs).value
    ensures sig[i].kind == VarPositional ==> (sig[i].name, TupleV([])) in Bind(sig, kwargs).value
    ensures sig[i].kind == VarKeyword ==> (sig[i].name, DictV(Unknown(sig, kwargs))) in Bind(sig, kwargs).value
  {
    var bound := BindPartial(sig, kwargs).value;
    BindPartialBinds(sig, kwargs);
    ApplyDefaultsEntries(sig, bound);
    var p := sig[i];
    if p.kind == VarKeyword {
      VarKeywordUnique(sig, i);
      if |Unknown(sig, kwargs)| == 0 {
        assert Unknown(sig, kwargs) == map[];
      }
    } else if VarKeywordName(sig).Some? {
      var j :| 0 <= j < |sig| && sig[j].kind == VarKeyword && sig[j].name == VarKeywordName(sig).value;
      assert i != j;
      if p.kind != VarPositional {
        assert p.name in KeywordNames(sig);
      }
    } else if p.kind != VarPositional {
      assert p.name in KeywordNames(sig);
    }
  }
}
