/** Call-time execution of one catalog entry against one payload: control-key
    stripping, the write gate, binding, dry-run preview, invocation and result
    normalisation. Every path ends in exactly one structured outcome. */
module Executor {

  import opened Py
  import opened Text
  import opened Binding
  import opened Specs

  datatype CallError =
    | WriteGate
    | BindFailed(reason: BindError)
    | SdkRaised(exc: Exc)

  /** The outcome dicts: `{"error": …}`, `{"dry_run": True, "tool": …,
      "would_call": …}`, `{"ok": True, "data": …}` and the lossy
      `{"ok": True, "data": …, "warning": …}`. */
  datatype Outcome =
    | Error(error: CallError)
    | DryRun(tool: string, wouldCall: string)
    | Ok(data: Value)
    | OkLossy(data: Value, warning: string)

  const WRITE_GATE_MESSAGE: string :=
    "This tool is 'write' mode. " + "Provide {'confirm': true} (or 'dry_run': true) to proceed."
  const BIND_PREFIX: string := "Argument binding failed: "
  const SDK_PREFIX: string := "SDK call raised: "

  /** The text of `str(e)` for the binding `TypeError`s. Python also names the
      first unexpected key; a payload map has no first key, so that name is left out. */
  function BindErrorText(e: BindError): string {
    match e
    case PositionalOnlyAsKeyword(n) => "'" + n + "' parameter is positional only, but was passed as a keyword"
    case UnexpectedKeyword(_) => "got an unexpected keyword argument"
  }

  lemma NotStartsWith(r: string, prefix: string)
    requires |prefix| > 0 && |r| > 0 && r[0] != prefix[0]
    ensures !StartsWith(r, prefix)
  {
    if |prefix| <= |r| {
      assert r[..|prefix|][0] == r[0];
    }
  }

  /** The string under the outcome's `"error"` key. Its fixed start tells the
      three kinds of failure apart. */
  function ErrorText(e: CallError): (r: string)
    ensures e.WriteGate? <==> r == WRITE_GATE_MESSAGE
    ensures e.BindFailed? <==> StartsWith(r, BIND_PREFIX)
    ensures e.SdkRaised? <==> StartsWith(r, SDK_PREFIX)
  {
    match e
    case WriteGate =>
      var r := WRITE_GATE_MESSAGE;
      assert r[0] == 'T' && BIND_PREFIX[0] == 'A' && SDK_PREFIX[0] == 'S';
      NotStartsWith(r, BIND_PREFIX);
      NotStartsWith(r, SDK_PREFIX);
      r
    case BindFailed(b) =>
      var r := BIND_PREFIX + BindErrorText(b);
      assert r[..|BIND_PREFIX|] == BIND_PREFIX;
      assert r[0] == 'A' && SDK_PREFIX[0] == 'S' && WRITE_GATE_MESSAGE[0] == 'T';
      NotStartsWith(r, SDK_PREFIX);
      r
    case SdkRaised(x) =>
      var r := SDK_PREFIX + x.typeName + ": " + x.message;
      assert r[..|SDK_PREFIX|] == SDK_PREFIX;
      assert r[0] == 'S' && BIND_PREFIX[0] == 'A' && WRITE_GATE_MESSAGE[0] == 'T';
      NotStartsWith(r, BIND_PREFIX);
      r
  }

  /** `getattr(obj, "raw_data", None) or getattr(obj, "raw_attributes", None)`. */
  function RawOf(rt: Runtime, obj: Value): Value {
    var data := GetAttrOr(rt, obj, "raw_data");
    if Truthy(rt, data) then data else GetAttrOr(rt, obj, "raw_attributes")
  }

  /** `_jsonable(obj)`. When `json.dumps(obj)` succeeds nothing is returned
      from the `try`, so control falls through to `repr(obj)`: an encodable
      result comes back as its text, not as itself. Otherwise a non-`None`,
      encodable raw attribute is returned as it is, and anything else as text. */
  function Jsonable(rt: Runtime, obj: Value): (r: Value)
    ensures rt.encodable(obj) ==> r == StrV(rt.repr(obj))
    ensures !rt.encodable(obj) && !RawOf(rt, obj).NoneV? && rt.encodable(RawOf(rt, obj)) ==> r == RawOf(rt, obj)
    ensures !rt.encodable(obj) && (RawOf(rt, obj).NoneV? || !rt.encodable(RawOf(rt, obj))) ==>
              r == StrV(rt.repr(obj))
    ensures r != StrV(rt.repr(obj)) ==>
              !rt.encodable(obj) && !r.NoneV? && r == RawOf(rt, obj) && rt.encodable(r)
  {
    if rt.encodable(obj) then StrV(rt.repr(obj))
    else
      var raw := RawOf(rt, obj);
      if !raw.NoneV? && rt.encodable(raw) then raw else StrV(rt.repr(obj))
  }

  /** Whatever the result, what `_jsonable` returns can be encoded, provided
      every string can. */
  lemma JsonableEncodable(rt: Runtime, obj: Value)
    requires forall s :: rt.encodable(StrV(s))
    ensures rt.encodable(Jsonable(rt, obj))
  {
  }

  /** `", ".join(f"{k}={v!r}" for k, v in args)`. */
  function RenderArgs(rt: Runtime, args: KwArgs): (r: string)
    ensures r == "" <==> args == []
  {
    if args == [] then ""
    else
      var first := args[0].0 + "=" + rt.repr(args[0].1);
      assert first[|args[0].0|] == '=';
      if |args| == 1 then first else first + ", " + RenderArgs(rt, args[1..])
  }

  /** One argument renders as `name=repr(value)`. */
  function RenderArg(rt: Runtime, arg: (string, Value)): string {
    arg.0 + "=" + rt.repr(arg.1)
  }

  /** Rendering splits at any point into the two halves joined by `", "`:
      the arguments appear in order, each once, comma-separated. */
  lemma {:induction false} RenderArgsAppend(rt: Runtime, a: KwArgs, b: KwArgs)
    requires a != [] && b != []
    ensures RenderArgs(rt, a + b) == RenderArgs(rt, a) + ", " + RenderArgs(rt, b)
  {
    assert (a + b)[0] == a[0];
    if |a| > 1 {
      assert (a + b)[1..] == a[1..] + b;
      RenderArgsAppend(rt, a[1..], b);
    } else {
      assert (a + b)[1..] == b;
    }
  }

  /** Appending one argument appends `", name=repr(value)"`. */
  lemma RenderArgsSnoc(rt: Runtime, args: KwArgs, x: (string, Value))
    ensures RenderArgs(rt, args + [x]) ==
              if args == [] then RenderArg(rt, x) else RenderArgs(rt, args) + ", " + RenderArg(rt, x)
  {
    if args == [] {
      assert args + [x] == [x];
    } else {
      RenderArgsAppend(rt, args, [x]);
    }
  }

  /** The `would_call` preview: `fn.__qualname__(k=repr(v), …)`. */
  function WouldCall(rt: Runtime, fn: Value, args: KwArgs): (r: string)
    ensures |r| >= |rt.qualname(fn)| + 2
    ensures r[..|rt.qualname(fn)| + 1] == rt.qualname(fn) + "(" && r[|r| - 1] == ')'
    ensures r[|rt.qualname(fn)| + 1..|r| - 1] == RenderArgs(rt, args)
    ensures args == [] ==> r == rt.qualname(fn) + "()"
  {
    rt.qualname(fn) + "(" + RenderArgs(rt, args) + ")"
  }

  /** The working payload: a copy of the caller's (`{}` for `None`) without the
      two control keys. */
  function Stripped(payload: Option<map<string, Value>>): (p: map<string, Value>)
    ensures "dry_run" !in p && "confirm" !in p
    ensures payload.Some? ==> forall k :: k in payload.value && k != "dry_run" && k != "confirm" ==>
                                k in p && p[k] == payload.value[k]
    ensures payload.Some? ==> p.Keys <= payload.value.Keys
    ensures payload.None? ==> p == map[]
  {
    var given := if payload.Some? then payload.value else map[];
    given - {"dry_run", "confirm"}
  }

  /** `bool(payload.pop(key, False))`. */
  function ControlFlag(rt: Runtime, payload: Option<map<string, Value>>, key: string): bool {
    payload.Some? && key in payload.value && Truthy(rt, payload.value[key])
  }

  /** The write gate refuses a 'write' tool called with neither flag. */
  predicate Gated(mode: Option<string>, dryRun: bool, confirm: bool) {
    mode == Some("write") && !(dryRun || confirm)
  }

  /** `call_tool(spec, payload)`. `invoked` records whether the target was called. */
  method CallTool(rt: Runtime, spec: MethodSpec, payload: Option<map<string, Value>>)
    returns (out: Outcome, ghost invoked: bool)
    ensures out == Error(WriteGate) <==>
              Gated(spec.mode, ControlFlag(rt, payload, "dry_run"), ControlFlag(rt, payload, "confirm"))
    ensures Gated(spec.mode, ControlFlag(rt, payload, "dry_run"), ControlFlag(rt, payload, "confirm")) ==> !invoked
    ensures !Gated(spec.mode, ControlFlag(rt, payload, "dry_run"), ControlFlag(rt, payload, "confirm"))
            && Bind(spec.signature, Stripped(payload)).Failure? ==>
              out == Error(BindFailed(Bind(spec.signature, Stripped(payload)).error)) && !invoked
    ensures !Gated(spec.mode, ControlFlag(rt, payload, "dry_run"), ControlFlag(rt, payload, "confirm"))
            && Bind(spec.signature, Stripped(payload)).Success? && ControlFlag(rt, payload, "dry_run") ==>
              out == DryRun(spec.toolName, WouldCall(rt, spec.fn, Bind(spec.signature, Stripped(payload)).value))
    ensures ControlFlag(rt, payload, "dry_run") ==> !invoked
    ensures invoked <==>
              && !Gated(spec.mode, ControlFlag(rt, payload, "dry_run"), ControlFlag(rt, payload, "confirm"))
              && Bind(spec.signature, Stripped(payload)).Success?
              && !ControlFlag(rt, payload, "dry_run")
    ensures invoked ==>
              match rt.call(spec.fn, [], Bind(spec.signature, Stripped(payload)).value)
              case Failure(e) => out == Error(SdkRaised(e))
              case Success(v) => out == Ok(Jsonable(rt, v))
    ensures !out.OkLossy?
  {
    invoked := false;
    var work := if payload.Some? then payload.value else map[];
    var dryRun := "dry_run" in work && Truthy(rt, work["dry_run"]);
    work := work - {"dry_run"};
    var confirm := "confirm" in work && Truthy(rt, work["confirm"]);
    work := work - {"confirm"};
    assert work == Stripped(payload);
    if spec.mode == Some("write") && !(dryRun || confirm) {
      out := Error(WriteGate);
      return;
    }
    var bound := Bind(spec.signature, work);
    if bound.Failure? {
      out := Error(BindFailed(bound.error));
      return;
    }
    if dryRun {
      out := DryRun(spec.toolName, WouldCall(rt, spec.fn, bound.value));
      return;
    }
    var result := rt.call(spec.fn, [], bound.value);
    invoked := true;
    if result.Failure? {
      out := Error(SdkRaised(result.error));
      return;
    }
    // `_jsonable` is total, so the lossy-serialisation handler never runs.
    out := Ok(Jsonable(rt, result.value));
  }

  /** `fn(**bound.arguments)` passes every bound entry by keyword, the
      variadic ones included: a `*args` parameter arrives as the keyword
      `args=()`, and a `**kwargs` parameter as one keyword holding the dict of
      unknown payload keys, rather than as those keys themselves. */
  lemma VariadicPassedByKeyword(rt: Runtime, spec: MethodSpec, payload: Option<map<string, Value>>, i: int)
    requires WellFormed(spec.signature) && 0 <= i < |spec.signature|
    requires Bind(spec.signature, Stripped(payload)).Success?
    ensures spec.signature[i].kind == VarPositional ==>
              (spec.signature[i].name, TupleV([])) in Bind(spec.signature, Stripped(payload)).value
    ensures spec.signature[i].kind == VarKeyword ==>
              (spec.signature[i].name, DictV(Unknown(spec.signature, Stripped(payload))))
                in Bind(spec.signature, Stripped(payload)).value
  {
    BoundValues(spec.signature, Stripped(payload), i);
  }
}
