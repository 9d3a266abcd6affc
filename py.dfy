/** The slice of Python's object model that the tool pipeline relies on.

    Values that travel as data (payloads, defaults, results that are plain
    data) are concrete; everything the pipeline only reaches through
    reflection (modules, classes, bound methods, SDK objects) is a `Ref`
    whose behaviour is given by the oracles of a `Runtime`.
 */
module Py {

  datatype Option<+T> = None | Some(value: T)

  datatype Result<+R, +E> = Success(value: R) | Failure(error: E)

  /** A Python value. `DictV` is a dict with string keys (Python dict equality
      ignores insertion order, and so does a map); `Ref` is any other object. */
  datatype Value =
    | NoneV
    | BoolV(b: bool)
    | IntV(i: int)
    | StrV(s: string)
    | ListV(items: seq<Value>)
    | TupleV(elems: seq<Value>)
    | DictV(entries: map<string, Value>)
    | Ref(id: nat)

  /** A raised exception: `type(e).__name__` and `str(e)`. */
  datatype Exc = Exc(typeName: string, message: string)

  /** The process environment, `os.environ`. */
  type Env = map<string, string>

  /** Keyword arguments in the order they are passed. */
  type KwArgs = seq<(string, Value)>

  /** What the pipeline observes of the interpreter. Every field is a total
      function: an oracle whose internals are outside the model.
      - `getattr(o, n)` is `None` when the attribute lookup raises;
      - `call(f, args, kwargs)` is `f(*args, **kwargs)`, `Failure` when it raises;
      - `members(o)` is what `inspect.getmembers(o)` lists, in its order;
      - `signature(o)` is `inspect.signature(o)`, `None` when that raises;
      - `encodable(v)` holds when `json.dumps(v)` returns normally;
      - `objectTruthy(o)` is `bool(o)` for an object that is not plain data. */
  datatype Runtime = Runtime(
    getattr: (Value, string) -> Option<Value>,
    call: (Value, seq<Value>, KwArgs) -> Result<Value, Exc>,
    members: Value -> seq<(string, Value)>,
    isFunction: Value -> bool,
    isClass: Value -> bool,
    isCallable: Value -> bool,
    signature: Value -> Option<seq<Param>>,
    doc: Value -> Option<string>,
    qualname: Value -> string,
    className: Value -> string,
    repr: Value -> string,
    encodable: Value -> bool,
    objectTruthy: Value -> bool,
    importModule: string -> Result<Value, Exc>
  )

  /** The kinds of `inspect.Parameter`. */
  datatype ParamKind =
    | PositionalOnly
    | PositionalOrKeyword
    | VarPositional
    | KeywordOnly
    | VarKeyword

  /** One entry of a signature; `default == None` is `inspect.Parameter.empty`. */
  datatype Param = Param(name: string, kind: ParamKind, default: Option<Value>)

  predicate IsVariadic(p: Param) {
    p.kind == VarPositional || p.kind == VarKeyword
  }

  /** Python's `bool(v)`. */
  function Truthy(rt: Runtime, v: Value): bool {
    match v
    case NoneV => false
    case BoolV(b) => b
    case IntV(i) => i != 0
    case StrV(s) => |s| > 0
    case ListV(items) => |items| > 0
    case TupleV(elems) => |elems| > 0
    case DictV(entries) => |entries| > 0
    case Ref(_) => rt.objectTruthy(v)
  }

  /** `getattr(o, name, None)`. */
  function GetAttrOr(rt: Runtime, o: Value, name: string): Value {
    match rt.getattr(o, name)
    case Some(v) => v
    case None => NoneV
  }

  /** `inspect.getmembers(o, pred)`: the members whose value satisfies `pred`. */
  function MembersWhere(ms: seq<(string, Value)>, pred: Value -> bool): (r: seq<(string, Value)>)
    ensures |r| <= |ms|
    ensures forall i :: 0 <= i < |r| ==> pred(r[i].1) && r[i] in ms
  {
    if ms == [] then []
    else
      var rest := MembersWhere(ms[1..], pred);
      if pred(ms[0].1) then [ms[0]] + rest else rest
  }

  function AttributeError(name: string): Exc {
    Exc("AttributeError", name)
  }

  /** Successive attribute lookups `root.p0.p1…`, left to right; the first
      missing attribute raises `AttributeError`. */
  function GetPath(rt: Runtime, root: Value, parts: seq<string>): Result<Value, Exc>
    decreases |parts|
  {
    if parts == [] then Success(root)
    else
      match rt.getattr(root, parts[0])
      case None => Failure(AttributeError(parts[0]))
      case Some(v) => GetPath(rt, v, parts[1..])
  }

  /** Looking up `a + b` is looking up `a` and then `b` from where `a` ends. */
  lemma {:induction false} GetPathAppend(rt: Runtime, root: Value, a: seq<string>, b: seq<string>)
    ensures GetPath(rt, root, a + b) ==
              match GetPath(rt, root, a)
              case Failure(e) => Failure(e)
              case Success(v) => GetPath(rt, v, b)
    decreases |a|
  {
    if a == [] {
      assert a + b == b;
    } else {
      assert (a + b)[0] == a[0] && (a + b)[1..] == a[1..] + b;
      match rt.getattr(root, a[0])
      case None =>
      case Some(v) => GetPathAppend(rt, v, a[1..], b);
    }
  }

  /** A path whose segment `i` is missing where the lookup has reached fails
      with that segment's `AttributeError`, whatever follows it. */
  lemma GetPathMissingSegment(rt: Runtime, root: Value, parts: seq<string>, i: nat, o: Value)
    requires i < |parts|
    requires GetPath(rt, root, parts[..i]) == Success(o)
    requires rt.getattr(o, parts[i]).None?
    ensures GetPath(rt, root, parts) == Failure(AttributeError(parts[i]))
  {
    assert parts == parts[..i] + parts[i..];
    GetPathAppend(rt, root, parts[..i], parts[i..]);
  }
}
