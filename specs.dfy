/** The catalog entry shared by both discovery strategies and consumed by the
    executor, and the marker both strategies use to name an auth variable. */
module Specs {

  import opened Py
  import Binding

  /** An `auth` string of the form `"env: NAME"` names the variable `NAME`. */
  const ENV_MARKER: string := "env:"

  /** One invocable operation. `fn` is the bound callable, `signature` its
      parameter list as discovery recorded it. Config-driven discovery always
      sets `mode` and `argHints`; reflective discovery sets neither (its record
      has no `arg_hints` attribute and leaves `mode` at `None`). */
  datatype MethodSpec = MethodSpec(
    toolName: string,
    fn: Value,
    signature: Binding.Signature,
    doc: Option<string>,
    mode: Option<string>,
    argHints: Option<map<string, Value>>
  )
}
