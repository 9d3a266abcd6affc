/** The name-keyed catalog: a list of entries folded into a map, a later
    entry replacing an earlier one of the same name. */
module Registry {

  import opened Py
  import opened Specs
  import Loader

  type Catalog = map<string, MethodSpec>

  /** `for ms in specs: m[ms.tool_name] = ms`, starting from `m`. */
  function Insert(m: Catalog, specs: seq<MethodSpec>): Catalog {
    if specs == [] then m
    else Insert(m, specs[..|specs| - 1])[specs[|specs| - 1].toolName := specs[|specs| - 1]]
  }

  /** `{ms.tool_name: ms for ms in specs}`. */
  function BuildMap(specs: seq<MethodSpec>): Catalog {
    Insert(map[], specs)
  }

  function ToolNames(specs: seq<MethodSpec>): set<string> {
    set i | 0 <= i < |specs| :: specs[i].toolName
  }

  predicate KeyedByToolName(m: Catalog) {
    forall k :: k in m ==> m[k].toolName == k
  }

  /** Folding in two batches is folding in their concatenation. */
  lemma {:induction false} InsertAppend(m: Catalog, a: seq<MethodSpec>, b: seq<MethodSpec>)
    ensures Insert(m, a + b) == Insert(Insert(m, a), b)
    decreases |b|
  {
    if b == [] {
      assert a + b == a;
    } else {
      assert (a + b)[..|a + b| - 1] == a + b[..|b| - 1];
      assert (a + b)[|a + b| - 1] == b[|b| - 1];
      InsertAppend(m, a, b[..|b| - 1]);
    }
  }

  /** Every key names its own entry, and the keys are those already present
      plus the tool names of the folded list. */
  lemma {:induction false} InsertKeys(m: Catalog, specs: seq<MethodSpec>)
    requires KeyedByToolName(m)
    ensures KeyedByToolName(Insert(m, specs))
    ensures Insert(m, specs).Keys == m.Keys + ToolNames(specs)
  {
    if specs != [] {
      var init := specs[..|specs| - 1];
      InsertKeys(m, init);
      ToolNamesSnoc(specs);
    }
  }

  lemma ToolNamesSnoc(specs: seq<MethodSpec>)
    requires specs != []
    ensures ToolNames(specs) == ToolNames(specs[..|specs| - 1]) + {specs[|specs| - 1].toolName}
  {
    var init := specs[..|specs| - 1];
    forall n | n in ToolNames(specs) ensures n in ToolNames(init) + {specs[|specs| - 1].toolName} {
      var i :| 0 <= i < |specs| && specs[i].toolName == n;
      if i < |specs| - 1 { assert init[i] == specs[i]; }
    }
    forall n | n in ToolNames(init) ensures n in ToolNames(specs) {
      var i :| 0 <= i < |init| && init[i].toolName == n;
      assert specs[i] == init[i];
    }
  }

  /** The entry kept for a name is the last one in the list with that name. */
  lemma {:induction false} InsertLastWins(m: Catalog, specs: seq<MethodSpec>, i: int)
    requires 0 <= i < |specs|
    requires forall j :: i < j < |specs| ==> specs[j].toolName != specs[i].toolName
    ensures specs[i].toolName in Insert(m, specs)
    ensures Insert(m, specs)[specs[i].toolName] == specs[i]
  {
    if i < |specs| - 1 {
      var init := specs[..|specs| - 1];
      assert forall j :: i < j < |init| ==> init[j] == specs[j];
      InsertLastWins(m, init, i);
    }
  }

  /** Every entry comes from the list, or was already present. */
  lemma {:induction false} InsertValuesFrom(m: Catalog, specs: seq<MethodSpec>)
    ensures forall k :: k in Insert(m, specs) ==>
              Insert(m, specs)[k] in specs || (k in m && Insert(m, specs)[k] == m[k])
  {
    if specs != [] {
      var init := specs[..|specs| - 1];
      InsertValuesFrom(m, init);
      assert forall x :: x in init ==> x in specs;
    }
  }

  /** The catalog's keys are exactly the tool names of the list, each key
      naming its own entry; the catalog is no larger than the list. */
  lemma BuildMapKeys(specs: seq<MethodSpec>)
    ensures KeyedByToolName(BuildMap(specs))
    ensures BuildMap(specs).Keys == ToolNames(specs)
    ensures |BuildMap(specs)| <= |specs|
  {
    InsertKeys(map[], specs);
    ToolNamesSize(specs);
  }

  lemma {:induction false} ToolNamesSize(specs: seq<MethodSpec>)
    ensures |ToolNames(specs)| <= |specs|
  {
    if specs != [] {
      var init := specs[..|specs| - 1];
      ToolNamesSize(init);
      ToolNamesSnoc(specs);
    }
  }

  /** On duplicate names the entry appearing last in the list is kept. */
  lemma BuildMapLastWins(specs: seq<MethodSpec>, i: int)
    requires 0 <= i < |specs|
    requires forall j :: i < j < |specs| ==> specs[j].toolName != specs[i].toolName
    ensures specs[i].toolName in BuildMap(specs) && BuildMap(specs)[specs[i].toolName] == specs[i]
  {
    InsertLastWins(map[], specs, i);
  }

  /** Every value of the catalog is an element of the list. */
  lemma BuildMapValuesFrom(specs: seq<MethodSpec>)
    ensures forall k :: k in BuildMap(specs) ==> BuildMap(specs)[k] in specs
  {
    InsertValuesFrom(map[], specs);
  }

  /** A name the folded list does not mention keeps whatever `m` had for it. */
  lemma {:induction false} InsertKeepsOthers(m: Catalog, specs: seq<MethodSpec>, k: string)
    requires k !in ToolNames(specs)
    ensures k in Insert(m, specs) <==> k in m
    ensures k in m ==> Insert(m, specs)[k] == m[k]
  {
    if specs != [] {
      ToolNamesSnoc(specs);
      InsertKeepsOthers(m, specs[..|specs| - 1], k);
    }
  }

  /** A name the folded list mentions gets the list's entry, whatever `m` held. */
  lemma {:induction false} InsertIgnoresBase(m: Catalog, m': Catalog, specs: seq<MethodSpec>, k: string)
    requires k in ToolNames(specs)
    ensures k in Insert(m, specs) && k in Insert(m', specs)
    ensures Insert(m, specs)[k] == Insert(m', specs)[k]
  {
    ToolNamesSnoc(specs);
    if specs[|specs| - 1].toolName != k {
      InsertIgnoresBase(m, m', specs[..|specs| - 1], k);
    }
  }

  /** Merging `b` after `a`: a name of `b` takes `b`'s entry, any other name
      keeps `a`'s. */
  lemma BuildMapConcat(a: seq<MethodSpec>, b: seq<MethodSpec>, k: string)
    ensures k in BuildMap(a + b) <==> k in BuildMap(a) || k in BuildMap(b)
    ensures k in BuildMap(b) ==> BuildMap(a + b)[k] == BuildMap(b)[k]
    ensures k !in BuildMap(b) && k in BuildMap(a) ==> BuildMap(a + b)[k] == BuildMap(a)[k]
  {
    InsertAppend(map[], a, b);
    BuildMapKeys(b);
    if k in ToolNames(b) {
      InsertIgnoresBase(BuildMap(a), map[], b, k);
    } else {
      InsertKeepsOthers(BuildMap(a), b, k);
    }
  }

  /** `build_registry(cfg)` on an already-loaded configuration. */
  method BuildRegistry(rt: Runtime, env: Env, cfg: Loader.Config) returns (r: Result<Catalog, Exc>)
    ensures r.Success? <==> Loader.Collected(rt, env, cfg.providers).Success?
    ensures r.Failure? ==> r.error == Loader.Collected(rt, env, cfg.providers).error
    ensures r.Success? ==> r.value == BuildMap(Loader.Collected(rt, env, cfg.providers).value)
    ensures r.Success? ==> KeyedByToolName(r.value)
  {
    var methods := Loader.CollectMethods(rt, env, cfg);
    if methods.Failure? {
      return Failure(methods.error);
    }
    BuildMapKeys(methods.value);
    r := Success(BuildMap(methods.value));
  }
}
