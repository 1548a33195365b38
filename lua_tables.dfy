/**
 * Lua values and tables as the entity templates see them. A table maps
 * non-nil keys to non-nil values (storing nil removes a key, so a key whose
 * value is nil is simply absent). A nested table is held by value: which
 * Lua references share it is not part of this model.
 */
module LuaTables {

  datatype Value =
    | Nil
    | Boolean(b: bool)
    | Number(n: int)
    | Str(s: string)
    | Tbl(entries: map<Value, Value>)

  type Table = t: map<Value, Value> | forall k :: k in t ==> k != Nil && t[k] != Nil
    witness map[]

  /** `t[key]`: nil when the key is absent. */
  function Get(t: Table, key: Value): (v: Value)
    ensures v == Nil <==> key !in t
  {
    if key in t then t[key] else Nil
  }

  /**
   * The table that results from filling every key of `defaults` that
   * `arguments` lacks: the caller's keys win.
   */
  function WithDefaults(arguments: Table, defaults: Table): (merged: Table)
    ensures merged.Keys == arguments.Keys + defaults.Keys
    ensures forall k :: k in arguments ==> merged[k] == arguments[k]
    ensures forall k :: k in defaults && k !in arguments ==> merged[k] == defaults[k]
  {
    defaults + arguments
  }

  /**
   * The default-argument loop of `createComponentsWithLuaArguments`: for
   * every key of `defaultArgs`, in no particular order, store the default
   * when the argument is nil.
   */
  method FillDefaults(arguments: Table, defaults: Table) returns (merged: Table)
    ensures merged == WithDefaults(arguments, defaults)
  {
    merged := arguments;
    var todo := defaults.Keys;
    while todo != {}
      invariant todo <= defaults.Keys
      invariant merged == WithDefaults(arguments, defaults - todo)
      decreases todo
    {
      var key :| key in todo;
      FillStep(arguments, defaults, todo, key);
      if Get(merged, key) == Nil {
        merged := merged[key := defaults[key]];
      }
      todo := todo - {key};
    }
    assert defaults - {} == defaults;
  }

  /** One iteration of the default-argument loop. */
  lemma FillStep(arguments: Table, defaults: Table, todo: set<Value>, key: Value)
    requires key in todo && todo <= defaults.Keys
    ensures var m := WithDefaults(arguments, defaults - todo);
            (if key in m then m else m[key := defaults[key]]) == WithDefaults(arguments, defaults - (todo - {key}))
  {
    var m := WithDefaults(arguments, defaults - todo);
    var m' := WithDefaults(arguments, defaults - (todo - {key}));
    var r := if key in m then m else m[key := defaults[key]];
    assert r.Keys == m'.Keys;
    forall k | k in r
      ensures r[k] == m'[k]
    {
    }
  }

  /** Merging is idempotent: defaults already filled in are not filled again. */
  lemma WithDefaultsIdempotent(arguments: Table, defaults: Table)
    ensures WithDefaults(WithDefaults(arguments, defaults), defaults) == WithDefaults(arguments, defaults)
  {
  }

  /** Without arguments of its own, the caller gets exactly the defaults. */
  lemma WithDefaultsOfEmpty(defaults: Table)
    ensures WithDefaults(map[], defaults) == defaults
  {
  }

  /** Merging with no defaults leaves the arguments as they are. */
  lemma WithoutDefaults(arguments: Table)
    ensures WithDefaults(arguments, map[]) == arguments
  {
  }
}
