/**
 * Lua entity templates of the room-level entity system (the earlier layout
 * of the template code): the `persistenceMode` flags, the default-argument
 * merge, and the script functions that look up, set and find components and
 * children by name. A template whose script never calls `defaultArgs` holds
 * no default table at all (`None` here).
 */
module RoomEntityTemplates {
  import opened Wrappers
  import opened LuaTables
  import Components

  /** Flags of `persistenceMode(mode, componentsToSave)`. */
  const Template: bv32 := 1
  const Args: bv32 := 2
  const Pos: bv32 := 4
  const AllComponents: bv32 := 8
  const Revive: bv32 := 16

  /** The mode a template starts with, before its script changes it. */
  const InitialMode: bv32 := Template | Args | Pos

  /** The `Persistent` component in this layout: a single position flag. */
  datatype Persistent = Persistent(
    applyTemplateOnLoad: string,
    savePosition: bool,
    saveAllComponents: bool,
    revive: bool,
    saveComponents: seq<string>,
    data: Table)

  /** A default-constructed `Persistent`. */
  const NotPersistent := Persistent("", false, false, false, [], map[])

  /** The record `persistenceMode(mode, componentsToSave)` installs. */
  function PersistencyFor(name: string, mode: bv32, componentsToSave: Option<seq<string>>): (p: Persistent)
    ensures p.data == map[]
  {
    NotPersistent.(
      applyTemplateOnLoad := if mode & Template != 0 then name else "",
      savePosition := mode & Pos != 0,
      saveAllComponents := mode & AllComponents != 0,
      revive := mode & Revive != 0,
      saveComponents := if componentsToSave.Some? then componentsToSave.value else [])
  }

  /** Reads the mode back out of a record and the `persistentArgs` flag. */
  function ModeOf(p: Persistent, persistentArgs: bool): (mode: bv32)
    ensures mode & !31 == 0
  {
    (if p.applyTemplateOnLoad != "" then Template else 0)
    | (if persistentArgs then Args else 0)
    | (if p.savePosition then Pos else 0)
    | (if p.saveAllComponents then AllComponents else 0)
    | (if p.revive then Revive else 0)
  }

  /**
   * Each of the five flags survives `persistenceMode`, and TEMPLATE makes the
   * record re-apply this very template on load.
   */
  lemma ModeRoundTrip(name: string, mode: bv32, componentsToSave: Option<seq<string>>)
    requires name != ""
    ensures ModeOf(PersistencyFor(name, mode, componentsToSave), mode & Args != 0) == mode & 31
    ensures PersistencyFor(name, mode, componentsToSave).applyTemplateOnLoad ==
              if mode & Template != 0 then name else ""
  {
    assert mode & 31 == (mode & Template) | (mode & Args) | (mode & Pos)
                        | (mode & AllComponents) | (mode & Revive);
  }

  /**
   * The argument choice of `createComponentsWithLuaArguments` as written: the
   * caller's table is merged with the defaults only when both exist, and is
   * otherwise replaced by the template's default table, even one that does
   * not exist.
   */
  function ArgumentsAsWritten(arguments: Option<Table>, defaults: Option<Table>): (passed: Option<Table>)
    ensures arguments.Some? && defaults.Some? ==> passed == Some(WithDefaults(arguments.value, defaults.value))
    ensures arguments.None? || defaults.None? ==> passed == defaults
  {
    if arguments.Some? && defaults.Some? then Some(WithDefaults(arguments.value, defaults.value)) else defaults
  }

  /**
   * A template that declares no defaults loses the arguments it is given:
   * `create` receives nil instead of `{hp = 10}`.
   */
  lemma ArgumentsAsWrittenDropsArguments()
    ensures var arguments := map[Str("hp") := Number(10)];
            ArgumentsAsWritten(Some(arguments), None) == None
  {
  }

  /**
   * The argument choice as intended: the caller's table with the missing
   * defaults filled in, the caller's table alone when there are no
   * defaults, and the defaults when there is no table.
   */
  function ArgumentsFor(arguments: Option<Table>, defaults: Option<Table>): (passed: Option<Table>)
    ensures arguments.Some? ==> passed.Some? && arguments.value.Keys <= passed.value.Keys
    ensures arguments.Some? ==> forall k :: k in arguments.value ==> passed.value[k] == arguments.value[k]
    ensures passed.Some? ==> forall k :: k in passed.value && (arguments.None? || k !in arguments.value) ==>
              defaults.Some? && k in defaults.value && passed.value[k] == defaults.value[k]
    ensures arguments.None? ==> passed == defaults
  {
    if arguments.None? then defaults
    else if defaults.None? then arguments
    else Some(WithDefaults(arguments.value, defaults.value))
  }

  /** Where the template does declare defaults, both choices agree. */
  lemma ArgumentsForAgreesWithDeclaredDefaults(arguments: Option<Table>, defaults: Option<Table>)
    requires defaults.Some? || arguments.None?
    ensures ArgumentsFor(arguments, defaults) == ArgumentsAsWritten(arguments, defaults)
  {
  }

  /**
   * Declaring no defaults is the same as declaring an empty table, which is
   * how the later template code starts out.
   */
  lemma NoDefaultsIsEmptyDefaults(arguments: Table)
    ensures ArgumentsFor(Some(arguments), None) == ArgumentsFor(Some(arguments), Some(map[]))
  {
    assert WithDefaults(arguments, map[]) == arguments;
  }

  /**
   * A nested table value as a `Table`: nested entries are typed as any
   * values, and a Lua table never holds a nil key or value.
   */
  function TableOf(entries: map<Value, Value>): Table
  {
    map k | k in entries && k != Nil && entries[k] != Nil :: entries[k]
  }

  /**
   * Why one entry of a `setComponents` table is refused, if it is: a key
   * that is not a string, a value that is not a table, or a name that is no
   * registered component type.
   */
  function EntryError(registered: set<string>, key: Value, value: Value): (error: Option<string>)
    ensures error.None? <==> key.Str? && value.Tbl? && key.s in registered
    ensures !key.Str? ==> error == Some("All keys in the components table must be a string!")
    ensures key.Str? && !value.Tbl? ==> error == Some("Expected a table for " + key.s)
    ensures key.Str? && value.Tbl? && key.s !in registered ==> error == Some(Components.UnknownComponentError(key.s))
  {
    if !key.Str? then Some("All keys in the components table must be a string!")
    else if !value.Tbl? then Some("Expected a table for " + key.s)
    else if key.s !in registered then Some(Components.UnknownComponentError(key.s))
    else None
  }

  class Entity {
    var persistent: Option<Persistent>
    /** Component type name to the component's fields, as a Lua table. */
    var components: map<string, Table>
    /** Named children, as the room finds them by name. */
    var children: map<string, Entity>

    constructor ()
      ensures persistent == None && components == map[] && children == map[]
    {
      persistent := None;
      components := map[];
      children := map[];
    }
  }

  /**
   * `getComponent(entity, componentName)`: an error for an unknown type,
   * nil when the entity lacks the component, else the component as a table.
   */
  function GetComponent(registered: set<string>, e: Entity, componentName: string): (r: Result<Option<Table>>)
    reads e
    ensures r.Err? <==> componentName !in registered
    ensures r.Err? ==> r.error == Components.UnknownComponentError(componentName)
    ensures r == Ok(None) <==> componentName in registered && componentName !in e.components
    ensures r.Ok? && r.value.Some? ==> componentName in e.components && r.value.value == e.components[componentName]
  {
    match Components.ComponentUtils(registered, componentName)
    case Err(error) => Err(error)
    case Ok(_) =>
      if componentName in e.components then Ok(Some(e.components[componentName])) else Ok(None)
  }

  /** `getChild(parent, childName)`: nil when the parent has no such child. */
  function GetChild(parent: Entity, childName: string): (child: Option<Entity>)
    reads parent
    ensures child.None? <==> childName !in parent.children
    ensures child.Some? ==> parent.children[childName] == child.value
  {
    if childName in parent.children then Some(parent.children[childName]) else None
  }

  class LuaEntityTemplate {
    const name: string
    /** `None` until the script calls `defaultArgs(table)`. */
    var defaultArgs: Option<Table>
    var persistency: Persistent
    var persistentArgs: bool
    /** Errors reported while creating entities. */
    var errors: seq<string>

    /** The state before the template's script runs. */
    constructor (name: string)
      ensures this.name == name && defaultArgs == None && errors == []
      ensures persistency == PersistencyFor(name, InitialMode, None)
      ensures persistentArgs
    {
      this.name := name;
      defaultArgs := None;
      persistency := PersistencyFor(name, InitialMode, None);
      persistentArgs := true;
      errors := [];
    }

    /**
     * `persistenceMode(mode, componentsToSave)`: installs a fresh record for
     * `mode`, then fails on the first component to save that is not a
     * registered type (the record stays installed).
     */
    method SetPersistentMode(mode: bv32, componentsToSave: Option<seq<string>>, registered: set<string>)
      returns (outcome: Outcome)
      modifies this`persistency, this`persistentArgs
      ensures persistency == PersistencyFor(name, mode, componentsToSave)
      ensures persistentArgs <==> mode & Args != 0
      ensures outcome == Pass <==>
                componentsToSave.None? || forall j :: 0 <= j < |componentsToSave.value| ==> componentsToSave.value[j] in registered
      ensures outcome.Fail? ==>
                componentsToSave.Some? &&
                var i := Components.FirstUnknown(componentsToSave.value, registered);
                i < |componentsToSave.value| && outcome.error == Components.UnknownComponentError(componentsToSave.value[i])
    {
      persistency := PersistencyFor(name, mode, componentsToSave);
      persistentArgs := mode & Args != 0;
      outcome := Pass;
      if componentsToSave.Some? {
        outcome := Components.CheckComponents(persistency.saveComponents, registered);
      }
    }

    /** `defaultArgs(table)`. */
    method SetDefaultArgs(table: Table)
      modifies this`defaultArgs
      ensures defaultArgs == Some(table)
    {
      defaultArgs := Some(table);
    }

    /** The default-argument step, as intended. */
    method MergeArguments(arguments: Option<Table>) returns (passed: Option<Table>)
      ensures passed == ArgumentsFor(arguments, defaultArgs)
    {
      if arguments.None? {
        passed := defaultArgs;
      } else if defaultArgs.None? {
        passed := arguments;
      } else {
        var merged := FillDefaults(arguments.value, defaultArgs.value);
        passed := Some(merged);
      }
    }

    /**
     * `createComponentsWithLuaArguments(e, arguments, persistent)`, with the
     * argument choice corrected. `created` is the outcome of the script's
     * `create`. Returns the arguments `create` received (`None` for nil).
     */
    method CreateComponentsWithLuaArguments(e: Entity, arguments: Option<Table>, persistent: bool, created: Outcome)
      returns (passed: Option<Table>)
      modifies e`persistent, this`errors
      ensures passed == ArgumentsFor(arguments, defaultArgs)
      ensures !persistent ==> e.persistent == old(e.persistent)
      ensures persistent ==> e.persistent == Some(persistency.(
                data := if persistentArgs && passed.Some? then passed.value else persistency.data))
      ensures created.Fail? ==> errors == old(errors) + [created.error]
      ensures created.Pass? ==> errors == old(errors)
    {
      passed := MergeArguments(arguments);
      if persistent {
        var record := persistency;
        if persistentArgs && passed.Some? {
          record := record.(data := passed.value);
        }
        e.persistent := Some(record);
      }
      if created.Fail? {
        errors := errors + [created.error];
      }
    }

    /** `createComponentsWithJsonArguments(e, arguments, persistent)`. */
    method CreateComponentsWithJsonArguments(e: Entity, arguments: Table, persistent: bool, created: Outcome)
      returns (passed: Option<Table>)
      modifies e`persistent, this`errors
      ensures passed == ArgumentsFor(Some(arguments), defaultArgs)
      ensures created.Fail? ==> errors == old(errors) + [created.error]
      ensures created.Pass? ==> errors == old(errors)
    {
      passed := CreateComponentsWithLuaArguments(e, Some(arguments), persistent, created);
    }

    /**
     * `createComponents(e, persistent)`: a persistent entity that already has
     * `Persistent` is recreated from its stored data.
     */
    method CreateComponents(e: Entity, persistent: bool, created: Outcome) returns (passed: Option<Table>)
      modifies e`persistent, this`errors
      ensures persistent && old(e.persistent).Some? ==> passed == ArgumentsFor(Some(old(e.persistent).value.data), defaultArgs)
      ensures !(persistent && old(e.persistent).Some?) ==> passed == defaultArgs
      ensures created.Fail? ==> errors == old(errors) + [created.error]
      ensures created.Pass? ==> errors == old(errors)
    {
      if persistent && e.persistent.Some? {
        passed := CreateComponentsWithJsonArguments(e, e.persistent.value.data, true, created);
      } else {
        passed := CreateComponentsWithLuaArguments(e, None, persistent, created);
      }
    }
  }

  /**
   * `setComponent(entity, componentName, component)`: replaces the component
   * of a registered type, or fails naming the unknown type.
   */
  method SetComponent(registered: set<string>, e: Entity, componentName: string, component: Table)
    returns (outcome: Outcome)
    modifies e`components
    ensures outcome == Pass <==> componentName in registered
    ensures outcome.Fail? ==> outcome.error == Components.UnknownComponentError(componentName) && e.components == old(e.components)
    ensures outcome.Pass? ==> e.components == old(e.components)[componentName := component]
  {
    var utils := Components.ComponentUtils(registered, componentName);
    if utils.Err? {
      return Fail(utils.error);
    }
    e.components := e.components[componentName := component];
    return Pass;
  }

  /**
   * `setComponents(entity, componentsTable)`: sets one component per entry,
   * in the table's own (unspecified) order, and stops at the first entry it
   * refuses. Entries met before that one are set.
   */
  method SetComponents(registered: set<string>, e: Entity, componentsTable: Table) returns (outcome: Outcome)
    modifies e`components
    ensures outcome == Pass <==> forall k :: k in componentsTable ==> EntryError(registered, k, componentsTable[k]).None?
    ensures outcome.Fail? ==> exists k :: k in componentsTable && EntryError(registered, k, componentsTable[k]) == Some(outcome.error)
    ensures old(e.components).Keys <= e.components.Keys
    ensures forall n :: n in e.components && (n !in old(e.components) || e.components[n] != old(e.components)[n]) ==>
              Str(n) in componentsTable && EntryError(registered, Str(n), componentsTable[Str(n)]).None? &&
              e.components[n] == TableOf(componentsTable[Str(n)].entries)
    ensures outcome.Pass? ==> forall n :: Str(n) in componentsTable ==>
              GetComponent(registered, e, n) == Ok(Some(TableOf(componentsTable[Str(n)].entries)))
    ensures outcome.Pass? ==> forall n :: n in e.components ==> n in old(e.components) || Str(n) in componentsTable
  {
    var todo := componentsTable.Keys;
    ghost var done: set<Value> := {};
    while todo != {}
      invariant todo + done == componentsTable.Keys && todo !! done
      invariant forall k :: k in done ==> EntryError(registered, k, componentsTable[k]).None?
      invariant old(e.components).Keys <= e.components.Keys
      invariant forall n :: n in e.components ==> n in old(e.components) || Str(n) in done
      invariant forall n :: Str(n) in done ==> n in e.components && e.components[n] == TableOf(componentsTable[Str(n)].entries)
      invariant forall n :: n in e.components && Str(n) !in done ==> e.components[n] == old(e.components)[n]
      decreases todo
    {
      var key :| key in todo;
      var value := componentsTable[key];
      var error := EntryError(registered, key, value);
      if error.Some? {
        return Fail(error.value);
      }
      outcome := SetComponent(registered, e, key.s, TableOf(value.entries));
      todo := todo - {key};
      done := done + {key};
    }
    return Pass;
  }
}
