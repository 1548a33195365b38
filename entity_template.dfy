/**
 * Lua entity templates of the entity engine: the `persistenceMode` flags a
 * template script sets, the default arguments it declares, and what creating
 * an entity from the template records on the entity (the `LuaScripted` and
 * `Persistent` components). The script's own `create` function is opaque:
 * only whether it succeeded, and whether it removed `Persistent`, is given.
 */
module EntityTemplates {
  import opened Wrappers
  import opened LuaTables
  import Components

  /** Flags of `persistenceMode(mode, componentsToSave)`. */
  const Template: bv32 := 1
  const Args: bv32 := 2
  const FinalPos: bv32 := 4
  const SpawnPos: bv32 := 8
  const AllComponents: bv32 := 16
  const Revive: bv32 := 32

  /** The mode a template starts with, before its script changes it. */
  const InitialMode: bv32 := Template | Args | FinalPos

  /** The key under which an entity's save-game id travels in its arguments. */
  const SaveGameEntityId: Value := Str("saveGameEntityID")

  datatype Position = Position(x: real, y: real, z: real)

  /** The `Persistent` component: how an entity is saved and restored. */
  datatype Persistent = Persistent(
    applyTemplateOnLoad: string,
    saveFinalPosition: bool,
    saveSpawnPosition: bool,
    saveAllComponents: bool,
    revive: bool,
    saveComponents: seq<string>,
    data: Table,
    spawnPosition: Option<Position>)

  /** A default-constructed `Persistent`. */
  const NotPersistent := Persistent("", false, false, false, false, [], map[], None)

  /** Save data of the entity in the save game, chosen by its id. */
  datatype SaveData = SaveData(entityId: string, temporary: bool)

  /** The `LuaScripted` component, as far as template creation touches it. */
  datatype LuaScripted = LuaScripted(usedTemplate: string, saveData: Option<SaveData>)

  /**
   * The record `persistenceMode(mode, componentsToSave)` installs: a fresh
   * `Persistent` in which each flag of `mode` sets its own field.
   */
  function PersistencyFor(name: string, mode: bv32, componentsToSave: Option<seq<string>>): (p: Persistent)
    ensures p.data == map[] && p.spawnPosition == None
  {
    NotPersistent.(
      applyTemplateOnLoad := if mode & Template != 0 then name else "",
      saveFinalPosition := mode & FinalPos != 0,
      saveSpawnPosition := mode & SpawnPos != 0,
      saveAllComponents := mode & AllComponents != 0,
      revive := mode & Revive != 0,
      saveComponents := if componentsToSave.Some? then componentsToSave.value else [])
  }

  /** Reads the mode back out of a record and the `persistentArgs` flag. */
  function ModeOf(p: Persistent, persistentArgs: bool): (mode: bv32)
    ensures mode & !63 == 0
  {
    (if p.applyTemplateOnLoad != "" then Template else 0)
    | (if persistentArgs then Args else 0)
    | (if p.saveFinalPosition then FinalPos else 0)
    | (if p.saveSpawnPosition then SpawnPos else 0)
    | (if p.saveAllComponents then AllComponents else 0)
    | (if p.revive then Revive else 0)
  }

  /**
   * Each of the six flags survives `persistenceMode`: reading the mode back
   * gives its six low bits, whatever else was set in it, and TEMPLATE makes
   * the record re-apply this very template on load.
   */
  lemma ModeRoundTrip(name: string, mode: bv32, componentsToSave: Option<seq<string>>)
    requires name != ""
    ensures ModeOf(PersistencyFor(name, mode, componentsToSave), mode & Args != 0) == mode & 63
    ensures PersistencyFor(name, mode, componentsToSave).applyTemplateOnLoad ==
              if mode & Template != 0 then name else ""
  {
    var p := PersistencyFor(name, mode, componentsToSave);
    assert mode & 63 == (mode & Template) | (mode & Args) | (mode & FinalPos)
                        | (mode & SpawnPos) | (mode & AllComponents) | (mode & Revive);
  }

  /** Bits above the six flags make no difference. */
  lemma ModeIgnoresHigherBits(name: string, mode: bv32, componentsToSave: Option<seq<string>>)
    ensures PersistencyFor(name, mode, componentsToSave) == PersistencyFor(name, mode & 63, componentsToSave)
  {
  }

  /**
   * `getUniqueID()`: the template name, an underscore and a random string of
   * 24 characters.
   */
  function UniqueId(name: string, random: string): (id: string)
    requires |random| == 24
    ensures |id| == |name| + 25
    ensures id[..|name|] == name && id[|name|] == '_' && id[|name| + 1..] == random
  {
    name + "_" + random
  }

  /** Different random strings give different ids. */
  lemma UniqueIdInjective(name: string, r1: string, r2: string)
    requires |r1| == 24 && |r2| == 24
    ensures UniqueId(name, r1) == UniqueId(name, r2) <==> r1 == r2
  {
    if UniqueId(name, r1) == UniqueId(name, r2) {
      assert r1 == UniqueId(name, r1)[|name| + 1..];
    }
  }

  /**
   * The arguments handed to `create`: the caller's table with every missing
   * default filled in, or the defaults themselves when there is none.
   */
  function ArgumentsFor(arguments: Option<Table>, defaults: Table): (passed: Table)
    ensures arguments.None? ==> passed == defaults
    ensures arguments.Some? ==> passed.Keys == arguments.value.Keys + defaults.Keys
    ensures arguments.Some? ==> forall k :: k in arguments.value ==> passed[k] == arguments.value[k]
    ensures forall k :: k in passed && (arguments.None? || k !in arguments.value) ==> passed[k] == defaults[k]
  {
    if arguments.Some? then WithDefaults(arguments.value, defaults) else defaults
  }

  /** The save-game id: the `saveGameEntityID` argument when it is a string. */
  function SaveId(arguments: Table, uniqueId: string): (id: string)
    ensures Get(arguments, SaveGameEntityId).Str? ==> id == Get(arguments, SaveGameEntityId).s
    ensures !Get(arguments, SaveGameEntityId).Str? ==> id == uniqueId
  {
    match Get(arguments, SaveGameEntityId)
    case Str(s) => s
    case _ => uniqueId
  }

  /**
   * The data a persistent entity keeps: its arguments when the template saves
   * arguments, and the save-game id when one was chosen during this creation.
   */
  function RecordedData(passed: Table, persistentArgs: bool, id: string): (data: Table)
    ensures id != "" ==> Get(data, SaveGameEntityId) == Str(id)
    ensures forall k :: k in data && k != SaveGameEntityId ==> persistentArgs && k in passed && data[k] == passed[k]
    ensures persistentArgs ==> forall k :: k in passed && k != SaveGameEntityId ==> k in data
  {
    var kept: Table := if persistentArgs then passed else map[];
    if id != "" then kept[SaveGameEntityId := Str(id)] else kept
  }

  /**
   * Recreating from the recorded data finds the same save-game id again,
   * whatever the template's defaults are by then.
   */
  lemma RecreatedKeepsSaveId(passed: Table, persistentArgs: bool, id: string, defaults: Table, uniqueId: string)
    requires id != ""
    ensures SaveId(ArgumentsFor(Some(RecordedData(passed, persistentArgs, id)), defaults), uniqueId) == id
  {
    var data := RecordedData(passed, persistentArgs, id);
    assert Get(data, SaveGameEntityId) == Str(id);
    assert ArgumentsFor(Some(data), defaults)[SaveGameEntityId] == Str(id);
  }

  /**
   * With saved arguments, recreating passes every argument of the first
   * creation again, under the same key and with the same value.
   */
  lemma RecreatedKeepsArguments(passed: Table, id: string, defaults: Table)
    ensures var again := ArgumentsFor(Some(RecordedData(passed, true, id)), defaults);
            forall k :: k in passed && k != SaveGameEntityId ==> k in again && again[k] == passed[k]
  {
  }

  /** Whether the entity already has valid save data. */
  predicate HasSaveData(scripted: Option<LuaScripted>)
  {
    scripted.Some? && scripted.value.saveData.Some?
  }

  class Entity {
    var scripted: Option<LuaScripted>
    var persistent: Option<Persistent>

    constructor ()
      ensures scripted == None && persistent == None
    {
      scripted := None;
      persistent := None;
    }
  }

  /** What the script's `create` function did. */
  datatype CreateOutcome =
    | Created(removedPersistent: bool)
    | CreateFailed(message: string)

  class LuaEntityTemplate {
    const name: string
    var defaultArgs: Table
    var persistency: Persistent
    var persistentArgs: bool
    /** Errors reported while creating entities. */
    var errors: seq<string>

    /** The state before the template's script runs. */
    constructor (name: string)
      ensures this.name == name && defaultArgs == map[] && errors == []
      ensures persistency == PersistencyFor(name, InitialMode, None)
      ensures persistentArgs
    {
      this.name := name;
      defaultArgs := map[];
      persistency := PersistencyFor(name, InitialMode, None);
      persistentArgs := true;
      errors := [];
    }

    /**
     * `persistenceMode(mode, componentsToSave)`: installs a fresh record for
     * `mode`, then fails on the first component to save that is not a
     * registered type (the record stays installed).
     */
    method SetPersistentMode(mode: bv32, componentsToSave: Option<seq<string>>, registered: set<string>)
      returns (outcome: Outcome)
      modifies this`persistency, this`persistentArgs
      ensures persistency == PersistencyFor(name, mode, componentsToSave)
      ensures persistentArgs <==> mode & Args != 0
      ensures outcome == Pass <==>
                componentsToSave.None? || forall j :: 0 <= j < |componentsToSave.value| ==> componentsToSave.value[j] in registered
      ensures outcome.Fail? ==>
                componentsToSave.Some? &&
                var i := Components.FirstUnknown(componentsToSave.value, registered);
                i < |componentsToSave.value| && outcome.error == Components.UnknownComponentError(componentsToSave.value[i])
    {
      persistency := PersistencyFor(name, mode, componentsToSave);
      persistentArgs := mode & Args != 0;
      outcome := Pass;
      if componentsToSave.Some? {
        outcome := Components.CheckComponents(persistency.saveComponents, registered);
      }
    }

    /** `defaultArgs(table)`. */
    method SetDefaultArgs(table: Table)
      modifies this`defaultArgs
      ensures defaultArgs == table
    {
      defaultArgs := table;
    }

    /** The default-argument step: fills the caller's table in place, or takes the defaults. */
    method MergeArguments(arguments: Option<Table>) returns (passed: Table)
      ensures passed == ArgumentsFor(arguments, defaultArgs)
    {
      if arguments.Some? {
        passed := FillDefaults(arguments.value, defaultArgs);
      } else {
        passed := defaultArgs;
      }
    }

    /**
     * `createComponentsWithLuaArguments(e, arguments, persistent)`. `random`
     * stands for the 24 random characters of a fresh unique id, `created` for
     * the outcome of the script's `create`, `position` for the entity's
     * position afterwards. Returns the arguments `create` received.
     */
    method CreateComponentsWithLuaArguments(e: Entity, arguments: Option<Table>, persistent: bool,
                                            random: string, created: CreateOutcome, position: Position)
      returns (passed: Table)
      requires |random| == 24
      modifies e, this`errors
      ensures passed == ArgumentsFor(arguments, defaultArgs)
      ensures e.scripted.Some? && e.scripted.value.usedTemplate == name
      ensures HasSaveData(old(e.scripted)) ==> e.scripted.value.saveData == old(e.scripted).value.saveData
      ensures !HasSaveData(old(e.scripted)) ==>
                e.scripted.value.saveData == Some(SaveData(SaveId(passed, UniqueId(name, random)), !persistent))
      ensures !persistent ==> e.persistent == old(e.persistent)
      ensures persistent && created.Created? && created.removedPersistent ==> e.persistent == None
      ensures persistent && !(created.Created? && created.removedPersistent) ==>
                var id := if HasSaveData(old(e.scripted)) then "" else SaveId(passed, UniqueId(name, random));
                e.persistent == Some(persistency.(
                  data := RecordedData(passed, persistentArgs, id),
                  spawnPosition := if created.Created? then Some(position) else persistency.spawnPosition))
      ensures created.CreateFailed? ==> errors == old(errors) + [created.message]
      ensures created.Created? ==> errors == old(errors)
    {
      passed := MergeArguments(arguments);

      var scripted := if e.scripted.Some? then e.scripted.value else LuaScripted("", None);
      var id := "";
      if scripted.saveData.None? {
        id := SaveId(passed, UniqueId(name, random));
        scripted := scripted.(saveData := Some(SaveData(id, !persistent)));
      }
      e.scripted := Some(scripted.(usedTemplate := name));

      if persistent {
        var record := persistency.(data := RecordedData(passed, persistentArgs, id));
        if created.CreateFailed? {
          e.persistent := Some(record);
        } else if created.removedPersistent {
          e.persistent := None;
        } else {
          e.persistent := Some(record.(spawnPosition := Some(position)));
        }
      }
      if created.CreateFailed? {
        errors := errors + [created.message];
      }
    }

    /** `createComponentsWithJsonArguments(e, arguments, persistent)`. */
    method CreateComponentsWithJsonArguments(e: Entity, arguments: Table, persistent: bool,
                                             random: string, created: CreateOutcome, position: Position)
      returns (passed: Table)
      requires |random| == 24
      modifies e, this`errors
      ensures passed == WithDefaults(arguments, defaultArgs)
      ensures e.scripted.Some? && e.scripted.value.usedTemplate == name
      ensures errors == old(errors) + (if created.CreateFailed? then [created.message] else [])
    {
      passed := CreateComponentsWithLuaArguments(e, Some(arguments), persistent, random, created, position);
    }

    /**
     * `createComponents(e, persistent)`: a persistent entity that already has
     * `Persistent` is recreated from its stored data, any other entity from
     * the defaults alone.
     */
    method CreateComponents(e: Entity, persistent: bool, random: string, created: CreateOutcome, position: Position)
      returns (passed: Table)
      requires |random| == 24
      modifies e, this`errors
      ensures persistent && old(e.persistent).Some? ==> passed == WithDefaults(old(e.persistent).value.data, defaultArgs)
      ensures !(persistent && old(e.persistent).Some?) ==> passed == defaultArgs
      ensures e.scripted.Some? && e.scripted.value.usedTemplate == name
      ensures errors == old(errors) + (if created.CreateFailed? then [created.message] else [])
    {
      if persistent && e.persistent.Some? {
        passed := CreateComponentsWithJsonArguments(e, e.persistent.value.data, true, random, created, position);
      } else {
        passed := CreateComponentsWithLuaArguments(e, None, persistent, random, created, position);
      }
    }
  }
}
