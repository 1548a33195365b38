/**
 * Look-up of component types by name, as the entity templates use it when a
 * script names a component. The set of registered component types is fixed
 * at start-up and is given here as a set of names.
 */
module Components {
  import opened Wrappers

  /** The error raised for a component type that is not registered. */
  function UnknownComponentError(name: string): (message: string)
    ensures |message| == |name| + 39
    ensures message[22..22 + |name|] == name
  {
    "Component-type named '" + name + "' does not exist!"
  }

  /**
   * `componentUtils(name)`: the utilities of a registered component type, or
   * the error that names the missing type.
   */
  function ComponentUtils(registered: set<string>, name: string): (r: Result<string>)
    ensures r.Ok? <==> name in registered
    ensures r.Ok? ==> r.value == name
    ensures r.Err? ==> r.error == UnknownComponentError(name)
  {
    if name in registered then Ok(name) else Err(UnknownComponentError(name))
  }

  /** Index of the first name that is not a registered component type. */
  function FirstUnknown(names: seq<string>, registered: set<string>): (i: nat)
    ensures i <= |names|
    ensures forall j :: 0 <= j < i ==> names[j] in registered
    ensures i < |names| ==> names[i] !in registered
    decreases |names|
  {
    if names == [] then 0
    else if names[0] !in registered then 0
    else 1 + FirstUnknown(names[1..], registered)
  }

  /**
   * The loop of `persistenceMode` that looks up every component to save:
   * the first unknown name stops it with that name's error.
   */
  method CheckComponents(names: seq<string>, registered: set<string>) returns (outcome: Outcome)
    ensures outcome == Pass <==> forall j :: 0 <= j < |names| ==> names[j] in registered
    ensures outcome.Fail? ==>
              var i := FirstUnknown(names, registered);
              i < |names| && outcome.error == UnknownComponentError(names[i])
  {
    for i := 0 to |names|
      invariant forall j :: 0 <= j < i ==> names[j] in registered
    {
      var utils := ComponentUtils(registered, names[i]);
      if utils.Err? {
        FirstUnknownIs(names, registered, i);
        return Fail(utils.error);
      }
    }
    return Pass;
  }

  /** The first unknown name is the one a scan from the front meets first. */
  lemma {:induction false} FirstUnknownIs(names: seq<string>, registered: set<string>, i: nat)
    requires i < |names| && names[i] !in registered
    requires forall j :: 0 <= j < i ==> names[j] in registered
    ensures FirstUnknown(names, registered) == i
    decreases i
  {
    if i > 0 {
      assert names[0] in registered;
      FirstUnknownIs(names[1..], registered, i - 1);
    }
  }
}
