/** `VerbosityRegistry`: three string-keyed last-write-wins registers (singletons
    by class name, named components, callbacks) and a register of named callback
    groups. */
module Registry {
  import opened Wrappers

  /** `callbacks.filter(element => element != callback)`: the list without any
      element equal to `callback`, the others in their original order. */
  function RemoveAll<C(==)>(callbacks: seq<C>, callback: C): (r: seq<C>)
    ensures callback !in r
    ensures forall x :: x in r ==> x in callbacks
    ensures forall x :: x in callbacks && x != callback ==> multiset(r)[x] == multiset(callbacks)[x]
    ensures |r| <= |callbacks|
  {
    if callbacks == [] then []
    else
      assert callbacks == [callbacks[0]] + callbacks[1..];
      (if callbacks[0] != callback then [callbacks[0]] else []) + RemoveAll(callbacks[1..], callback)
  }

  /** Removal works element by element, so it keeps the relative order of what remains. */
  lemma {:induction false} RemoveAllAppend<C>(a: seq<C>, b: seq<C>, callback: C)
    ensures RemoveAll(a + b, callback) == RemoveAll(a, callback) + RemoveAll(b, callback)
  {
    if a == [] {
      assert a + b == b;
    } else {
      assert (a + b)[0] == a[0];
      assert (a + b)[1..] == a[1..] + b;
      RemoveAllAppend(a[1..], b, callback);
    }
  }

  /** Removing a callback the list does not hold leaves the list as it is, so a
      second removal of the same callback changes nothing. */
  lemma {:induction false} RemoveAllAbsent<C>(callbacks: seq<C>, callback: C)
    requires callback !in callbacks
    ensures RemoveAll(callbacks, callback) == callbacks
  {
    if callbacks != [] {
      assert callbacks[0] in callbacks;
      assert forall x :: x in callbacks[1..] ==> x in callbacks;
      RemoveAllAbsent(callbacks[1..], callback);
      assert callbacks == [callbacks[0]] + callbacks[1..];
    }
  }

  /** Removing a callback twice is the same as removing it once. */
  lemma RemoveAllIdempotent<C>(callbacks: seq<C>, callback: C)
    ensures RemoveAll(RemoveAll(callbacks, callback), callback) == RemoveAll(callbacks, callback)
  {
    RemoveAllAbsent(RemoveAll(callbacks, callback), callback);
  }

  /** Registering then unregistering a callback the group did not hold gives the
      group back as it was. */
  lemma RemoveAllUndoesAppend<C>(callbacks: seq<C>, callback: C)
    requires callback !in callbacks
    ensures RemoveAll(callbacks + [callback], callback) == callbacks
  {
    RemoveAllAppend(callbacks, [callback], callback);
    RemoveAllAbsent(callbacks, callback);
    assert RemoveAll([callback], callback) == [] + RemoveAll([callback][1..], callback);
  }

  /** The error `unregisterWithCallbackGroup` throws. */
  datatype RegistryError = GroupDoesNotExist(group: string)

  /** The registry. A singleton is keyed by the name of its class, which the
      caller supplies (`registerSingleton` reads `constructor.name`). */
  class VerbosityRegistry<Component, Callback(==)> {
    var callbackRegister: map<string, Callback>
    var callbackGroupRegister: map<string, seq<Callback>>
    var singletonRegistry: map<string, Component>
    var namedRegistry: map<string, Component>

    /** All four registers empty. */
    constructor ()
      ensures callbackRegister == map[] && callbackGroupRegister == map[]
      ensures singletonRegistry == map[] && namedRegistry == map[]
      ensures forall k :: GetSingleton(k) == None && GetNamedComponent(k) == None
      ensures forall k :: GetCallback(k) == None && GetCallbackGroup(k) == []
    {
      singletonRegistry := map[];
      namedRegistry := map[];
      callbackRegister := map[];
      callbackGroupRegister := map[];
    }

    /** `getSingleton(clazz)`: absent (`undefined`) unless registered. */
    function GetSingleton(className: string): Option<Component>
      reads this
    {
      if className in singletonRegistry then Some(singletonRegistry[className]) else None
    }

    /** `getNamedComponent(key)`: absent (`undefined`) unless registered. */
    function GetNamedComponent(key: string): Option<Component>
      reads this
    {
      if key in namedRegistry then Some(namedRegistry[key]) else None
    }

    /** `getCallback(key)`: absent (`undefined`) unless registered. */
    function GetCallback(key: string): Option<Callback>
      reads this
    {
      if key in callbackRegister then Some(callbackRegister[key]) else None
    }

    /** `getCallbackGroup(group)`: the stored list, or `[]` for a group never created. */
    function GetCallbackGroup(group: string): seq<Callback>
      reads this
    {
      if group in callbackGroupRegister then callbackGroupRegister[group] else []
    }

    /** `registerSingleton(component)`: the component becomes the singleton of its
        class name, replacing any earlier one; nothing else changes. */
    method RegisterSingleton(className: string, component: Component)
      modifies this
      ensures singletonRegistry == old(singletonRegistry)[className := component]
      ensures GetSingleton(className) == Some(component)
      ensures forall k :: k != className ==> GetSingleton(k) == old(GetSingleton(k))
      ensures namedRegistry == old(namedRegistry) && callbackRegister == old(callbackRegister)
      ensures callbackGroupRegister == old(callbackGroupRegister)
    {
      singletonRegistry := singletonRegistry[className := component];
    }

    /** `registerNamedComponent(key, component)`: last write wins; no other key's
        lookup changes. */
    method RegisterNamedComponent(key: string, component: Component)
      modifies this
      ensures namedRegistry == old(namedRegistry)[key := component]
      ensures GetNamedComponent(key) == Some(component)
      ensures forall k :: k != key ==> GetNamedComponent(k) == old(GetNamedComponent(k))
      ensures singletonRegistry == old(singletonRegistry) && callbackRegister == old(callbackRegister)
      ensures callbackGroupRegister == old(callbackGroupRegister)
    {
      namedRegistry := namedRegistry[key := component];
    }

    /** `registerCallback(key, callback)`: last write wins; no other key's lookup changes. */
    method RegisterCallback(key: string, callback: Callback)
      modifies this
      ensures callbackRegister == old(callbackRegister)[key := callback]
      ensures GetCallback(key) == Some(callback)
      ensures forall k :: k != key ==> GetCallback(k) == old(GetCallback(k))
      ensures singletonRegistry == old(singletonRegistry) && namedRegistry == old(namedRegistry)
      ensures callbackGroupRegister == old(callbackGroupRegister)
    {
      callbackRegister := callbackRegister[key := callback];
    }

    /** `registerWithCallbackGroup(group, callback)`: creates the group empty if
        needed, then appends the callback at the end; other groups are untouched. */
    method RegisterWithCallbackGroup(group: string, callback: Callback)
      modifies this
      ensures group in callbackGroupRegister
      ensures GetCallbackGroup(group) == old(GetCallbackGroup(group)) + [callback]
      ensures callbackGroupRegister == old(callbackGroupRegister)[group := old(GetCallbackGroup(group)) + [callback]]
      ensures forall g :: g != group ==> GetCallbackGroup(g) == old(GetCallbackGroup(g))
      ensures singletonRegistry == old(singletonRegistry) && namedRegistry == old(namedRegistry)
      ensures callbackRegister == old(callbackRegister)
    {
      if group !in callbackGroupRegister {
        callbackGroupRegister := callbackGroupRegister[group := []];
      }
      var callbacks := callbackGroupRegister[group];
      callbackGroupRegister := callbackGroupRegister[group := callbacks + [callback]];
    }

    /** `unregisterWithCallbackGroup(group, callback)`: throws, changing nothing,
        for a group never created; otherwise the group loses every element equal
        to the callback and keeps the rest in order; other groups are untouched. */
    method UnregisterWithCallbackGroup(group: string, callback: Callback)
      returns (r: Result<(), RegistryError>)
      modifies this
      ensures group !in old(callbackGroupRegister) <==> r == Err(GroupDoesNotExist(group))
      ensures r.Err? ==> callbackGroupRegister == old(callbackGroupRegister)
      ensures r.Ok? ==> callbackGroupRegister == old(callbackGroupRegister)[group := RemoveAll(old(callbackGroupRegister)[group], callback)]
      ensures r.Ok? ==> callback !in GetCallbackGroup(group)
      ensures forall g :: g != group ==> GetCallbackGroup(g) == old(GetCallbackGroup(g))
      ensures singletonRegistry == old(singletonRegistry) && namedRegistry == old(namedRegistry)
      ensures callbackRegister == old(callbackRegister)
    {
      if group !in callbackGroupRegister {
        return Err(GroupDoesNotExist(group));
      }
      var callbacks := callbackGroupRegister[group];
      callbackGroupRegister := callbackGroupRegister[group := RemoveAll(callbacks, callback)];
      r := Ok(());
    }
  }
}
