/**
  What the generated property does at run time. The containing class is a
  TorchSharp module: its annotated fields, and its registry of submodules
  (`_internal_submodules`), a dictionary from names to modules. The `init`
  accessor stores the value in the field, removes any registration under the
  field's name, and registers the new value under that name.
*/
module Accessor {

  /**
    The registry after the `init` accessor for `key` ran with `value`: `key`
    is registered with `value` and every other registration is kept.
  */
  function Reregistered<V>(registry: map<string, V>, key: string, value: V): (r: map<string, V>)
    ensures key in r && r[key] == value
    ensures r.Keys == registry.Keys + {key}
    ensures forall k :: k in registry && k != key ==> r[k] == registry[k]
  {
    var cleared := if key in registry then registry - {key} else registry;
    cleared[key := value]
  }

  /** Two assignments in a row leave the registration of the second one. */
  lemma ReregisteredTwice<V>(registry: map<string, V>, key: string, first: V, second: V)
    ensures Reregistered(Reregistered(registry, key, first), key, second)
         == Reregistered(registry, key, second)
  {
    var r1 := Reregistered(Reregistered(registry, key, first), key, second);
    var r2 := Reregistered(registry, key, second);
    assert r1.Keys == r2.Keys;
    assert forall k :: k in r1 ==> r1[k] == r2[k];
  }

  /**
    Re-registering adds an entry only for a name not yet registered: the
    registry never holds a stale second entry for the field.
  */
  lemma ReregisteredSize<V>(registry: map<string, V>, key: string, value: V)
    ensures |Reregistered(registry, key, value)| == if key in registry then |registry| else |registry| + 1
  {
    var r := Reregistered(registry, key, value);
    if key in registry {
      assert r.Keys == registry.Keys;
    } else {
      assert r.Keys == registry.Keys + {key};
      assert registry.Keys !! {key};
    }
    assert |r| == |r.Keys| && |registry| == |registry.Keys|;
  }

  /** The accessors of two different fields do not interfere: their order does not matter. */
  lemma ReregisteredCommutes<V>(registry: map<string, V>, k1: string, v1: V, k2: string, v2: V)
    requires k1 != k2
    ensures Reregistered(Reregistered(registry, k1, v1), k2, v2)
         == Reregistered(Reregistered(registry, k2, v2), k1, v1)
  {
    var a := Reregistered(Reregistered(registry, k1, v1), k2, v2);
    var b := Reregistered(Reregistered(registry, k2, v2), k1, v1);
    assert a.Keys == b.Keys;
    assert forall k :: k in a ==> a[k] == b[k];
  }

  /**
    An instance of a class that uses the generator: its annotated fields by
    name, and its submodule registry.
  */
  class Owner<V(==)> {
    var fields: map<string, V>
    var submodules: map<string, V>

    constructor (fields: map<string, V>, submodules: map<string, V>)
      ensures this.fields == fields && this.submodules == submodules
    {
      this.fields := fields;
      this.submodules := submodules;
    }

    /** The field `name` is registered under its own name with its current value. */
    predicate Registered(name: string)
      reads this
    {
      name in fields && name in submodules && submodules[name] == fields[name]
    }

    /**
      `register_module`: adds `submodule` under `name`. The registry rejects a
      name that is already registered, so the caller must remove it first.
    */
    method RegisterModule(name: string, submodule: V)
      requires name !in submodules
      modifies this
      ensures submodules == old(submodules)[name := submodule]
      ensures fields == old(fields)
    {
      submodules := submodules[name := submodule];
    }

    /** The generated getter `get => this.<field>;`. */
    method Get(name: string) returns (value: V)
      requires name in fields
      ensures value == fields[name]
    {
      value := fields[name];
    }

    /**
      The generated `init` accessor for the field `name`: assign the field,
      remove the registration if `ContainsKey` finds one, then register the
      field again. `register_module` is only reached once the name is absent.
    */
    method Init(name: string, value: V)
      requires name in fields
      modifies this
      ensures fields == old(fields)[name := value]
      ensures submodules == Reregistered(old(submodules), name, value)
      ensures Registered(name)
      ensures forall k :: k != name ==> (Registered(k) <==> old(Registered(k)))
    {
      fields := fields[name := value];
      if name in submodules {
        submodules := submodules - {name};
      }
      RegisterModule(name, fields[name]);
    }
  }

  /**
    A field assigned twice: after the first assignment the registry holds the
    first value under the field's name, after the second exactly one entry for
    that name, holding the second value, which the getter then returns.
  */
  method AssignTwice<V(==)>(owner: Owner<V>, name: string, first: V, second: V) returns (got: V)
    requires name in owner.fields
    modifies owner
    ensures owner.fields == old(owner.fields)[name := second]
    ensures owner.submodules == Reregistered(old(owner.submodules), name, second)
    ensures owner.Registered(name) && owner.submodules[name] == second
    ensures got == second
  {
    owner.Init(name, first);
    assert owner.submodules[name] == first;
    owner.Init(name, second);
    ReregisteredTwice(old(owner.submodules), name, first, second);
    got := owner.Get(name);
  }
}
