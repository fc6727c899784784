/** The grip-events component cache extender. When an entity's array of
    grip-event components is registered, each component is cached as
    belonging to that entity; when it is unregistered, each component is
    dropped from the cache. The cache is a finite map from component to
    entity. Its `Add` is modelled as a map update that overwrites an existing
    key; its `Remove` is a key removal that does nothing for an absent key.
 */
module SimpleGripEventsExtender {

  /** The cache's `Add`: `component` now maps to `entity`. */
  function Add<C, E>(cache: map<C, E>, component: C, entity: E): (r: map<C, E>)
    ensures r.Keys == cache.Keys + {component} && r[component] == entity
    ensures forall k :: k in cache && k != component ==> r[k] == cache[k]
  {
    cache[component := entity]
  }

  /** The cache's `Remove`: `component` is no longer a key. */
  function Remove<C, E>(cache: map<C, E>, component: C): (r: map<C, E>)
    ensures r.Keys == cache.Keys - {component}
    ensures forall k :: k in r ==> r[k] == cache[k]
  {
    cache - {component}
  }

  /** Registers `components` for `entity`, adding them one by one in array
      order. Afterwards every registered component maps to `entity`, and
      every other key keeps its previous mapping. */
  function OnRegister<C, E>(cache: map<C, E>, entity: E, components: seq<C>): (r: map<C, E>)
    ensures r.Keys == cache.Keys + set c | c in components
    ensures forall c :: c in components ==> r[c] == entity
    ensures forall k :: k in cache && k !in components ==> r[k] == cache[k]
    decreases |components|
  {
    if |components| == 0 then
      cache
    else
      OnRegister(Add(cache, components[0], entity), entity, components[1..])
  }

  /** Unregisters `components`, removing them one by one by key. The entity
      argument takes no part. Afterwards no removed component is a key, and
      every key that remains keeps its previous mapping. */
  function OnUnregister<C, E>(cache: map<C, E>, entity: E, components: seq<C>): (r: map<C, E>)
    ensures r.Keys == cache.Keys - set c | c in components
    ensures forall k :: k in r ==> r[k] == cache[k]
    decreases |components|
  {
    if |components| == 0 then
      cache
    else
      OnUnregister(Remove(cache, components[0]), entity, components[1..])
  }

  // ---------------------------------------------------------------------
  // Reference definitions: the whole-array effect as one map operation.
  // ---------------------------------------------------------------------

  /** Registering is a map override by the constant map from the
      registered components to the entity. */
  lemma OnRegisterIsOverride<C, E>(cache: map<C, E>, entity: E, components: seq<C>)
    ensures OnRegister(cache, entity, components)
         == cache + map c | c in components :: entity
  {
    var r := OnRegister(cache, entity, components);
    var added := map c | c in components :: entity;
    var m := cache + added;
    assert m.Keys == r.Keys;
    forall k | k in m
      ensures m[k] == r[k]
    {
      if k in components {
        assert k in added;
      }
    }
  }

  /** Unregistering is the removal of the unregistered components' keys. */
  lemma {:induction false} OnUnregisterIsKeyRemoval<C, E>(cache: map<C, E>, entity: E, components: seq<C>)
    ensures OnUnregister(cache, entity, components) == cache - set c | c in components
    decreases |components|
  {
    if |components| > 0 {
      var c0, tail := components[0], components[1..];
      OnUnregisterIsKeyRemoval(Remove(cache, c0), entity, tail);
      assert forall c :: c in components <==> c == c0 || c in tail;
      assert Remove(cache, c0) - (set c | c in tail) == cache - (set c | c in components);
    }
  }

  // ---------------------------------------------------------------------
  // Properties relating the two operations.
  // ---------------------------------------------------------------------

  /** Unregistering looks at component keys only: which entity is passed
      makes no difference. */
  lemma OnUnregisterIgnoresEntity<C, E>(cache: map<C, E>, entity1: E, entity2: E, components: seq<C>)
    ensures OnUnregister(cache, entity1, components) == OnUnregister(cache, entity2, components)
  {
    OnUnregisterIsKeyRemoval(cache, entity1, components);
    OnUnregisterIsKeyRemoval(cache, entity2, components);
  }

  /** Registering components that were not cached and then unregistering
      them restores the original cache. */
  lemma RegisterThenUnregister<C, E>(cache: map<C, E>, entity: E, components: seq<C>)
    requires forall c :: c in components ==> c !in cache
    ensures OnUnregister(OnRegister(cache, entity, components), entity, components) == cache
  {
    var registered := OnRegister(cache, entity, components);
    var r := OnUnregister(registered, entity, components);
    assert r.Keys == cache.Keys;
    assert forall k :: k in r ==> r[k] == cache[k];
  }

  /** An empty component array changes nothing, registered or unregistered. */
  lemma EmptyArrayLeavesCache<C, E>(cache: map<C, E>, entity: E)
    ensures OnRegister(cache, entity, []) == cache
    ensures OnUnregister(cache, entity, []) == cache
  {
  }

  /** Registering an array is registering its two halves in turn: the
      per-element loop has no effect beyond the elements it visits. */
  lemma {:induction false} OnRegisterAppend<C, E>(cache: map<C, E>, entity: E, front: seq<C>, back: seq<C>)
    ensures OnRegister(cache, entity, front + back)
         == OnRegister(OnRegister(cache, entity, front), entity, back)
    decreases |front|
  {
    if |front| > 0 {
      assert (front + back)[1..] == front[1..] + back;
      OnRegisterAppend(Add(cache, front[0], entity), entity, front[1..], back);
    }
  }

  /** Unregistering an array is unregistering its two halves in turn. */
  lemma {:induction false} OnUnregisterAppend<C, E>(cache: map<C, E>, entity: E, front: seq<C>, back: seq<C>)
    ensures OnUnregister(cache, entity, front + back)
         == OnUnregister(OnUnregister(cache, entity, front), entity, back)
    decreases |front|
  {
    if |front| > 0 {
      assert (front + back)[1..] == front[1..] + back;
      OnUnregisterAppend(Remove(cache, front[0]), entity, front[1..], back);
    }
  }
}
