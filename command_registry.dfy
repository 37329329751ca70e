/** CommandRegistry: the header bar's contextual actions, owned by the
  * component that set them last, and the CommandProvider wrapper that stops
  * forwarding once its component is destroyed. */
module CommandRegistry {
  import opened Basics
  import opened JsValues
  import opened Identified

  /** `{ ...action, ...updates }`. */
  function Spread(action: JsValue, updates: JsValue): (r: JsValue)
    ensures r.Obj?
  {
    Obj(Assign(Entries(action), Entries(updates)))
  }

  /** An action addAction accepts: truthy, with a truthy id and label. */
  predicate Acceptable(action: JsValue) {
    Truthy(action) && Truthy(IdOf(action)) && Truthy(Prop(action, "label"))
  }

  class Registry {
    var actions: seq<JsValue>
    var activeComponent: JsValue

    constructor()
      ensures actions == [] && activeComponent == Null
    {
      actions := [];
      activeComponent := Null;
    }

    /** set: an array replaces the actions, anything else empties them; the
      * owner is recorded either way. */
    method Set(newActions: JsValue, componentId: JsValue)
      modifies this
      ensures actions == (if newActions.Arr? then newActions.items else [])
      ensures activeComponent == componentId
    {
      actions := if newActions.Arr? then newActions.items else [];
      activeComponent := componentId;
    }

    /** clear: only without an id or by the current owner. */
    method Clear(componentId: JsValue)
      modifies this
      ensures !Truthy(componentId) || StrictEquals(old(activeComponent), componentId) ==>
        actions == [] && activeComponent == Null
      ensures Truthy(componentId) && !StrictEquals(old(activeComponent), componentId) ==>
        actions == old(actions) && activeComponent == old(activeComponent)
    {
      if !Truthy(componentId) || StrictEquals(activeComponent, componentId) {
        actions := [];
        activeComponent := Null;
      }
    }

    /** addAction: an acceptable action replaces every action with its id
      * and goes last; anything else is ignored. */
    method AddAction(action: JsValue)
      modifies this
      ensures Acceptable(action) ==> actions == WithoutId(old(actions), IdOf(action)) + [action]
      ensures !Acceptable(action) ==> actions == old(actions)
      ensures activeComponent == old(activeComponent)
    {
      if Acceptable(action) {
        actions := WithoutId(actions, IdOf(action)) + [action];
      }
    }

    /** removeAction. */
    method RemoveAction(actionId: JsValue)
      modifies this
      ensures actions == WithoutId(old(actions), actionId)
      ensures activeComponent == old(activeComponent)
    {
      actions := WithoutId(actions, actionId);
    }

    /** updateAction: the first action with the id gets the updates spread
      * over it; an unknown id changes nothing. */
    method UpdateAction(actionId: JsValue, updates: JsValue)
      modifies this
      ensures FindIndex(old(actions), actionId).None? ==> actions == old(actions)
      ensures FindIndex(old(actions), actionId).Some? ==>
        var i := FindIndex(old(actions), actionId).value;
        actions == old(actions)[i := Spread(old(actions)[i], updates)]
      ensures activeComponent == old(activeComponent)
    {
      var index := FindIndex(actions, actionId);
      if index.Some? {
        actions := actions[index.value := Spread(actions[index.value], updates)];
      }
    }
  }

  /** After addAction of an acceptable action with a primitive id, exactly
    * one action has that id and it is the last one. */
  lemma AddedActionUnique(before: seq<JsValue>, action: JsValue)
    requires Acceptable(action) && !IdOf(action).Arr? && !IdOf(action).Obj?
    ensures var after := WithoutId(before, IdOf(action)) + [action];
      after[|after| - 1] == action &&
      StrictEquals(IdOf(after[|after| - 1]), IdOf(action)) &&
      forall k :: 0 <= k < |after| - 1 ==> !StrictEquals(IdOf(after[k]), IdOf(action))
  {
    StrictEqualsReflexive(IdOf(action));
  }

  /** After removeAction no action has the id, and every other action is
    * still there. */
  lemma RemovedActionGone(before: seq<JsValue>, actionId: JsValue)
    ensures !HasId(WithoutId(before, actionId), actionId)
    ensures forall a :: a in before && !StrictEquals(IdOf(a), actionId) ==> a in WithoutId(before, actionId)
  {
    forall a | a in before && !StrictEquals(IdOf(a), actionId) ensures a in WithoutId(before, actionId) {
      WithoutIdKeeps(before, actionId, a);
    }
  }

  /** updateAction leaves the length and every other entry as they were;
    * the updated entry takes each key from the updates when they have it and
    * keeps its own value otherwise. */
  lemma UpdateTouchesOne(before: seq<JsValue>, actionId: JsValue, updates: JsValue, key: string)
    requires FindIndex(before, actionId).Some?
    requires UniqueKeys(Entries(updates))
    ensures var i := FindIndex(before, actionId).value;
      var after := before[i := Spread(before[i], updates)];
      |after| == |before| && (forall k :: 0 <= k < |before| && k != i ==> after[k] == before[k]) &&
      Get(after[i].fields, key) ==
        if key in Keys(Entries(updates)) then Get(Entries(updates), key) else Get(Entries(before[i]), key)
  {
    var i := FindIndex(before, actionId).value;
    AssignGet(Entries(before[i]), Entries(updates), key);
  }

  /** A component's handle on the shared registry. */
  class Provider {
    const componentId: JsValue
    const registry: Registry
    var isDestroyed: bool

    constructor(componentId: JsValue, registry: Registry)
      ensures this.componentId == componentId && this.registry == registry && !isDestroyed
    {
      this.componentId := componentId;
      this.registry := registry;
      isDestroyed := false;
    }

    /** destroy: clears the registry on behalf of the component, once. */
    method Destroy()
      modifies this, registry
      ensures isDestroyed
      ensures old(isDestroyed) ==>
        registry.actions == old(registry.actions) && registry.activeComponent == old(registry.activeComponent)
      ensures !old(isDestroyed) && (!Truthy(componentId) || StrictEquals(old(registry.activeComponent), componentId)) ==>
        registry.actions == [] && registry.activeComponent == Null
      ensures Truthy(componentId) && !StrictEquals(old(registry.activeComponent), componentId) ==>
        registry.actions == old(registry.actions) && registry.activeComponent == old(registry.activeComponent)
    {
      if !isDestroyed {
        registry.Clear(componentId);
        isDestroyed := true;
      }
    }

    method Set(actions: JsValue)
      modifies registry
      ensures isDestroyed ==>
        registry.actions == old(registry.actions) && registry.activeComponent == old(registry.activeComponent)
      ensures !isDestroyed ==>
        registry.actions == (if actions.Arr? then actions.items else []) && registry.activeComponent == componentId
    {
      if !isDestroyed {
        registry.Set(actions, componentId);
      }
    }

    method AddAction(action: JsValue)
      modifies registry
      ensures isDestroyed || !Acceptable(action) ==> registry.actions == old(registry.actions)
      ensures !isDestroyed && Acceptable(action) ==>
        registry.actions == WithoutId(old(registry.actions), IdOf(action)) + [action]
      ensures registry.activeComponent == old(registry.activeComponent)
    {
      if !isDestroyed {
        registry.AddAction(action);
      }
    }

    method RemoveAction(actionId: JsValue)
      modifies registry
      ensures isDestroyed ==> registry.actions == old(registry.actions)
      ensures !isDestroyed ==> registry.actions == WithoutId(old(registry.actions), actionId)
      ensures registry.activeComponent == old(registry.activeComponent)
    {
      if !isDestroyed {
        registry.RemoveAction(actionId);
      }
    }

    method UpdateAction(actionId: JsValue, updates: JsValue)
      modifies registry
      ensures isDestroyed || FindIndex(old(registry.actions), actionId).None? ==>
        registry.actions == old(registry.actions)
      ensures !isDestroyed && FindIndex(old(registry.actions), actionId).Some? ==>
        var i := FindIndex(old(registry.actions), actionId).value;
        registry.actions == old(registry.actions)[i := Spread(old(registry.actions)[i], updates)]
      ensures registry.activeComponent == old(registry.activeComponent)
    {
      if !isDestroyed {
        registry.UpdateAction(actionId, updates);
      }
    }
  }
}
