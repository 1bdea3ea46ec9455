/** Resource handles: both peers number the resources bound in one direction alike, in order. */
module Resources {
  import opened Orders

  class ResourceMap<R(==)> {
    var nextHandle: nat
    var resources: map<nat, R>

    constructor ()
      ensures Valid() && Bound() == []
    {
      nextHandle := 0;
      resources := map[];
    }

    ghost predicate Valid()
      reads this
    {
      forall h :: h in resources <==> 0 <= h < nextHandle
    }

    /** The resources bound so far, in order of their handles. */
    ghost function Bound(): seq<R>
      requires Valid()
      reads this
    {
      seq(nextHandle, h requires 0 <= h < nextHandle && h in resources reads this => resources[h])
    }

    method Bind(resource: R) returns (handle: nat)
      requires Valid()
      modifies this
      ensures Valid() && handle == |old(Bound())| && Bound() == old(Bound()) + [resource]
    {
      handle := nextHandle;
      nextHandle := nextHandle + 1;
      resources := resources[handle := resource];
    }

    method TryGet(handle: nat) returns (resource: Option<R>)
      requires Valid()
      ensures resource == if handle < |Bound()| then Some(Bound()[handle]) else None
    {
      resource := if handle in resources then Some(resources[handle]) else None;
    }

    method Update(handle: nat, resource: R) returns (ok: bool)
      requires Valid()
      modifies this
      ensures Valid() && (ok <==> handle < |old(Bound())|)
      ensures Bound() == if ok then old(Bound())[handle := resource] else old(Bound())
    {
      ok := handle in resources;
      if ok { resources := resources[handle := resource]; }
    }

    method Find(resource: R) returns (handle: Option<nat>)
      requires Valid()
      ensures handle.Some? ==> handle.value < |Bound()| && Bound()[handle.value] == resource
      ensures handle.None? ==> resource !in Bound()
    {
      var h := 0;
      while h < nextHandle
        invariant 0 <= h <= nextHandle
        invariant forall k :: 0 <= k < h ==> Bound()[k] != resource
      {
        if resources[h] == resource { return Some(h); }
        h := h + 1;
      }
      return None;
    }

    /** Binding the same resource again yields its first handle. */
    method BindIfNew(resource: R) returns (handle: nat, isNew: bool)
      requires Valid()
      modifies this
      ensures Valid() && (isNew <==> resource !in old(Bound()))
      ensures handle < |Bound()| && Bound()[handle] == resource
      ensures Bound() == if isNew then old(Bound()) + [resource] else old(Bound())
    {
      var found := Find(resource);
      if found.Some? { return found.value, false; }
      handle := Bind(resource);
      isNew := true;
    }
  }
}
