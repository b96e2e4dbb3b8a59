/**
 The webhook's in-memory limits, by reference.
 */
module LimitRegistry {
  import opened Accounting
  import opened KeysAndNames

  class Registry {
    var limits: map<ResourceRef, Int32>

    constructor ()
      ensures limits == map[]
    {
      limits := map[];
    }

    method Set(ref: ResourceRef, defaultLimit: Int32)
      modifies this
      ensures limits == old(limits)[ref := defaultLimit]
    {
      limits := limits[ref := defaultLimit];
    }

    method Delete(ref: ResourceRef)
      modifies this
      ensures limits == old(limits) - {ref}
    {
      limits := limits - {ref};
    }

    /** The consumer cluster does not matter yet. */
    method LimitFor(cluster: string, ref: ResourceRef) returns (limit: Int32, ok: bool)
      ensures ok <==> ref in limits
      ensures ok ==> limit == limits[ref]
    {
      ok := ref in limits;
      limit := if ok then limits[ref] else 0;
    }

    /** Every reference of that group and resource, each once, in no particular order. */
    method ByGroupResource(group: string, resource: string) returns (out: seq<ResourceRef>)
      ensures forall ref :: ref in out <==> ref in limits && ref.group == group && ref.resource == resource
      ensures forall i, j :: 0 <= i < j < |out| ==> out[i] != out[j]
    {
      out := [];
      var todo := limits.Keys;
      while todo != {}
        invariant todo <= limits.Keys
        invariant forall ref :: ref in out <==>
          ref in limits && ref !in todo && ref.group == group && ref.resource == resource
        invariant forall i, j :: 0 <= i < j < |out| ==> out[i] != out[j]
        decreases todo
      {
        var ref :| ref in todo;
        todo := todo - {ref};
        if ref.group == group && ref.resource == resource {
          out := out + [ref];
        }
      }
    }
  }
}
