/**
 The path of one CREATE request: the dispatcher finds the validator of the request's URL, the validator
 finds the limit, picks the reservation key and reserves. Every way out that is not a reservation
 refuses.
 */
module Admission {
  import opened Accounting
  import opened KeysAndNames
  import opened LimitRegistry
  import opened QuotaStore
  import WebhookEntries

  /** cluster is what the object's kcp.io/cluster annotation says, empty when it is missing. */
  datatype Request = Request(create: bool, cluster: string, namespace: string, name: string, uid: string)

  datatype Response = Allowed | Denied | Errored(code: nat)

  /** The reservation seam: the closure of SetResource keeps the reference it was made with. */
  datatype Seam = Unset | Storing(ref: ResourceRef)

  class CreationValidator {
    var ref: ResourceRef
    var reserveFn: Seam

    constructor ()
      ensures reserveFn == Unset
    {
      ref := ResourceRef("", "", "");
      reserveFn := Unset;
    }

    /** A seam that is already set stays, even when the reference changes. */
    method SetResource(ref: ResourceRef)
      modifies this
      ensures this.ref == ref
      ensures reserveFn == if old(reserveFn).Unset? then Storing(ref) else old(reserveFn)
    {
      this.ref := ref;
      if reserveFn.Unset? {
        reserveFn := Storing(ref);
      }
    }

    /** Handle, with ledger the QuotaUsage of the request's cluster and this validator's reference. A
        CREATE is allowed only if, at some instant of the call, the ledger held an unexpired
        reservation for the request's key or the call itself added one below the limit; it is denied
        only if the ledger had reached the limit; and nothing is written on any other path. */
    method Handle(reg: Registry, ledger: ApiServer, req: Request, ttl: int, budget: nat)
      returns (resp: Response, ghost at: nat, ghost now: int, ghost wrote: seq<nat>)
      requires reserveFn == Storing(ref)
      modifies ledger
      ensures !req.create ==> resp == Allowed
      ensures req.create && req.cluster == "" ==> resp == Errored(400)
      ensures req.create && req.cluster != "" && ref !in reg.limits ==> resp == Errored(500)
      ensures !(req.create && req.cluster != "" && ref in reg.limits) ==>
                wrote == [] && ledger.history == old(ledger.history) && ledger.writes == old(ledger.writes)
      ensures old(ledger.history) <= ledger.history && ledger.writes == old(ledger.writes) + wrote
      ensures req.create && ref in reg.limits ==>
                var key := RequestKey(req.namespace, req.name, req.uid);
                var limit := reg.limits[ref];
                && AtMostOneEffect(MReserve(key, limit, ttl), old(|ledger.history|), ledger.history, wrote)
                && (resp in {Allowed, Denied} ==>
                      ActedOnce(MReserve(key, limit, ttl), old(|ledger.history|), ledger.history,
                                wrote, at, now, resp == Allowed))
                && (resp in {Allowed, Denied} ==>
                      && ReadsClock(old(ledger.turns), ledger.idle, now)
                      && (resp == Allowed <==>
                            Holds(ledger.history[at - 1], key, now) || Used(ledger.history[at - 1], now) < limit)
                      && (wrote == [] <==> resp == Denied || Holds(ledger.history[at - 1], key, now))
                      && (wrote != [] ==>
                            ReservedBetween(ledger.history[at - 1], ledger.history[at], key, limit, now, ttl)))
      ensures req.create && req.cluster != "" && ref in reg.limits && Calm(old(ledger.turns), budget) ==>
                resp in {Allowed, Denied}
      ensures req.create && ref in reg.limits && resp == Allowed && req.name == ""
              && (forall r :: r in ledger.history[at - 1].reservations ==> r.key != "uid:" + req.uid) ==>
                wrote != [] && Reservation("uid:" + req.uid, now + ttl) in ledger.history[at].reservations
    {
      at, now, wrote := 0, 0, [];
      if !req.create {
        return Allowed, at, now, wrote;
      }
      if req.cluster == "" {
        return Errored(400), at, now, wrote;
      }
      var limit, ok := reg.LimitFor(req.cluster, ref);
      if !ok {
        return Errored(500), at, now, wrote;
      }
      var objKey := ObjectKey(req.namespace, req.name);
      if req.name == "" {
        objKey := "uid:" + req.uid;
      }
      var allowed, failed;
      allowed, failed, at, now, wrote := StoreReserve(ledger, objKey, limit, ttl, budget);
      if failed {
        resp := Errored(500);
      } else if !allowed {
        resp := Denied;
      } else {
        resp := Allowed;
      }
    }
  }

  datatype Route = Unavailable | NoSuchPath | To(handler: CreationValidator)

  function GovernedBy(rule: WebhookEntries.Rule): ResourceRef {
    ResourceRef(rule.group, rule.resource, rule.identityHash)
  }

  /** The URL of the entry installed for the rule is the base and this path. */
  ghost predicate LeadsTo(base: string, path: string, rule: WebhookEntries.Rule) {
    Addressable(GovernedBy(rule)) && WebhookEntries.EntryFor(base, rule).url == base + path
  }

  class ValidatorDispatcher {
    var handlers: map<ResourceRef, CreationValidator>

    /** Every cached validator looks limits up for, and reserves in the ledger of, its own reference. */
    ghost predicate Valid()
      reads this, handlers.Values
    {
      forall ref :: ref in handlers ==>
        handlers[ref].ref == ref && handlers[ref].reserveFn == Storing(ref)
    }

    constructor ()
      ensures Valid() && handlers == map[]
    {
      handlers := map[];
    }

    /** One validator per reference, made on first use. */
    method HandlerFor(ref: ResourceRef) returns (h: CreationValidator)
      requires Valid()
      modifies this
      ensures Valid() && h.ref == ref && h.reserveFn == Storing(ref)
      ensures if ref in old(handlers) then h == old(handlers)[ref] && handlers == old(handlers)
              else fresh(h) && handlers == old(handlers)[ref := h]
    {
      if ref in handlers {
        return handlers[ref];
      }
      h := new CreationValidator();
      h.SetResource(ref);
      handlers := handlers[ref := h];
    }

    /** ServeHTTP up to the handler: closed until the registry is populated, and every path that an
        installed entry points to reaches the validator of that entry's reference. */
    method ServeHTTP(path: string, initialized: bool) returns (route: Route)
      requires Valid()
      modifies this
      ensures Valid()
      ensures route.Unavailable? <==> !initialized
      ensures initialized ==> (route.NoSuchPath? <==> ParseValidatePath(path).None?)
      ensures route.To? ==> Some(route.handler.ref) == ParseValidatePath(path)
                            && route.handler.reserveFn == Storing(route.handler.ref)
      ensures forall ref :: initialized && Addressable(ref) && path == ValidatePath(ref) ==>
                route.To? && route.handler.ref == ref
      ensures forall base, rule :: initialized && LeadsTo(base, path, rule) ==>
                route.To? && route.handler.ref == GovernedBy(rule)
    {
      forall ref | Addressable(ref) && path == ValidatePath(ref)
        ensures ParseValidatePath(path) == Some(ref)
      {
        PrintedPathParses(ref);
      }
      forall base, rule | LeadsTo(base, path, rule)
        ensures ParseValidatePath(path) == Some(GovernedBy(rule))
      {
        var p := WebhookEntries.EntryMeaning(base, rule);
        assert path == (base + path)[|base|..] == (base + p)[|base|..] == p;
      }
      if !initialized {
        return Unavailable;
      }
      var ref := ParseValidatePath(path);
      if ref.None? {
        return NoSuchPath;
      }
      var h := HandlerFor(ref.value);
      return To(h);
    }
  }
}
