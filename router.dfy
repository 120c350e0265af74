/**
 * The live router of the admin client and resetRouter, which takes the role-gated routes
 * back out of it.
 */
module Router {
  import opened JsValues
  import opened RouteTable
  import opened Platform

  /**
   * The router's table of records. `failing` stands for whatever makes the router's
   * internals throw: removing a record whose name is in it raises an exception.
   */
  class LiveRouter {
    var routes: seq<RouteRecord>
    var failing: set<string>
    /** Every name passed to RemoveRoute so far, oldest first. */
    ghost var removed: seq<string>

    ghost predicate Valid()
      reads this
    {
      NamesUnique(routes)
    }

    /** createRouter({ routes: initial }). */
    constructor (initial: seq<RouteRecordRaw>, failing: set<string>)
      requires NamesUnique(Registered(initial))
      ensures Valid()
      ensures routes == Registered(initial) && this.failing == failing && removed == []
    {
      routes := Registered(initial);
      this.failing := failing;
      removed := [];
    }

    /** router.getRoutes(): a copy of the table, unaffected by later removals. */
    method GetRoutes() returns (rs: seq<RouteRecord>)
      ensures rs == routes
    {
      rs := routes;
    }

    /** router.hasRoute(name). */
    method HasRoute(name: string) returns (b: bool)
      ensures b <==> exists i :: 0 <= i < |routes| && routes[i].name == Some(name)
    {
      b := false;
      var i := 0;
      while i < |routes|
        invariant 0 <= i <= |routes|
        invariant b <==> exists j :: 0 <= j < i && routes[j].name == Some(name)
      {
        if routes[i].name == Some(name) {
          b := true;
        }
        i := i + 1;
      }
    }

    /** router.removeRoute(name); `thrown` says the call raised an exception and removed nothing. */
    method RemoveRoute(name: string) returns (thrown: bool)
      requires Valid()
      modifies this
      ensures Valid() && failing == old(failing)
      ensures removed == old(removed) + [name]
      ensures thrown <==> name in failing
      ensures routes == if thrown then old(routes) else RemoveNamed(old(routes), name)
    {
      removed := removed + [name];
      thrown := name in failing;
      if !thrown {
        RemoveNamedUnique(routes, name);
        routes := RemoveNamed(routes, name);
      }
    }
  }

  /**
   * The router of the application: it starts with only the constant routes. `failing`
   * names the records whose removal will throw.
   */
  method CreateRouter(failing: set<string>) returns (router: LiveRouter)
    ensures fresh(router) && router.Valid()
    ensures router.routes == Registered(ConstantRoutes) && router.failing == failing && router.removed == []
  {
    ConstantRoutesWellFormed();
    router := new LiveRouter(ConstantRoutes, failing);
  }

  /**
   * The body of resetRouter's walk for the record at position i of the snapshot: a gated
   * record that the router still has is removed by name. The walk so far has passed the
   * records before position i without a throw, and `base` is the removal log before it began.
   */
  method VisitRecord(router: LiveRouter, ghost base: seq<string>, snapshot: seq<RouteRecord>, i: nat)
      returns (thrown: bool)
    requires i < |snapshot| && NamesUnique(snapshot) && router.Valid()
    requires router.routes == WalkedTo(snapshot, i)
    requires router.removed == base + GatedNames(snapshot[..i])
    requires !RemovalThrows(snapshot[..i], router.failing)
    modifies router
    ensures router.Valid() && router.failing == old(router.failing)
    ensures router.removed == base + GatedNames(snapshot[..i + 1])
    ensures thrown <==> Gated(snapshot[i]) && snapshot[i].name.value in router.failing
    ensures !thrown ==>
      router.routes == WalkedTo(snapshot, i + 1) && !RemovalThrows(snapshot[..i + 1], router.failing)
    ensures thrown ==>
      router.routes == old(router.routes) &&
      RemovalThrows(snapshot, router.failing) && FirstThrow(snapshot, router.failing) == i
  {
    var route := snapshot[i];
    GatedNamesStep(snapshot, i);
    thrown := false;
    if Gated(route) {
      var name := route.name.value;
      NextRecordPosition(snapshot, i);
      var present := router.HasRoute(name);
      assert present by {
        var j := |Ungated(snapshot[..i])|;
        assert router.routes[j].name == Some(name);
      }
      if present {
        thrown := router.RemoveRoute(name);
        if thrown {
          FirstThrowAt(snapshot, i, router.failing);
        } else {
          ResetStep(snapshot, i);
        }
      }
    } else {
      WalkSkip(snapshot, i);
    }
    if !thrown {
      RemovalThrowsStep(snapshot, i, router.failing);
    }
  }

  /**
   * resetRouter(): removes, by name, every record that has a name and a non-empty role
   * list and that the router still has. An exception from the router stops the walk at
   * the first record whose removal throws, and is answered with a page reload; nothing
   * reaches the caller.
   */
  method ResetRouter(router: LiveRouter, host: Host)
    requires router.Valid()
    modifies router, host
    ensures router.Valid() && router.failing == old(router.failing) && host.token == old(host.token)
    ensures !RemovalThrows(old(router.routes), router.failing) ==>
      router.routes == Ungated(old(router.routes)) &&
      router.removed == old(router.removed) + GatedNames(old(router.routes)) &&
      host.effects == old(host.effects)
    ensures RemovalThrows(old(router.routes), router.failing) ==>
      var k := FirstThrow(old(router.routes), router.failing);
      router.routes == WalkedTo(old(router.routes), k) &&
      router.removed == old(router.removed) + GatedNames(old(router.routes)[..k + 1]) &&
      host.effects == old(host.effects) + [Reloaded]
  {
    var snapshot := router.GetRoutes();
    ghost var base := router.removed;
    WalkEnds(snapshot);
    assert snapshot[..0] == [];
    var i := 0;
    while i < |snapshot|
      invariant 0 <= i <= |snapshot| && snapshot == old(router.routes) && NamesUnique(snapshot)
      invariant router.failing == old(router.failing) && router.Valid()
      invariant router.routes == WalkedTo(snapshot, i)
      invariant router.removed == base + GatedNames(snapshot[..i])
      invariant !RemovalThrows(snapshot[..i], router.failing)
      invariant host.effects == old(host.effects) && host.token == old(host.token)
    {
      var thrown := VisitRecord(router, base, snapshot, i);
      if thrown {
        host.Reload();
        return;
      }
      i := i + 1;
    }
    assert snapshot[..i] == snapshot;
  }
}
