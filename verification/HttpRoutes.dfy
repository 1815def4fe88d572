/** An http block of a VirtualService: its deep copy, the search for a route, and the controller's edits in place. */
module HttpRoutes {
  import opened Wrappers
  import opened VirtualServiceValues
  import opened ObjectTrees
  import opened VirtualServiceObjects
  import opened RouteLists

  method NewCanaryRoute(name: string) returns (canary: HTTPRouteDestination)
    ensures canary.Valid() && fresh(canary.Repr) && RouteValueOf(canary) == CanaryRoute(name)
  {
    var destination := new Destination(name);
    canary := new HTTPRouteDestination();
    canary.Assign(destination, 10, null);
  }

  class HTTPRoute {
    ghost var Repr: set<object>
    ghost var owned: set<object> // what the routes are made of
    var route: array?<RoutePtr>  // the backing array of the Route slice,
    var routeLen: nat            // and the length of the slice
    var timeout: string
    var others: Node?            // all other fields

    constructor ()
      ensures Valid() && Unshared() && Repr == {this} && Value() == BlockValue(None, "", None)
    {
      route, routeLen, timeout, others := null, 0, "", null;
      Repr, owned := {this}, {};
    }

    ghost predicate Valid()
      reads this, Repr
    {
      && this in Repr && owned <= Repr - {this}
      && (if route == null then routeLen == 0
          else route in Repr && route !in owned && routeLen <= route.Length && Within(route[..routeLen], owned))
      && (others != null ==> others in Repr && others.Repr <= Repr - {this} && others.Valid())
    }

    /** The entries of the Route slice. */
    ghost function Entries(): seq<RoutePtr>
      requires Valid()
      reads this, Repr
    {
      if route == null then [] else route[..routeLen]
    }

    /** No route of the block shares an object with another route or with the other fields. */
    ghost predicate Unshared()
      requires Valid()
      reads this, Repr
    {
      && Separate(Entries(), owned)
      && NodeRepr(others) !! owned
      && (route != null ==> route !in NodeRepr(others))
    }

    ghost function RouteValues(): Routes
      requires Valid()
      reads this, Repr
    {
      ValueOf(Entries(), owned)
    }

    ghost function Value(): BlockValue
      requires Valid()
      reads this, Repr
    {
      BlockValue(if route == null then None else Some(RouteValues()), timeout, NodeValue(others))
    }

    /** The assignment to the Route slice. */
    method SetRoutes(route: array<RoutePtr>, ghost owned: set<object>)
      requires Valid() && Within(route[..], owned) && Separate(route[..], owned)
      requires route !in owned && {route} + owned !! NodeRepr(others) && this !in owned
      modifies this`route, this`routeLen, this`owned, this`Repr
      ensures Valid() && Unshared() && Repr == old(Repr) + {route} + owned
      ensures Value() == old(Value()).(route := Some(old(ValueOf(route[..], owned))))
    {
      assert route[..route.Length] == route[..];
      this.route, routeLen := route, route.Length;
      this.owned := owned;
      Repr := Repr + {route} + owned;
    }

    /** The fields of the struct, without routes. */
    method SetShell(timeout: string, others: Node?)
      requires NodeValid(others) && this !in NodeRepr(others)
      modifies this
      ensures Valid() && Unshared() && route == null && Repr == {this} + NodeRepr(others)
      ensures Value() == BlockValue(None, timeout, old(NodeValue(others)))
    {
      route, routeLen, this.timeout, this.others := null, 0, timeout, others;
      owned, Repr := {}, {this} + NodeRepr(others);
    }

    /** The copy of all fields but the Route slice. */
    method CopyShellInto(out: HTTPRoute)
      requires Valid() && out !in Repr
      modifies out
      ensures out.Valid() && out.Unshared() && fresh(out.Repr - {out}) && out.Value() == Value().(route := None)
    {
      var o := CopyNode(others);
      out.SetShell(timeout, o);
    }

    method DeepCopyInto(out: HTTPRoute)
      requires Valid() && out !in Repr
      modifies out
      ensures out.Valid() && out.Unshared() && fresh(out.Repr - {out}) && out.Value() == Value()
    {
      CopyShellInto(out);
      if route != null {
        var r, o := CopyRoutes(route[..routeLen], owned);
        out.SetRoutes(r, o);
      }
    }

    /**
     FindMatchingRouteInHttpRoute: the range loop with early return; a nil entry before the match would be
     dereferenced.
     */
    method FindMatchingRoute(svc: string) returns (i: int)
      requires Valid() && Searchable(RouteValues(), svc)
      ensures i == FindRoute(RouteValues(), svc)
    {
      ghost var rs := RouteValues();
      for k := 0 to routeLen
        invariant forall j :: 0 <= j < k ==> !HostIs(rs[j], svc)
      {
        assert rs[k] == RouteValueOf(Entries()[k]);
        assert HasHost(rs[k]);
        if route[k].destination.host == svc {
          FindRouteUnique(rs, svc, k);
          return k;
        }
      }
      FindRouteUnique(rs, svc, -1);
      return -1;
    }

    // ----- the controller's edits

    /** Assignment to the weight of the route at `r`, through its pointer. */
    method ReweighAt(r: nat, weight: int)
      requires Valid() && Unshared() && r < |Entries()| && Entries()[r] != null
      modifies Repr
      ensures Valid() && Unshared() && unchanged(this) && route != null
      ensures Value() ==
                old(Value()).(route := Some(old(RouteValues())[r := WithWeight(old(RouteValues())[r], weight)]))
      ensures Entries() == old(Entries())
    {
      Reweigh(route[r], weight, Entries(), r, owned);
    }

    /** The split: take ten percent from the route at `r` and append a route to `name`. */
    method AddCanary(r: nat, name: string)
      requires Valid() && Unshared() && r < |Entries()| && Entries()[r] != null
      modifies Repr
      ensures Valid() && Unshared() && fresh(Repr - old(Repr))
      ensures Value() == old(Value()).(route := Some(ShareOut(old(RouteValues()), r, name)))
    {
      var baseDestination := route[r];
      if baseDestination.weight == 0 {
        ReweighAt(r, 90);
      } else {
        ReweighAt(r, baseDestination.weight - 10);
      }
      AppendCanary(name);
    }

    method AppendCanary(name: string)
      requires Valid() && Unshared() && route != null
      modifies this
      ensures Valid() && Unshared() && fresh(Repr - old(Repr))
      ensures Value() == old(Value()).(route := Some(old(RouteValues()) + [CanaryRoute(name)]))
    {
      ghost var s := Entries();
      var canary := NewCanaryRoute(name);
      var b := AppendRoute(route, routeLen, canary);
      Append(s, owned, canary);
      SetRoutes(b, owned + canary.Repr);
    }

    /** The merge: give the weight of the route at `k` to the route at `r` and cut `k` out of the slice. */
    method ReturnShare(r: nat, k: nat)
      requires Valid() && Unshared() && r < |Entries()| && Entries()[r] != null && k < |Entries()|
               && Entries()[k] != null
      modifies Repr
      ensures Valid() && Unshared() && Repr == old(Repr)
      ensures Value() == old(Value()).(route := Some(TakeBack(old(RouteValues()), r, k)))
    {
      ReweighAt(r, route[r].weight + route[k].weight);
      Cut(k);
    }

    method Cut(k: nat)
      requires Valid() && Unshared() && k < |Entries()|
      modifies this`routeLen, route
      ensures Valid() && Unshared() && Repr == old(Repr)
      ensures Value() == old(Value()).(route := Some(old(RouteValues())[..k] + old(RouteValues())[k + 1..]))
    {
      ghost var s := Entries();
      CutValues(s, owned, k);
      CutRoute(route, routeLen, k);
      assert route[..routeLen - 1] == s[..k] + s[k + 1..];
      routeLen := routeLen - 1;
      assert route[..routeLen] == s[..k] + s[k + 1..];
    }
  }
}
