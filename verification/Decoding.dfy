/** What the client's Get hands to its caller: a new object graph with a given value. */
module Decoding {
  import opened Wrappers
  import opened VirtualServiceValues
  import opened ObjectTrees
  import opened VirtualServiceObjects
  import opened RouteLists
  import opened HttpRoutes
  import opened VirtualServices

  method DecodeStrings(v: Option<seq<string>>) returns (t: array?<string>)
    ensures fresh(Objects(t)) && SliceValue(t) == v
  {
    if v.None? {
      return null;
    }
    var a := new string[|v.value|](i requires 0 <= i < |v.value| => v.value[i]);
    assert a[..] == v.value;
    t := a;
  }

  method DecodeMap(v: Option<map<string, string>>) returns (t: StringMap?)
    ensures fresh(Objects(t)) && MapValue(t) == v
  {
    if v.None? {
      return null;
    }
    var m := new StringMap(v.value);
    t := m;
  }

  method DecodeOperations(v: Option<HeaderOperationsValue>) returns (t: HeaderOperations?)
    ensures OperationsValid(t) && fresh(OperationsRepr(t)) && OperationsValue(t) == v
  {
    if v.None? {
      return null;
    }
    var s := DecodeMap(v.value.sets);
    var a := DecodeMap(v.value.add);
    var r := DecodeStrings(v.value.remove);
    var h := new HeaderOperations();
    h.sets, h.add, h.remove := s, a, r;
    h.Repr := {h} + Objects(s) + Objects(a) + Objects(r);
    t := h;
  }

  method DecodeHeaders(v: Option<HeadersValue>) returns (t: Headers?)
    ensures HeadersValid(t) && fresh(HeadersRepr(t)) && HeadersValueOf(t) == v
  {
    if v.None? {
      return null;
    }
    var a := DecodeOperations(v.value.request);
    var b := DecodeOperations(v.value.response);
    var h := new Headers();
    h.Assign(a, b);
    t := h;
  }

  method DecodeDestination(v: Option<DestinationValue>) returns (t: Destination?)
    ensures DestinationValid(t) && fresh(DestinationRepr(t)) && DestinationValueOf(t) == v
  {
    if v.None? {
      return null;
    }
    var d := new Destination(v.value.host);
    d.subset := v.value.subset;
    if v.value.port.Some? {
      var p := new PortSelector(v.value.port.value.number, v.value.port.value.name);
      d.port, d.Repr := p, {d, p};
    }
    t := d;
  }

  method DecodeRoute(v: Option<RouteValue>) returns (t: RoutePtr)
    ensures RouteValid(t) && fresh(RouteRepr(t)) && RouteValueOf(t) == v
  {
    if v.None? {
      return null;
    }
    var r := DecodeNamed(v.value);
    var o := DecodeNode(v.value.others);
    r.AssignOthers(o);
    t := r;
  }

  method DecodeNamed(v: RouteValue) returns (r: HTTPRouteDestination)
    ensures r.Valid() && fresh(r.Repr) && r.Value() == v.(others := None)
  {
    var d := DecodeDestination(v.destination);
    var h := DecodeHeaders(v.headers);
    r := NewRoute(d, v.weight, h);
  }

  method NewRoute(d: Destination?, weight: int, h: Headers?) returns (r: HTTPRouteDestination)
    requires DestinationValid(d) && HeadersValid(h)
    ensures r.Valid() && fresh(r.Repr - DestinationRepr(d) - HeadersRepr(h))
    ensures r.Value() == RouteValue(DestinationValueOf(d), weight, HeadersValueOf(h), None)
  {
    r := new HTTPRouteDestination();
    r.Assign(d, weight, h);
  }

  /** One round of the loop below. */
  method DecodeAt(v: Option<RouteValue>, a: array<RoutePtr>, i: nat, ghost owned: set<object>)
    returns (ghost owned': set<object>)
    requires i < a.Length && Within(a[..i], owned) && Separate(a[..i], owned) && a !in owned
    modifies a
    ensures owned <= owned' && fresh(owned' - owned) && a !in owned'
    ensures Within(a[..i + 1], owned') && Separate(a[..i + 1], owned')
    ensures ValueOf(a[..i + 1], owned') == old(ValueOf(a[..i], owned)) + [v]
  {
    ghost var done := a[..i];
    var t := DecodeRoute(v);
    Append(done, owned, t);
    owned' := owned + RouteRepr(t);
    a[i] := t;
    assert a[..i + 1] == done + [t];
  }

  method DecodeRoutes(v: Routes) returns (a: array<RoutePtr>, ghost owned: set<object>)
    ensures fresh(a) && fresh(owned) && a !in owned
    ensures Within(a[..], owned) && Separate(a[..], owned) && ValueOf(a[..], owned) == v
  {
    a := new RoutePtr[|v|](_ => null);
    owned := {};
    for i := 0 to |v|
      invariant fresh(owned) && a !in owned
      invariant Within(a[..i], owned) && Separate(a[..i], owned) && ValueOf(a[..i], owned) == v[..i]
    {
      owned := DecodeAt(v[i], a, i, owned);
      assert v[..i + 1] == v[..i] + [v[i]];
    }
    assert a[..] == a[..|v|] && v[..|v|] == v;
  }

  method DecodeBlock(v: Option<BlockValue>) returns (t: BlockPtr)
    ensures BlockValid(t) && fresh(BlockRepr(t)) && BlockValueOf(t) == v && (t != null ==> t.Unshared())
  {
    if v.None? {
      return null;
    }
    var b := DecodeShell(v.value.timeout, v.value.others);
    if v.value.route.Some? {
      var a, o := DecodeRoutes(v.value.route.value);
      b.SetRoutes(a, o);
    }
    t := b;
  }

  method DecodeShell(timeout: string, others: Option<Tree>) returns (b: HTTPRoute)
    ensures b.Valid() && b.Unshared() && fresh(b.Repr) && b.Value() == BlockValue(None, timeout, others)
  {
    var o := DecodeNode(others);
    b := new HTTPRoute();
    b.SetShell(timeout, o);
  }

  /** One round of the loop below. */
  method DecodeBlockAt(v: Option<BlockValue>, a: array<BlockPtr>, i: nat, ghost owned: set<object>)
      returns (ghost owned': set<object>)
    requires i < a.Length && WithinBlocks(a[..i], owned) && Forest(a[..i], owned) && a !in owned
    modifies a
    ensures owned <= owned' && fresh(owned' - owned) && a !in owned'
    ensures WithinBlocks(a[..i + 1], owned') && Forest(a[..i + 1], owned')
    ensures BlockValues(a[..i + 1], owned') == old(BlockValues(a[..i], owned)) + [v]
  {
    ghost var done := a[..i];
    var t := DecodeBlock(v);
    AppendBlock(done, owned, t);
    owned' := owned + BlockRepr(t);
    a[i] := t;
    assert a[..i + 1] == done + [t];
  }

  method DecodeBlocks(v: Blocks) returns (a: array<BlockPtr>, ghost owned: set<object>)
    ensures fresh(a) && fresh(owned) && a !in owned
    ensures WithinBlocks(a[..], owned) && Forest(a[..], owned) && BlockValues(a[..], owned) == v
  {
    a := new BlockPtr[|v|](_ => null);
    owned := {};
    for i := 0 to |v|
      invariant fresh(owned) && a !in owned
      invariant WithinBlocks(a[..i], owned) && Forest(a[..i], owned) && BlockValues(a[..i], owned) == v[..i]
    {
      owned := DecodeBlockAt(v[i], a, i, owned);
      assert v[..i + 1] == v[..i] + [v[i]];
    }
    assert a[..] == a[..|v|] && v[..|v|] == v;
  }

  method Decode(v: SpecValue) returns (t: VirtualServiceSpec)
    ensures t.Valid() && t.Unshared() && fresh(t.Repr) && t.Value() == v
  {
    var o := DecodeNode(v.others);
    t := new VirtualServiceSpec();
    t.others, t.Repr := o, {t} + NodeRepr(o);
    if v.http.Some? {
      var a, o := DecodeBlocks(v.http.value);
      t.SetBlocks(a, o);
    }
  }
}
