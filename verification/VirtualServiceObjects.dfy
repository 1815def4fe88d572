/**
 VirtualService objects as Go has them: structs reached through pointers, slices over backing arrays,
 maps, any of which may be nil. `Value` is the object graph as a value, `Repr` the objects it is made of.
 */
module VirtualServiceObjects {
  import opened Wrappers
  import opened VirtualServiceValues
  import opened ObjectTrees

  /** A Go map[string]string; the nil map is a null reference. */
  class StringMap {
    var entries: map<string, string>

    constructor (entries: map<string, string>)
      ensures this.entries == entries
    {
      this.entries := entries;
    }
  }

  ghost function MapValue(m: StringMap?): Option<map<string, string>>
    reads m
  {
    if m == null then None else Some(m.entries)
  }

  ghost function SliceValue(s: array?<string>): Option<seq<string>>
    reads s
  {
    if s == null then None else Some(s[..])
  }

  /** The object behind a pointer, if there is one. */
  ghost function Objects(o: object?): set<object> {
    if o == null then {} else {o}
  }

  /** make and copy of a string slice; nil stays nil. */
  method CopySlice(s: array?<string>) returns (t: array?<string>)
    ensures (t == null <==> s == null) && fresh(Objects(t)) && SliceValue(t) == SliceValue(s)
  {
    if s == null {
      return null;
    }
    var a := new string[s.Length];
    for i := 0 to s.Length
      invariant a[..i] == s[..i]
    {
      a[i] := s[i];
    }
    assert a[..] == a[..s.Length] == s[..];
    t := a;
  }

  /** make of a map and its loop over the entries; nil stays nil. */
  method CopyMap(m: StringMap?) returns (t: StringMap?)
    ensures (t == null <==> m == null) && fresh(Objects(t)) && MapValue(t) == MapValue(m)
  {
    if m == null {
      return null;
    }
    var n := new StringMap(map[]);
    var keys := m.entries.Keys;
    while keys != {}
      invariant keys <= m.entries.Keys
      invariant n.entries == map k | k in m.entries.Keys - keys :: m.entries[k]
      decreases keys
    {
      var key :| key in keys;
      n.entries := n.entries[key := m.entries[key]];
      keys := keys - {key};
    }
    assert n.entries == m.entries;
    t := n;
  }

  class HeaderOperations {
    ghost var Repr: set<object>
    var sets: StringMap?
    var add: StringMap?
    var remove: array?<string>

    constructor ()
      ensures Valid() && Repr == {this}
    {
      sets, add, remove := null, null, null;
      Repr := {this};
    }

    ghost predicate Valid()
      reads this
    {
      this in Repr && Objects(sets) + Objects(add) + Objects(remove) <= Repr
    }

    ghost function Value(): HeaderOperationsValue
      requires Valid()
      reads this, Repr
    {
      HeaderOperationsValue(MapValue(sets), MapValue(add), SliceValue(remove))
    }

    method DeepCopyInto(out: HeaderOperations)
      requires Valid() && out !in Repr
      modifies out
      ensures out.Valid() && fresh(out.Repr - {out}) && out.Value() == Value()
    {
      var s := CopyMap(sets);
      var a := CopyMap(add);
      var r := CopySlice(remove);
      out.sets, out.add, out.remove := s, a, r;
      out.Repr := {out} + Objects(s) + Objects(a) + Objects(r);
    }
  }

  ghost function OperationsRepr(h: HeaderOperations?): set<object>
    reads h
  {
    if h == null then {} else h.Repr
  }

  ghost predicate OperationsValid(h: HeaderOperations?)
    reads h
  {
    h != null ==> h.Valid()
  }

  ghost function OperationsValue(h: HeaderOperations?): Option<HeaderOperationsValue>
    requires OperationsValid(h)
    reads h, OperationsRepr(h)
  {
    if h == null then None else Some(h.Value())
  }

  /** The nil-safe DeepCopy of HeaderOperations. */
  method CopyOperations(h: HeaderOperations?) returns (t: HeaderOperations?)
    requires OperationsValid(h)
    ensures OperationsValid(t) && fresh(OperationsRepr(t)) && OperationsValue(t) == OperationsValue(h)
  {
    if h == null {
      return null;
    }
    var out := new HeaderOperations();
    h.DeepCopyInto(out);
    t := out;
  }

  class Headers {
    ghost var Repr: set<object>
    var request: HeaderOperations?
    var response: HeaderOperations?

    constructor ()
      ensures Valid() && Repr == {this}
    {
      request, response := null, null;
      Repr := {this};
    }

    ghost predicate Valid()
      reads this, Repr
    {
      && this in Repr
      && (request != null ==> request in Repr && request.Repr <= Repr - {this} && request.Valid())
      && (response != null ==> response in Repr && response.Repr <= Repr - {this} && response.Valid())
    }

    ghost function Value(): HeadersValue
      requires Valid()
      reads this, Repr
    {
      HeadersValue(OperationsValue(request), OperationsValue(response))
    }

    /** The fields of the struct, all at once. */
    method Assign(request: HeaderOperations?, response: HeaderOperations?)
      requires OperationsValid(request) && OperationsValid(response)
      requires this !in OperationsRepr(request) && this !in OperationsRepr(response)
      modifies this
      ensures Valid() && Repr == {this} + OperationsRepr(request) + OperationsRepr(response)
      ensures Value() == HeadersValue(old(OperationsValue(request)), old(OperationsValue(response)))
    {
      this.request, this.response := request, response;
      Repr := {this} + OperationsRepr(request) + OperationsRepr(response);
    }

    method DeepCopyInto(out: Headers)
      requires Valid() && out !in Repr
      modifies out
      ensures out.Valid() && fresh(out.Repr - {out}) && out.Value() == Value()
    {
      var a := CopyOperations(request);
      var b := CopyOperations(response);
      out.Assign(a, b);
    }
  }

  ghost function HeadersRepr(h: Headers?): set<object>
    reads h
  {
    if h == null then {} else h.Repr
  }

  ghost predicate HeadersValid(h: Headers?)
    reads h, HeadersRepr(h)
  {
    h != null ==> h.Valid()
  }

  ghost function HeadersValueOf(h: Headers?): Option<HeadersValue>
    requires HeadersValid(h)
    reads h, HeadersRepr(h)
  {
    if h == null then None else Some(h.Value())
  }

  method CopyHeaders(h: Headers?) returns (t: Headers?)
    requires HeadersValid(h)
    ensures HeadersValid(t) && fresh(HeadersRepr(t)) && HeadersValueOf(t) == HeadersValueOf(h)
  {
    if h == null {
      return null;
    }
    var out := new Headers();
    h.DeepCopyInto(out);
    t := out;
  }

  class PortSelector {
    var number: nat
    var name: string

    constructor (number: nat, name: string)
      ensures this.number == number && this.name == name
    {
      this.number, this.name := number, name;
    }
  }

  ghost function PortValueOf(p: PortSelector?): Option<PortValue>
    reads p
  {
    if p == null then None else Some(PortValue(p.number, p.name))
  }

  class Destination {
    ghost var Repr: set<object>
    var host: string
    var subset: string
    var port: PortSelector?

    constructor (host: string)
      ensures Valid() && Repr == {this} && Value() == DestinationValue(host, "", None)
    {
      this.host, subset, port := host, "", null;
      Repr := {this};
    }

    ghost predicate Valid()
      reads this
    {
      this in Repr && Objects(port) <= Repr
    }

    ghost function Value(): DestinationValue
      requires Valid()
      reads this, Repr
    {
      DestinationValue(host, subset, PortValueOf(port))
    }

    method DeepCopyInto(out: Destination)
      requires Valid() && out !in Repr
      modifies out
      ensures out.Valid() && fresh(out.Repr - {out}) && out.Value() == Value()
    {
      out.host, out.subset, out.port := host, subset, port;
      out.Repr := {out};
      if port != null {
        var p := new PortSelector(port.number, port.name);
        out.port := p;
        out.Repr := {out, p};
      }
    }
  }

  ghost function DestinationRepr(d: Destination?): set<object>
    reads d
  {
    if d == null then {} else d.Repr
  }

  ghost predicate DestinationValid(d: Destination?)
    reads d
  {
    d != null ==> d.Valid()
  }

  ghost function DestinationValueOf(d: Destination?): Option<DestinationValue>
    requires DestinationValid(d)
    reads d, DestinationRepr(d)
  {
    if d == null then None else Some(d.Value())
  }

  method CopyDestination(d: Destination?) returns (t: Destination?)
    requires DestinationValid(d)
    ensures DestinationValid(t) && fresh(DestinationRepr(t)) && DestinationValueOf(t) == DestinationValueOf(d)
  {
    if d == null {
      return null;
    }
    var out := new Destination("");
    d.DeepCopyInto(out);
    t := out;
  }

  // ----- one weighted destination of a route

  class HTTPRouteDestination {
    ghost var Repr: set<object>
    var destination: Destination?
    var weight: int
    var headers: Headers?
    var others: Node? // all other fields

    constructor ()
      ensures Valid() && Repr == {this} && Value() == RouteValue(None, 0, None, None)
    {
      destination, weight, headers, others := null, 0, null, null;
      Repr := {this};
    }

    ghost predicate Valid()
      reads this, Repr
    {
      && this in Repr
      && (destination != null ==> destination in Repr && destination.Repr <= Repr - {this} && destination.Valid())
      && (headers != null ==> headers in Repr && headers.Repr <= Repr - {this} && headers.Valid())
      && (others != null ==> others in Repr && others.Repr <= Repr - {this} && others.Valid())
    }

    ghost function Value(): RouteValue
      requires Valid()
      reads this, Repr
    {
      RouteValue(DestinationValueOf(destination), weight, HeadersValueOf(headers), NodeValue(others))
    }

    /** Nil-safe copies of what the pointers lead to. */
    method CopyParts() returns (d: Destination?, h: Headers?)
      requires Valid()
      ensures DestinationValid(d) && fresh(DestinationRepr(d)) && DestinationValueOf(d) == Value().destination
      ensures HeadersValid(h) && fresh(HeadersRepr(h)) && HeadersValueOf(h) == Value().headers
    {
      d := CopyDestination(destination);
      h := CopyHeaders(headers);
    }

    /** The fields of the struct, all at once but for `others`. */
    method Assign(destination: Destination?, weight: int, headers: Headers?)
      requires DestinationValid(destination) && HeadersValid(headers)
      requires this !in DestinationRepr(destination) && this !in HeadersRepr(headers)
      modifies this
      ensures Valid() && Repr == {this} + DestinationRepr(destination) + HeadersRepr(headers)
      ensures Value() == RouteValue(old(DestinationValueOf(destination)), weight, old(HeadersValueOf(headers)), None)
    {
      AssignDestination(destination, weight);
      AssignHeaders(headers);
    }

    method AssignDestination(destination: Destination?, weight: int)
      requires DestinationValid(destination) && this !in DestinationRepr(destination)
      modifies this
      ensures Valid() && Repr == {this} + DestinationRepr(destination)
      ensures Value() == RouteValue(old(DestinationValueOf(destination)), weight, None, None)
    {
      this.destination, this.weight, headers, others := destination, weight, null, null;
      Repr := {this} + DestinationRepr(destination);
    }

    method AssignHeaders(headers: Headers?)
      requires Valid() && HeadersValid(headers) && this !in HeadersRepr(headers)
      modifies this`headers, this`Repr
      ensures Valid() && Repr == old(Repr) + HeadersRepr(headers)
      ensures Value() == old(Value()).(headers := old(HeadersValueOf(headers)))
    {
      this.headers := headers;
      Repr := Repr + HeadersRepr(headers);
    }

    method AssignOthers(others: Node?)
      requires Valid() && NodeValid(others) && this !in NodeRepr(others)
      modifies this`others, this`Repr
      ensures Valid() && Repr == old(Repr) + NodeRepr(others)
      ensures Value() == old(Value()).(others := old(NodeValue(others)))
    {
      this.others := others;
      Repr := Repr + NodeRepr(others);
    }

    method CopyNamedInto(out: HTTPRouteDestination)
      requires Valid() && out !in Repr
      modifies out
      ensures out.Valid() && fresh(out.Repr - {out}) && out.Value() == Value().(others := None)
    {
      var d, h := CopyParts();
      out.Assign(d, weight, h);
    }

    method CopyOthersInto(out: HTTPRouteDestination)
      requires Valid() && out !in Repr && out.Valid()
      modifies out
      ensures out.Valid() && fresh(out.Repr - old(out.Repr))
              && out.Value() == old(out.Value()).(others := Value().others)
    {
      var o := CopyNode(others);
      out.AssignOthers(o);
    }

    method DeepCopyInto(out: HTTPRouteDestination)
      requires Valid() && out !in Repr
      modifies out
      ensures out.Valid() && fresh(out.Repr - {out}) && out.Value() == Value()
    {
      CopyNamedInto(out);
      CopyOthersInto(out);
    }

    /** An edit of the weight alone. */
    method SetWeight(weight: int)
      requires Valid()
      modifies this`weight
      ensures Valid() && Value() == old(Value()).(weight := weight)
    {
      this.weight := weight;
    }
  }

  ghost function RouteRepr(d: HTTPRouteDestination?): set<object>
    reads d
  {
    if d == null then {} else d.Repr
  }

  ghost predicate RouteValid(d: HTTPRouteDestination?)
    reads d, RouteRepr(d)
  {
    d != null ==> d.Valid()
  }

  ghost function RouteValueOf(d: HTTPRouteDestination?): Option<RouteValue>
    requires RouteValid(d)
    reads d, RouteRepr(d)
  {
    if d == null then None else Some(d.Value())
  }

  method CopyRoute(d: HTTPRouteDestination?) returns (t: HTTPRouteDestination?)
    requires RouteValid(d)
    ensures RouteValid(t) && fresh(RouteRepr(t)) && RouteValueOf(t) == RouteValueOf(d)
  {
    if d == null {
      return null;
    }
    var out := new HTTPRouteDestination();
    d.DeepCopyInto(out);
    t := out;
  }
}
