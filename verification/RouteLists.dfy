/** Slices of route pointers: copying one, and appending to and cutting from one in place. */
module RouteLists {
  import opened Wrappers
  import opened VirtualServiceValues
  import opened VirtualServiceObjects

  type RoutePtr = HTTPRouteDestination?

  /** The routes of a slice are well formed and made of objects in `owned`. */
  ghost predicate Within(s: seq<RoutePtr>, owned: set<object>)
    reads owned
  {
    forall i :: 0 <= i < |s| && s[i] != null ==> s[i] in owned && s[i].Repr <= owned && s[i].Valid()
  }

  ghost function ValueOf(s: seq<RoutePtr>, owned: set<object>): (v: Routes)
    requires Within(s, owned)
    reads owned
    ensures |v| == |s|
  {
    seq(|s|, i requires 0 <= i < |s| && Within(s, owned) reads owned => RouteValueOf(s[i]))
  }

  /** No two routes share an object. */
  ghost predicate Separate(s: seq<RoutePtr>, owned: set<object>)
    requires Within(s, owned)
    reads owned
  {
    forall i, j {:trigger RouteRepr(s[i]), RouteRepr(s[j])} :: 0 <= i < j < |s| ==> RouteRepr(s[i]) !! RouteRepr(s[j])
  }

  lemma Append(s: seq<RoutePtr>, owned: set<object>, d: RoutePtr)
    requires Within(s, owned) && Separate(s, owned) && RouteValid(d) && RouteRepr(d) !! owned
    ensures Within(s + [d], owned + RouteRepr(d)) && Separate(s + [d], owned + RouteRepr(d))
    ensures ValueOf(s + [d], owned + RouteRepr(d)) == ValueOf(s, owned) + [RouteValueOf(d)]
  {
  }

  /** One round of the loop below: a nil-safe copy of `src` becomes entry `i` of `b`. */
  method CopyAt(src: RoutePtr, b: array<RoutePtr>, i: nat, ghost owned: set<object>) returns (ghost owned': set<object>)
    requires i < b.Length && Within(b[..i], owned) && Separate(b[..i], owned) && b !in owned
    requires RouteValid(src)
    modifies b
    ensures owned <= owned' && fresh(owned' - owned) && b !in owned'
    ensures Within(b[..i + 1], owned') && Separate(b[..i + 1], owned')
    ensures ValueOf(b[..i + 1], owned') == old(ValueOf(b[..i], owned)) + [old(RouteValueOf(src))]
  {
    ghost var done := b[..i];
    var d := CopyRoute(src);
    Append(done, owned, d);
    owned' := owned + RouteRepr(d);
    b[i] := d;
    assert b[..i + 1] == done + [d];
  }

  lemma NextValue(v: Routes, i: nat)
    requires i <= |v|
    ensures if i < |v| then v[..i + 1] == v[..i] + [v[i]] else v[..i] == v
  {
  }

  /** make of a slice of pointers and its loop of nil-safe copies of the entries `s`. */
  method CopyRoutes(s: seq<RoutePtr>, ghost owned: set<object>) returns (b: array<RoutePtr>, ghost owned': set<object>)
    requires Within(s, owned)
    ensures fresh(b) && b.Length == |s| && fresh(owned') && b !in owned'
    ensures Within(b[..], owned') && Separate(b[..], owned')
    ensures ValueOf(b[..], owned') == ValueOf(s, owned)
  {
    b := new RoutePtr[|s|](_ => null);
    owned' := {};
    ghost var v := ValueOf(s, owned);
    for i := 0 to |s|
      invariant fresh(owned') && b !in owned'
      invariant Within(b[..i], owned') && Separate(b[..i], owned')
      invariant ValueOf(b[..i], owned') == v[..i]
    {
      NextValue(v, i);
      assert RouteValueOf(s[i]) == v[i];
      owned' := CopyAt(s[i], b, i, owned');
    }
    NextValue(v, |s|);
    assert b[..] == b[..|s|];
  }

  // ----- editing in place

  /** Assignment to the weight behind one pointer of the slice: no other route changes. */
  method Reweigh(d: HTTPRouteDestination, weight: int, ghost s: seq<RoutePtr>, ghost r: nat, ghost owned: set<object>)
    requires r < |s| && s[r] == d && Within(s, owned) && Separate(s, owned)
    modifies d`weight
    ensures Within(s, owned) && Separate(s, owned)
    ensures ValueOf(s, owned) == old(ValueOf(s, owned))[r := WithWeight(old(ValueOf(s, owned))[r], weight)]
  {
    d.SetWeight(weight);
    forall i | 0 <= i < |s| && i != r
      ensures s[i] != null ==> s[i].Valid() && RouteValueOf(s[i]) == old(RouteValueOf(s[i]))
    {
      assert old(RouteRepr(s[i])) !! old(RouteRepr(s[r]));
    }
    forall i, j | 0 <= i < j < |s|
      ensures RouteRepr(s[i]) !! RouteRepr(s[j])
    {
      assert old(RouteRepr(s[i])) !! old(RouteRepr(s[j]));
    }
  }

  /** Go's append to a slice without spare capacity: a new backing array. */
  method AppendRoute(a: array?<RoutePtr>, len: nat, d: HTTPRouteDestination) returns (b: array<RoutePtr>)
    requires if a == null then len == 0 else len <= a.Length
    ensures fresh(b) && b[..] == (if a == null then [] else a[..len]) + [d]
  {
    b := new RoutePtr[len + 1](_ => d);
    for i := 0 to len
      invariant b[len] == d && a != null ==> b[..i] == a[..i]
      invariant b[len] == d
    {
      b[i] := a[i];
    }
  }

  /** Go's append(s[:k], s[k+1:]...): the tail moves down by one in the same backing array. */
  method CutRoute(a: array<RoutePtr>, len: nat, k: nat)
    requires k < len <= a.Length
    modifies a
    ensures a[..len - 1] == old(a[..k]) + old(a[k + 1..len])
  {
    for i := k to len - 1
      invariant a[..k] == old(a[..k])
      invariant forall j :: k <= j < i ==> a[j] == old(a[j + 1])
      invariant forall j :: i <= j < a.Length ==> a[j] == old(a[j])
    {
      a[i] := a[i + 1];
    }
  }

  /** The values of a slice with one entry cut out. */
  lemma CutValues(s: seq<RoutePtr>, owned: set<object>, k: nat)
    requires k < |s| && Within(s, owned) && Separate(s, owned)
    ensures Within(s[..k] + s[k + 1..], owned) && Separate(s[..k] + s[k + 1..], owned)
    ensures ValueOf(s[..k] + s[k + 1..], owned) == ValueOf(s, owned)[..k] + ValueOf(s, owned)[k + 1..]
  {
  }
}
