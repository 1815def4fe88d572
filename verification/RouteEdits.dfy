/**
 What the two searches find and the two edits write, spelled out route by route. Nothing here is said in
 terms of the functions that search and edit.
 */
module RouteEdits {
  import opened Wrappers
  import opened VirtualServiceValues

  // ----- the searches

  predicate Leads(r: Option<RouteValue>, host: string) {
    r.Some? && r.value.destination.Some? && r.value.destination.value.host == host
  }

  /** Route `i` is the first that leads to `host`. */
  predicate IsFirst(rs: Routes, i: nat, host: string) {
    i < |rs| && Leads(rs[i], host) && forall j :: 0 <= j < i ==> !Leads(rs[j], host)
  }

  lemma LeadsIsHost(r: Option<RouteValue>, host: string)
    ensures Leads(r, host) <==> HostIs(r, host)
  {
  }

  /** A search among routes finds the first, or nothing exactly when no route leads there. */
  lemma RouteFound(rs: Routes, host: string)
    ensures FindRoute(rs, host) == -1 <==> forall j :: 0 <= j < |rs| ==> !Leads(rs[j], host)
    ensures FindRoute(rs, host) != -1 ==> IsFirst(rs, FindRoute(rs, host), host)
  {
    FindRouteFirst(rs, host);
    forall j | 0 <= j < |rs|
      ensures Leads(rs[j], host) <==> HostIs(rs[j], host)
    {
      LeadsIsHost(rs[j], host);
    }
  }

  /** The routes of a block, of which a nil one has none. */
  function RoutesIn(b: Option<BlockValue>): Routes {
    if b.Some? && b.value.route.Some? then b.value.route.value else []
  }

  /** Route `i` of block `h` is the first of the whole object that leads to `svc`. */
  predicate IsFirstOfAll(v: SpecValue, h: nat, i: nat, svc: string) {
    && v.http.Some? && h < |v.http.value| && IsFirst(RoutesIn(v.http.value[h]), i, svc)
    && forall g, j :: 0 <= g < h && 0 <= j < |RoutesIn(v.http.value[g])| ==> !Leads(RoutesIn(v.http.value[g])[j], svc)
  }

  lemma BlockFound(v: SpecValue, svc: string)
    requires Configured(v, svc)
    ensures var h := FindBlock(BlocksOf(v), svc); IsFirstOfAll(v, h, FindRoute(ServiceRoutes(v, svc), svc), svc)
  {
    var h := FindBlock(BlocksOf(v), svc);
    FindBlockFirst(BlocksOf(v), svc);
    forall g | 0 <= g <= h
      ensures RoutesIn(v.http.value[g]) == RoutesOf(BlocksOf(v)[g])
    {
    }
    RouteFound(RoutesOf(BlocksOf(v)[h]), svc);
    forall g, j | 0 <= g < h && 0 <= j < |RoutesIn(v.http.value[g])|
      ensures !Leads(RoutesIn(v.http.value[g])[j], svc)
    {
      RouteFound(RoutesOf(BlocksOf(v)[g]), svc);
    }
  }

  // ----- the edits

  /** The two objects differ in the routes of block `h` only. */
  predicate SameBeside(v: SpecValue, w: SpecValue, h: nat) {
    && v.http.Some? && w.http.Some? && w.others == v.others
    && h < |v.http.value| == |w.http.value|
    && (forall g :: 0 <= g < |v.http.value| && g != h ==> w.http.value[g] == v.http.value[g])
    && v.http.value[h].Some? && w.http.value[h].Some?
    && w.http.value[h].value.timeout == v.http.value[h].value.timeout
    && w.http.value[h].value.others == v.http.value[h].value.others
  }

  /**
   What a split of canary `c` writes beside route `i`: that route has ten percent less, or 90 left of a
   weight that was never set, and behind all others there is one that leads to the canary with weight 10.
   */
  predicate Shared(rs: Routes, rs': Routes, i: nat, c: string) {
    && |rs'| == |rs| + 1 && i < |rs| && rs[i].Some? && rs'[i].Some?
    && (forall j :: 0 <= j < |rs| && j != i ==> rs'[j] == rs[j])
    && rs'[i].value == rs[i].value.(weight := if rs[i].value.weight == 0 then 90 else rs[i].value.weight - 10)
    && rs'[|rs|].Some?
    && var added := rs'[|rs|].value;
       && added.destination == Some(DestinationValue(c, "", None)) && added.weight == 10
       && added.headers.None? && added.others.None?
  }

  /** What a merge writes: route `k` is gone, route `i` has its weight, and the others are as they were. */
  predicate Returned(rs: Routes, rs': Routes, i: nat, k: nat) {
    && |rs'| == |rs| - 1 && i < |rs| && k < |rs| && i != k && rs[i].Some? && rs[k].Some?
    && forall j :: 0 <= j < |rs'| ==>
         var b := if j < k then j else j + 1;
         rs'[j] == if b == i then Some(rs[i].value.(weight := rs[i].value.weight + rs[k].value.weight)) else rs[b]
  }

  /** Where a split is made it takes from the first route of the service, and adds the canary's. */
  lemma SplitWrites(v: SpecValue, svc: string, c: string)
    requires OpFits(v, SplitOp(c, svc))
    ensures var h, i, w := FindBlock(BlocksOf(v), svc), FindRoute(ServiceRoutes(v, svc), svc), Split(v, svc, c);
            && IsFirstOfAll(v, h, i, svc) && SameBeside(v, w, h)
            && Shared(RoutesIn(v.http.value[h]), RoutesIn(w.http.value[h]), i, c)
  {
    BlockFound(v, svc);
  }

  /** Where a merge is made it gives the weight of the canary's first route to the first of the service. */
  lemma MergeWrites(v: SpecValue, svc: string, c: string)
    requires OpFits(v, MergeOp(c, svc)) && c != svc
    ensures var h, i, w := FindBlock(BlocksOf(v), svc), FindRoute(ServiceRoutes(v, svc), svc), Merge(v, svc, c);
            var k := FindRoute(ServiceRoutes(v, svc), c);
            && IsFirstOfAll(v, h, i, svc) && SameBeside(v, w, h) && IsFirst(RoutesIn(v.http.value[h]), k, c)
            && Returned(RoutesIn(v.http.value[h]), RoutesIn(w.http.value[h]), i, k)
  {
    BlockFound(v, svc);
    RouteFound(ServiceRoutes(v, svc), c);
  }
}
