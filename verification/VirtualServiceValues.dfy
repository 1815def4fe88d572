/**
 Values of Istio VirtualService objects, nil entries included, and the two edits the canary
 controller makes to them: giving a canary a share of the traffic (`Split`) and taking it back
 (`Merge`). Both are pure functions here; the in-place code is proved equal to them in
 VirtualServices, and what they mean for the shares of traffic is proved in TrafficShares.
 */
module VirtualServiceValues {
  import opened Wrappers

  // ----- the object graph as a value; None stands for a nil pointer, slice or map

  datatype HeaderOperationsValue = HeaderOperationsValue(
    sets: Option<map<string, string>>, add: Option<map<string, string>>, remove: Option<seq<string>>)

  datatype HeadersValue = HeadersValue(
    request: Option<HeaderOperationsValue>, response: Option<HeaderOperationsValue>)

  /** A struct, slice or map that the controller does not look into; None stands for nil. */
  datatype Tree = Tree(scalars: seq<string>, children: seq<Option<Tree>>)

  datatype PortValue = PortValue(number: nat, name: string)

  datatype DestinationValue = DestinationValue(host: string, subset: string, port: Option<PortValue>)

  /** `others` stands for all fields that the model does not name, here and below. */
  datatype RouteValue = RouteValue(
    destination: Option<DestinationValue>, weight: int, headers: Option<HeadersValue>, others: Option<Tree>)

  datatype BlockValue = BlockValue(route: Option<seq<Option<RouteValue>>>, timeout: string, others: Option<Tree>)

  datatype SpecValue = SpecValue(http: Option<seq<Option<BlockValue>>>, others: Option<Tree>)

  type Routes = seq<Option<RouteValue>>
  type Blocks = seq<Option<BlockValue>>

  function BlocksOf(vs: SpecValue): Blocks {
    vs.http.GetOr([])
  }

  function RoutesOf(b: Option<BlockValue>): Routes {
    if b.Some? then b.value.route.GetOr([]) else []
  }

  predicate HostIs(r: Option<RouteValue>, host: string) {
    r.Some? && r.value.destination.Some? && r.value.destination.value.host == host
  }

  function WeightOf(r: Option<RouteValue>): int {
    if r.Some? then r.value.weight else 0
  }

  function WithWeight(r: Option<RouteValue>, weight: int): Option<RouteValue> {
    if r.Some? then Some(r.value.(weight := weight)) else None
  }

  // ----- searching

  /** Index of the first route to `host`, or -1. */
  function FindRoute(rs: Routes, host: string): (i: int)
    ensures -1 <= i < |rs|
    ensures i != -1 ==> HostIs(rs[i], host)
  {
    if rs == [] then -1
    else if HostIs(rs[0], host) then 0
    else
      var i := FindRoute(rs[1..], host);
      if i == -1 then -1 else i + 1
  }

  /** Index of the first http block holding a route to `host`, or -1. */
  function FindBlock(bs: Blocks, host: string): (i: int)
    ensures -1 <= i < |bs|
    ensures i != -1 ==> FindRoute(RoutesOf(bs[i]), host) != -1
  {
    if bs == [] then -1
    else if FindRoute(RoutesOf(bs[0]), host) != -1 then 0
    else
      var i := FindBlock(bs[1..], host);
      if i == -1 then -1 else i + 1
  }

  lemma {:induction false} FindRouteFirst(rs: Routes, host: string)
    ensures var i := FindRoute(rs, host);
            forall j :: 0 <= j < (if i == -1 then |rs| else i) ==> !HostIs(rs[j], host)
  {
    if rs != [] && !HostIs(rs[0], host) {
      FindRouteFirst(rs[1..], host);
      assert forall j :: 1 <= j < |rs| ==> rs[j] == rs[1..][j - 1];
    }
  }

  lemma {:induction false} FindBlockFirst(bs: Blocks, host: string)
    ensures var i := FindBlock(bs, host);
            forall j :: 0 <= j < (if i == -1 then |bs| else i) ==> FindRoute(RoutesOf(bs[j]), host) == -1
  {
    if bs != [] && FindRoute(RoutesOf(bs[0]), host) == -1 {
      FindBlockFirst(bs[1..], host);
      assert forall j :: 1 <= j < |bs| ==> bs[j] == bs[1..][j - 1];
    }
  }

  lemma FindRouteUnique(rs: Routes, host: string, i: int)
    requires -1 <= i < |rs| && (i != -1 ==> HostIs(rs[i], host))
    requires forall j :: 0 <= j < (if i == -1 then |rs| else i) ==> !HostIs(rs[j], host)
    ensures FindRoute(rs, host) == i
  {
    FindRouteFirst(rs, host);
  }

  lemma FindBlockUnique(bs: Blocks, host: string, i: int)
    requires -1 <= i < |bs| && (i != -1 ==> FindRoute(RoutesOf(bs[i]), host) != -1)
    requires forall j :: 0 <= j < (if i == -1 then |bs| else i) ==> FindRoute(RoutesOf(bs[j]), host) == -1
    ensures FindBlock(bs, host) == i
  {
    FindBlockFirst(bs, host);
  }

  // ----- where the searches would follow a nil pointer

  predicate HasHost(r: Option<RouteValue>) {
    r.Some? && r.value.destination.Some?
  }

  predicate NoNilRoutes(rs: Routes) {
    forall i :: 0 <= i < |rs| ==> HasHost(rs[i])
  }

  /** No nil pointer on the way to the first match, or to the end when there is none. */
  predicate Searchable(rs: Routes, host: string) {
    forall i :: 0 <= i < |rs| && (FindRoute(rs, host) == -1 || i < FindRoute(rs, host)) ==> HasHost(rs[i])
  }

  /** How many blocks the search for `host` enters. */
  function Entered(bs: Blocks, host: string): (n: nat)
    ensures n <= |bs|
  {
    if FindBlock(bs, host) == -1 then |bs| else FindBlock(bs, host) + 1
  }

  predicate SearchableBlocks(bs: Blocks, host: string) {
    forall i :: 0 <= i < Entered(bs, host) ==> bs[i].Some? && Searchable(RoutesOf(bs[i]), host)
  }

  /** No nil pointer in the blocks that the search for a service enters, whichever host is then looked for. */
  predicate Readable(vs: SpecValue, svc: string) {
    forall i :: 0 <= i < Entered(BlocksOf(vs), svc) ==> BlocksOf(vs)[i].Some? && NoNilRoutes(RoutesOf(BlocksOf(vs)[i]))
  }

  /** What the controller's two searches ask of a VirtualService in which the canary has no route, and no more. */
  lemma ReadableIffSearchable(vs: SpecValue, svc: string, c: string)
    requires !HasRoute(vs, svc, c)
    ensures Readable(vs, svc) <==> SearchableBlocks(BlocksOf(vs), svc) && Searchable(ServiceRoutes(vs, svc), c)
  {
    var bs, h := BlocksOf(vs), FindBlock(BlocksOf(vs), svc);
    FindBlockFirst(bs, svc);
    if SearchableBlocks(bs, svc) && Searchable(ServiceRoutes(vs, svc), c) {
      forall i | 0 <= i < Entered(bs, svc)
        ensures NoNilRoutes(RoutesOf(bs[i]))
      {
        assert Searchable(RoutesOf(bs[i]), if i == h then c else svc);
      }
    }
  }

  lemma ReadableSearches(vs: SpecValue, svc: string, c: string)
    requires Readable(vs, svc)
    ensures SearchableBlocks(BlocksOf(vs), svc) && Searchable(ServiceRoutes(vs, svc), c)
  {
  }

  /** The routes of the block that carries service `svc`, or none when no block does. */
  function ServiceRoutes(vs: SpecValue, svc: string): Routes {
    var h := FindBlock(BlocksOf(vs), svc);
    if h == -1 then [] else RoutesOf(BlocksOf(vs)[h])
  }

  predicate Configured(vs: SpecValue, svc: string) {
    FindBlock(BlocksOf(vs), svc) != -1
  }

  /** Canary `c` has a route in the block of its service `svc`. */
  predicate HasRoute(vs: SpecValue, svc: string, c: string) {
    FindRoute(ServiceRoutes(vs, svc), c) != -1
  }

  predicate AtMostOne(rs: Routes, host: string) {
    forall i, j :: 0 <= i < j < |rs| ==> !(HostIs(rs[i], host) && HostIs(rs[j], host))
  }

  lemma UnroutedAtMostOne(rs: Routes, host: string)
    requires FindRoute(rs, host) == -1
    ensures AtMostOne(rs, host)
  {
    FindRouteFirst(rs, host);
  }

  // ----- the two edits

  function CanaryRoute(c: string): Option<RouteValue> {
    Some(RouteValue(Some(DestinationValue(c, "", None)), 10, None, None))
  }

  /** Weight left on the base route after a split; weight 0 is a route that has never been weighted. */
  function SplitWeight(w: int): int {
    if w == 0 then 90 else w - 10
  }

  /** Take from the route at `r` and append a route to `c`. */
  function ShareOut(rs: Routes, r: nat, c: string): Routes
    requires r < |rs|
  {
    rs[r := WithWeight(rs[r], SplitWeight(WeightOf(rs[r])))] + [CanaryRoute(c)]
  }

  /** Give the weight of the route at `k` to the route at `r` and drop `k`. */
  function TakeBack(rs: Routes, r: nat, k: nat): Routes
    requires r < |rs| && k < |rs|
  {
    var rs' := rs[r := WithWeight(rs[r], WeightOf(rs[r]) + WeightOf(rs[k]))];
    rs'[..k] + rs'[k + 1..]
  }

  function SplitRoutes(rs: Routes, svc: string, c: string): Routes
    requires FindRoute(rs, svc) != -1
  {
    ShareOut(rs, FindRoute(rs, svc), c)
  }

  function MergeRoutes(rs: Routes, svc: string, c: string): Routes
    requires FindRoute(rs, svc) != -1 && FindRoute(rs, c) != -1
  {
    TakeBack(rs, FindRoute(rs, svc), FindRoute(rs, c))
  }

  function ReplaceRoutes(bs: Blocks, h: nat, rs: Routes): Blocks
    requires h < |bs| && bs[h].Some?
  {
    bs[h := Some(bs[h].value.(route := Some(rs)))]
  }

  function WithRoutes(vs: SpecValue, h: nat, rs: Routes): SpecValue
    requires h < |BlocksOf(vs)| && BlocksOf(vs)[h].Some?
  {
    vs.(http := Some(ReplaceRoutes(BlocksOf(vs), h, rs)))
  }

  /** Give canary `c` a ten percent route beside the base route of `svc`. */
  function Split(vs: SpecValue, svc: string, c: string): SpecValue {
    var h := FindBlock(BlocksOf(vs), svc);
    if h == -1 then vs else WithRoutes(vs, h, SplitRoutes(RoutesOf(BlocksOf(vs)[h]), svc, c))
  }

  /** Give the weight of canary `c` back to the base route of `svc` and drop the canary's route. */
  function Merge(vs: SpecValue, svc: string, c: string): SpecValue {
    var h := FindBlock(BlocksOf(vs), svc);
    if h == -1 || FindRoute(RoutesOf(BlocksOf(vs)[h]), c) == -1 then vs
    else WithRoutes(vs, h, MergeRoutes(RoutesOf(BlocksOf(vs)[h]), svc, c))
  }

  lemma MergeIdle(vs: SpecValue, svc: string, c: string)
    requires !HasRoute(vs, svc, c)
    ensures Merge(vs, svc, c) == vs
  {
  }

  datatype Op = SplitOp(canary: string, svc: string) | MergeOp(canary: string, svc: string)

  function ApplyOp(vs: SpecValue, op: Op): SpecValue {
    match op
    case SplitOp(c, svc) => Split(vs, svc, c)
    case MergeOp(c, svc) => Merge(vs, svc, c)
  }

  /** An edit is made only where it makes sense: a split where the canary has no route, a merge where it has one. */
  predicate OpFits(vs: SpecValue, op: Op) {
    match op
    case SplitOp(c, svc) => Configured(vs, svc) && !HasRoute(vs, svc, c)
    case MergeOp(c, svc) => HasRoute(vs, svc, c)
  }

  /** The edited block, whichever edit it is. */
  function EditRoutes(rs: Routes, op: Op): Routes
    requires FindRoute(rs, op.svc) != -1 && (op.MergeOp? ==> FindRoute(rs, op.canary) != -1)
  {
    match op
    case SplitOp(c, svc) => SplitRoutes(rs, svc, c)
    case MergeOp(c, svc) => MergeRoutes(rs, svc, c)
  }

  // ----- what an edit does to other canaries, other services and other blocks

  lemma SplitAt(rs: Routes, svc: string, c: string, j: int, host: string)
    requires FindRoute(rs, svc) != -1 && 0 <= j <= |rs|
    ensures |SplitRoutes(rs, svc, c)| == |rs| + 1
    ensures HostIs(SplitRoutes(rs, svc, c)[j], host) <==> if j < |rs| then HostIs(rs[j], host) else host == c
  {
  }

  /** A split leaves every other host's first route where it was and gives the canary the last one. */
  lemma SplitFind(rs: Routes, svc: string, c: string, host: string)
    requires FindRoute(rs, svc) != -1
    ensures host != c ==> FindRoute(SplitRoutes(rs, svc, c), host) == FindRoute(rs, host)
    ensures host == c && FindRoute(rs, c) == -1 ==> FindRoute(SplitRoutes(rs, svc, c), c) == |rs|
    ensures (host == c ==> FindRoute(rs, c) == -1) && AtMostOne(rs, host) ==> AtMostOne(SplitRoutes(rs, svc, c), host)
  {
    var out := SplitRoutes(rs, svc, c);
    forall j | 0 <= j <= |rs|
      ensures HostIs(out[j], host) <==> if j < |rs| then HostIs(rs[j], host) else host == c
    {
      SplitAt(rs, svc, c, j, host);
    }
    FindRouteFirst(rs, host);
    if host != c || FindRoute(rs, c) == -1 {
      FindRouteUnique(out, host, if host == c then |rs| else FindRoute(rs, host));
    }
  }

  /** Where the merged block's `j`-th route was before the merge of the canary at `k`. */
  function Before(j: int, k: int): int {
    if j < k then j else j + 1
  }

  lemma MergeAt(rs: Routes, svc: string, c: string, j: int, host: string)
    requires FindRoute(rs, svc) != -1 && FindRoute(rs, c) != -1 && 0 <= j < |rs| - 1
    ensures |MergeRoutes(rs, svc, c)| == |rs| - 1
    ensures HostIs(MergeRoutes(rs, svc, c)[j], host) <==> HostIs(rs[Before(j, FindRoute(rs, c))], host)
  {
  }

  /** A merge drops the canary's first route and keeps every other host's routes. */
  lemma MergeFind(rs: Routes, svc: string, c: string, host: string)
    requires FindRoute(rs, svc) != -1 && FindRoute(rs, c) != -1
    ensures host != c ==> (FindRoute(MergeRoutes(rs, svc, c), host) == -1 <==> FindRoute(rs, host) == -1)
    ensures host == c && AtMostOne(rs, c) ==> FindRoute(MergeRoutes(rs, svc, c), c) == -1
    ensures AtMostOne(rs, host) ==> AtMostOne(MergeRoutes(rs, svc, c), host)
  {
    var k, f := FindRoute(rs, c), FindRoute(rs, host);
    var out := MergeRoutes(rs, svc, c);
    forall j | 0 <= j < |rs| - 1
      ensures HostIs(out[j], host) <==> HostIs(rs[Before(j, k)], host)
    {
      MergeAt(rs, svc, c, j, host);
    }
    FindRouteFirst(rs, c);
    FindRouteFirst(rs, host);
    FindRouteFirst(out, host);
    if host != c && f != -1 {
      assert HostIs(out[if f < k then f else f - 1], host);
    }
  }

  lemma EditNoNil(rs: Routes, op: Op)
    requires FindRoute(rs, op.svc) != -1 && (op.MergeOp? ==> FindRoute(rs, op.canary) != -1)
    requires NoNilRoutes(rs)
    ensures NoNilRoutes(EditRoutes(rs, op))
  {
  }

  /**
   Replacing the routes of block `h` leaves the search for `host` where it was, as long as the block's own
   answer stays.
   */
  lemma WithRoutesFind(vs: SpecValue, h: nat, rs: Routes, host: string)
    requires h < |BlocksOf(vs)| && BlocksOf(vs)[h].Some?
    requires FindRoute(rs, host) == -1 <==> FindRoute(RoutesOf(BlocksOf(vs)[h]), host) == -1
    ensures FindBlock(BlocksOf(WithRoutes(vs, h, rs)), host) == FindBlock(BlocksOf(vs), host)
  {
    SameAnswers(BlocksOf(vs), BlocksOf(WithRoutes(vs, h, rs)), host);
  }

  lemma SameAnswers(bs: Blocks, bs': Blocks, host: string)
    requires |bs| == |bs'|
    requires forall j :: 0 <= j < |bs| ==>
               (FindRoute(RoutesOf(bs'[j]), host) == -1 <==> FindRoute(RoutesOf(bs[j]), host) == -1)
    ensures FindBlock(bs', host) == FindBlock(bs, host)
  {
    FindBlockFirst(bs, host);
    FindBlockUnique(bs', host, FindBlock(bs, host));
  }

  lemma EditFind(rs: Routes, op: Op, host: string)
    requires FindRoute(rs, op.svc) != -1 && op.canary != op.svc
    requires op.MergeOp? <==> FindRoute(rs, op.canary) != -1
    ensures host != op.canary ==> (FindRoute(EditRoutes(rs, op), host) == -1 <==> FindRoute(rs, host) == -1)
    ensures op.SplitOp? ==> FindRoute(EditRoutes(rs, op), op.canary) != -1
    ensures op.MergeOp? && AtMostOne(rs, op.canary) ==> FindRoute(EditRoutes(rs, op), op.canary) == -1
    ensures AtMostOne(rs, host) ==> AtMostOne(EditRoutes(rs, op), host)
  {
    if op.SplitOp? {
      SplitFind(rs, op.svc, op.canary, host);
      SplitFind(rs, op.svc, op.canary, op.canary);
    } else {
      MergeFind(rs, op.svc, op.canary, host);
      MergeFind(rs, op.svc, op.canary, op.canary);
    }
  }

  lemma ApplyOpIsWithRoutes(vs: SpecValue, op: Op)
    requires OpFits(vs, op)
    ensures Configured(vs, op.svc) && FindRoute(ServiceRoutes(vs, op.svc), op.svc) != -1
    ensures var h := FindBlock(BlocksOf(vs), op.svc);
            && BlocksOf(vs)[h].Some?
            && ServiceRoutes(vs, op.svc) == RoutesOf(BlocksOf(vs)[h])
            && ApplyOp(vs, op) == WithRoutes(vs, h, EditRoutes(ServiceRoutes(vs, op.svc), op))
  {
  }

  /** An edit of one block, seen from any service: which block serves it, and what that block holds. */
  lemma OpBlocks(vs: SpecValue, op: Op, svc: string)
    requires OpFits(vs, op) && op.canary != op.svc && op.canary != svc
    ensures FindBlock(BlocksOf(ApplyOp(vs, op)), svc) == FindBlock(BlocksOf(vs), svc)
    ensures ServiceRoutes(ApplyOp(vs, op), svc) ==
            if Configured(vs, svc) && FindBlock(BlocksOf(vs), svc) == FindBlock(BlocksOf(vs), op.svc)
            then EditRoutes(ServiceRoutes(vs, svc), op) else ServiceRoutes(vs, svc)
  {
    ApplyOpIsWithRoutes(vs, op);
    EditFind(ServiceRoutes(vs, op.svc), op, svc);
    WithRoutesFind(vs, FindBlock(BlocksOf(vs), op.svc), EditRoutes(ServiceRoutes(vs, op.svc), op), svc);
  }

  /** An edit puts no nil pointer in the way of any service's search. */
  lemma OpReadable(vs: SpecValue, op: Op, svc: string)
    requires OpFits(vs, op) && op.canary != op.svc && op.canary != svc && Readable(vs, svc)
    ensures Readable(ApplyOp(vs, op), svc)
  {
    ApplyOpIsWithRoutes(vs, op);
    OpBlocks(vs, op, svc);
    if NoNilRoutes(ServiceRoutes(vs, op.svc)) {
      EditNoNil(ServiceRoutes(vs, op.svc), op);
    }
  }

  /** An edit, seen by canary `d` of service `svc`. */
  lemma OpEffect(vs: SpecValue, op: Op, svc: string, d: string)
    requires OpFits(vs, op) && op.canary != op.svc && op.canary != svc
    requires AtMostOne(ServiceRoutes(vs, svc), d)
    requires d == op.canary ==> svc == op.svc
    ensures FindBlock(BlocksOf(ApplyOp(vs, op)), svc) == FindBlock(BlocksOf(vs), svc)
    ensures HasRoute(ApplyOp(vs, op), svc, d) == if d == op.canary then op.SplitOp? else HasRoute(vs, svc, d)
    ensures AtMostOne(ServiceRoutes(ApplyOp(vs, op), svc), d)
  {
    OpBlocks(vs, op, svc);
    if Configured(vs, svc) && FindBlock(BlocksOf(vs), svc) == FindBlock(BlocksOf(vs), op.svc) {
      EditFind(ServiceRoutes(vs, svc), op, d);
    }
  }
}
