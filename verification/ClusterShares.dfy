/** The shares of traffic in every run of the protocol, for every block and every service. */
module ClusterShares {
  import opened Wrappers
  import opened VirtualServiceValues
  import opened BlockShares
  import opened TrafficShares
  import opened Protocol
  import opened Invariant
  import opened Safety

  /** The canaries of one service. */
  function CanariesOf(w: World, svc: string): set<string> {
    set c | c in w.cells && w.cells[c].service == svc
  }

  // ----- the edits of a run of the protocol

  lemma OpOfCanary(w: World, log: seq<Step>, end: World, op: Op)
    requires Initial(w) && Run(w, log) && end == Play(w, log) && op in end.ops
    ensures op.canary in CanariesOf(w, op.svc) && !HasRoute(w.vs.hist[0], op.svc, op.canary)
  {
    InitialInv(w);
    RunInv(w, log);
    RunGrows(w, log, 0);
    assert log[..0] == [];
    var c := op.canary;
    assert c in Services(end.cells);
    assert CellGrown(w.cells[c], end.cells[c]) && InitialCell(c, w.cells[c], w.vs.hist[0]);
  }

  lemma NamesApart(w: World, c: string, d: string)
    requires Named(Services(w.cells)) && c in w.cells && d in w.cells
    ensures c != w.cells[d].service
  {
    assert c in Services(w.cells) && d in Services(w.cells);
  }

  lemma OpsApart(w: World, log: seq<Step>, end: World, d: Op, e: Op)
    requires Initial(w) && Run(w, log) && end == Play(w, log) && d in end.ops && e in end.ops
    ensures TrafficShares.Apart(d, e)
  {
    OpOfCanary(w, log, end, d);
    OpOfCanary(w, log, end, e);
    NamesApart(w, d.canary, e.canary);
  }

  lemma OpsApartAll(w: World, log: seq<Step>, end: World, ops: seq<Op>)
    requires Initial(w) && Run(w, log) && end == Play(w, log) && ops == end.ops
    ensures Fresh(w.vs.hist[0], ops)
  {
    forall d, e | d in ops && e in ops
      ensures TrafficShares.Apart(d, e)
    {
      OpsApart(w, log, end, d, e);
    }
    forall op | op in ops
      ensures !HasRoute(w.vs.hist[0], op.svc, op.canary)
    {
      OpOfCanary(w, log, end, op);
    }
  }

  lemma RunIsFresh(w: World, log: seq<Step>, end: World)
    requires Initial(w) && Run(w, log) && end == Play(w, log)
    ensures Fresh(w.vs.hist[0], end.ops) && RunFits(w.vs.hist[0], end.ops)
  {
    VersionsAreSequentialRun(w, log);
    OpsApartAll(w, log, end, end.ops);
  }

  /** No edit is for a canary that is named like the service of canary `d`. */
  lemma NotTheService(w: World, log: seq<Step>, end: World, d: string)
    requires Initial(w) && Run(w, log) && end == Play(w, log) && d in w.cells
    ensures forall op :: op in end.ops ==> op.canary != w.cells[d].service
  {
    forall op | op in end.ops
      ensures op.canary != w.cells[d].service
    {
      OpOfCanary(w, log, end, op);
      NamesApart(w, op.canary, d);
    }
  }

  lemma OneOwner(w: World, log: seq<Step>, end: World, c: string)
    requires Initial(w) && Run(w, log) && end == Play(w, log) && c in w.cells
    ensures forall op :: op in end.ops && op.canary == c ==> op.svc == w.cells[c].service
  {
    forall op | op in end.ops && op.canary == c
      ensures op.svc == w.cells[c].service
    {
      OpOfCanary(w, log, end, op);
    }
  }

  lemma VersionOfRun(w: World, log: seq<Step>, end: World, n: nat)
    requires Initial(w) && Run(w, log) && end == Play(w, log)
    ensures |end.vs.hist| == |end.ops| + 1
    ensures n < |end.vs.hist| ==> end.vs.hist[n] == ApplyOps(w.vs.hist[0], end.ops[..n])
  {
    VersionsAreSequentialRun(w, log);
  }

  lemma LatestVersion(w: World, log: seq<Step>, end: World)
    requires Initial(w) && Run(w, log) && end == Play(w, log)
    ensures end.vs.Valid() && end.vs.Latest() == ApplyOps(w.vs.hist[0], end.ops)
  {
    InitialInv(w);
    RunInv(w, log);
    VersionOfRun(w, log, end, |end.ops|);
    WholePrefix(end.ops);
  }

  // ----- how many canaries are active

  lemma {:induction false} ActiveIsSplit(ops: seq<Op>, svc: string, c: string)
    requires c in Active(ops, svc)
    ensures SplitOp(c, svc) in ops
  {
    var pre, op := ops[..|ops| - 1], ops[|ops| - 1];
    if c in Active(pre, svc) {
      ActiveIsSplit(pre, svc, c);
    } else if op.MergeOp? {
      RemoveSubset(Active(pre, svc), op.canary, c);
    }
  }

  lemma DistinctFit(names: seq<string>, all: set<string>)
    requires forall c :: c in names ==> c in all
    requires forall c :: multiset(names)[c] <= 1
    ensures |names| <= |all|
  {
    assert multiset(names) <= multiset(all);
    CardinalityMonotone(multiset(names), multiset(all));
  }

  lemma CardinalityMonotone(a: multiset<string>, b: multiset<string>)
    requires a <= b
    ensures |a| <= |b|
  {
    assert b == a + (b - a);
  }

  /** No canary of the cluster is active twice. */
  lemma ActiveOnce(w: World, log: seq<Step>, end: World, svc: string, n: nat, c: string)
    requires Initial(w) && Run(w, log) && end == Play(w, log) && n <= |end.ops|
    requires c in CanariesOf(w, svc) && Configured(w.vs.hist[0], svc)
    ensures multiset(Active(end.ops[..n], svc))[c] <= 1
  {
    var v, ops := w.vs.hist[0], end.ops[..n];
    RunIsFresh(w, log, end);
    OpsPrefix(v, end.ops, n);
    assert forall op :: op in ops ==> op in end.ops;
    NotTheService(w, log, end, c);
    OneOwner(w, log, end, c);
    assert InitialCell(c, w.cells[c], v);
    ActiveIffRouted(v, ops, svc, c);
  }

  lemma FewActive(w: World, log: seq<Step>, end: World, svc: string, n: nat)
    requires Initial(w) && Run(w, log) && end == Play(w, log) && n <= |end.ops| && Configured(w.vs.hist[0], svc)
    ensures |Active(end.ops[..n], svc)| <= |CanariesOf(w, svc)|
  {
    var ops := end.ops[..n];
    forall c | c in Active(ops, svc)
      ensures c in CanariesOf(w, svc) && multiset(Active(ops, svc))[c] <= 1
    {
      ActiveIsSplit(ops, svc, c);
      assert SplitOp(c, svc) in end.ops;
      OpOfCanary(w, log, end, SplitOp(c, svc));
      ActiveOnce(w, log, end, svc, n, c);
    }
    DistinctFit(Active(ops, svc), CanariesOf(w, svc));
  }

  /** A service with no more canaries than its base share has tens never overspends. */
  lemma FewCanariesFit(w: World, log: seq<Step>, end: World, svc: string)
    requires Initial(w) && Run(w, log) && end == Play(w, log) && Configured(w.vs.hist[0], svc)
    requires |CanariesOf(w, svc)| <= Share(w.vs.hist[0], svc) / 10
    ensures WithinShare(w.vs.hist[0], svc, end.ops)
  {
    forall n | 0 <= n <= |end.ops|
      ensures |Active(end.ops[..n], svc)| <= Share(w.vs.hist[0], svc) / 10
    {
      FewActive(w, log, end, svc, n);
    }
  }

  /** Every service of block `h` has no more canaries than its base weight has tens. */
  ghost predicate FewCanaries(w: World, h: nat)
    requires |w.vs.hist| > 0
  {
    forall svc :: Base(w.vs.hist[0], h, svc) != -1 ==>
      |CanariesOf(w, svc)| <= WeightOf(BlockRoutes(w.vs.hist[0], h)[Base(w.vs.hist[0], h, svc)]) / 10
  }

  lemma FewCanariesWithinBudget(w: World, log: seq<Step>, end: World, h: nat)
    requires Initial(w) && Run(w, log) && end == Play(w, log) && FewCanaries(w, h)
    ensures WithinBudget(w.vs.hist[0], h, end.ops)
  {
    var v := w.vs.hist[0];
    forall n, svc | 0 <= n <= |end.ops| && Base(v, h, svc) != -1
      ensures |Active(end.ops[..n], svc)| <= WeightOf(BlockRoutes(v, h)[Base(v, h, svc)]) / 10
    {
      FewActive(w, log, end, svc, n);
    }
  }

  // ----- the weight bound

  /** Block `h` is sound in every version of a history. */
  ghost predicate SoundHistory(hist: seq<SpecValue>, h: nat) {
    forall n :: 0 <= n < |hist| ==> Sound(BlockRoutes(hist[n], h))
  }

  /** The weight bound for the cluster, exactly, in a block that is sound at first. */
  lemma ClusterSoundIff(w: World, log: seq<Step>, end: World, h: nat)
    requires Initial(w) && Run(w, log) && end == Play(w, log) && Sound(BlockRoutes(w.vs.hist[0], h))
    ensures SoundHistory(end.vs.hist, h) <==> WithinBudget(w.vs.hist[0], h, end.ops)
  {
    RunIsFresh(w, log, end);
    SoundIffWithinBudget(w.vs.hist[0], h, end.ops);
    VersionOfRun(w, log, end, 0);
    forall n | 0 <= n <= |end.ops|
      ensures end.vs.hist[n] == ApplyOps(w.vs.hist[0], end.ops[..n])
    {
      VersionOfRun(w, log, end, n);
    }
  }

  /** Block `h` is sound in every version of a history from its first edit on. */
  ghost predicate SoundOnceSplit(hist: seq<SpecValue>, h: nat, es: seq<Edit>) {
    forall n :: 0 <= n < |hist| && n <= |es| && Begun(es[..n]) ==> Sound(BlockRoutes(hist[n], h))
  }

  /** The weight bound for the cluster, exactly, in a block whose weights nobody has set. */
  lemma ClusterSoundIffOnePays(w: World, log: seq<Step>, end: World, h: nat)
    requires Initial(w) && Run(w, log) && end == Play(w, log) && BlockShares.Unset(BlockRoutes(w.vs.hist[0], h))
    ensures SoundOnceSplit(end.vs.hist, h, EditsOf(w.vs.hist[0], h, end.ops)) <==>
            OneServicePays(w.vs.hist[0], h, end.ops)
  {
    RunIsFresh(w, log, end);
    SoundIffOneServicePays(w.vs.hist[0], h, end.ops);
    VersionOfRun(w, log, end, 0);
    forall n | 0 <= n <= |end.ops|
      ensures end.vs.hist[n] == ApplyOps(w.vs.hist[0], end.ops[..n])
    {
      VersionOfRun(w, log, end, n);
    }
  }

  /** All canaries whose service is in block `h` are of one service, ten of them at most. */
  ghost predicate OneServiceOfTen(w: World, h: nat, svc: string)
    requires |w.vs.hist| > 0
  {
    && (forall c :: c in w.cells && Base(w.vs.hist[0], h, w.cells[c].service) != -1 ==> w.cells[c].service == svc)
    && |CanariesOf(w, svc)| <= 10
  }

  lemma TenAtMost(w: World, log: seq<Step>, end: World, h: nat, svc: string, n: nat, s: string)
    requires Initial(w) && Run(w, log) && end == Play(w, log) && OneServiceOfTen(w, h, svc)
    requires n <= |end.ops| && Base(w.vs.hist[0], h, s) != -1
    ensures |Active(end.ops[..n], s)| <= 10
  {
    FewActive(w, log, end, s, n);
    if s != svc {
      assert CanariesOf(w, s) == {};
    }
  }

  lemma OneServiceOfTenPays(w: World, log: seq<Step>, end: World, h: nat, svc: string)
    requires Initial(w) && Run(w, log) && end == Play(w, log) && OneServiceOfTen(w, h, svc)
    ensures OneServicePays(w.vs.hist[0], h, end.ops)
  {
    forall op | op in end.ops && Base(w.vs.hist[0], h, op.svc) != -1
      ensures op.svc == svc
    {
      OpOfCanary(w, log, end, op);
    }
    forall n, s | 0 <= n <= |end.ops| && Base(w.vs.hist[0], h, s) != -1
      ensures |Active(end.ops[..n], s)| <= 10
    {
      TenAtMost(w, log, end, h, svc, n, s);
    }
  }

  lemma SharePrefix(v: SpecValue, svc: string, ops: seq<Op>, n: nat)
    requires Configured(v, svc) && WithinShare(v, svc, ops) && n <= |ops|
    ensures WithinShare(v, svc, ops[..n])
  {
    assert forall k :: 0 <= k <= n ==> ops[..n][..k] == ops[..k];
  }

  /** The base weight of a version, for the service of canary `d`. */
  lemma ClusterBaseWeight(w: World, d: string, svc: string, log: seq<Step>, end: World, n: nat)
    requires Initial(w) && Run(w, log) && end == Play(w, log) && n < |end.vs.hist|
    requires d in w.cells && svc == w.cells[d].service && Configured(w.vs.hist[0], svc)
    ensures n <= |end.ops| && Configured(end.vs.hist[n], svc)
    ensures Accounted(w.vs.hist[0], svc, end.ops[..n], end.vs.hist[n]) <==>
              NeverSpent(w.vs.hist[0], svc, end.ops[..n])
    ensures WithinShare(w.vs.hist[0], svc, end.ops) ==> NeverSpent(w.vs.hist[0], svc, end.ops[..n])
  {
    VersionOfRun(w, log, end, n);
    RunIsFresh(w, log, end);
    OpsPrefix(w.vs.hist[0], end.ops, n);
    if WithinShare(w.vs.hist[0], svc, end.ops) {
      SharePrefix(w.vs.hist[0], svc, end.ops, n);
    }
    NotTheService(w, log, end, d);
    assert forall op :: op in end.ops[..n] ==> op in end.ops;
    BaseWeightOfRun(w.vs.hist[0], svc, end.ops[..n]);
  }

  // ----- the round trip

  /** The canaries of a service have all been cleaned up. */
  ghost predicate AllCleaned(w: World, svc: string) {
    forall c :: c in w.cells && w.cells[c].service == svc ==> w.cells[c].cfg.Valid() && CleanedUp(w.cells[c])
  }

  lemma CleanedIsUnrouted(w: World, log: seq<Step>, end: World, c: string)
    requires Initial(w) && Run(w, log) && end == Play(w, log) && c in w.cells
    requires AllCleaned(end, w.cells[c].service)
    ensures end.vs.Valid() && !HasRoute(end.vs.Latest(), w.cells[c].service, c)
  {
    assert log[..|log|] == log && log[..0] == [];
    TwoMoments(w, log, 0, c, w, end);
    NothingLeftBehind(w, log, |log|, c, end, end);
  }

  lemma ActiveHasRoute(w: World, log: seq<Step>, end: World, svc: string, c: string)
    requires Initial(w) && Run(w, log) && end == Play(w, log) && Configured(w.vs.hist[0], svc)
    requires c in Active(end.ops, svc)
    ensures c in CanariesOf(w, svc) && HasRoute(ApplyOps(w.vs.hist[0], end.ops), svc, c)
  {
    ActiveIsSplit(end.ops, svc, c);
    OpOfCanary(w, log, end, SplitOp(c, svc));
    RunIsFresh(w, log, end);
    NotTheService(w, log, end, c);
    OneOwner(w, log, end, c);
    assert InitialCell(c, w.cells[c], w.vs.hist[0]);
    ActiveIffRouted(w.vs.hist[0], end.ops, svc, c);
  }

  lemma NoneActive(w: World, log: seq<Step>, end: World, svc: string)
    requires Initial(w) && Run(w, log) && end == Play(w, log) && Configured(w.vs.hist[0], svc) && AllCleaned(end, svc)
    ensures Active(end.ops, svc) == []
  {
    LatestVersion(w, log, end);
    if Active(end.ops, svc) != [] {
      var c := Active(end.ops, svc)[0];
      ActiveHasRoute(w, log, end, svc, c);
      CleanedIsUnrouted(w, log, end, c);
    }
  }

  /** The canaries of every service of block `h` that was edited are all cleaned up. */
  ghost predicate AllReturned(first: SpecValue, h: nat, end: World) {
    forall svc :: Base(first, h, svc) != -1 && Touched(end.ops, svc) ==> AllCleaned(end, svc)
  }

  /** Every service of block `h` that was edited has kept within its share. */
  ghost predicate AllWithinShare(first: SpecValue, h: nat, ops: seq<Op>) {
    forall svc :: Base(first, h, svc) != -1 && Touched(ops, svc) ==> WithinShare(first, svc, ops)
  }

  /** The round trip of one block. */
  lemma ClusterRoundTrip(w: World, log: seq<Step>, end: World, h: nat)
    requires Initial(w) && Run(w, log) && end == Play(w, log) && AllReturned(w.vs.hist[0], h, end)
    ensures end.vs.Valid()
    ensures BlockRoutes(end.vs.Latest(), h) ==
              Restored(BlockRoutes(w.vs.hist[0], h), EditsOf(w.vs.hist[0], h, end.ops)) <==>
            BlockNeverSpent(w.vs.hist[0], h, end.ops)
    ensures AllWithinShare(w.vs.hist[0], h, end.ops) ==> BlockNeverSpent(w.vs.hist[0], h, end.ops)
  {
    RunIsFresh(w, log, end);
    LatestVersion(w, log, end);
    forall svc | Base(w.vs.hist[0], h, svc) != -1 && Touched(end.ops, svc)
      ensures Active(end.ops, svc) == []
    {
      NoneActive(w, log, end, svc);
    }
    TrafficShares.RoundTrip(w.vs.hist[0], h, end.ops);
  }

  /** The base weight is what it was, an unset one that was split now being written as 100. */
  predicate Returned(first: SpecValue, svc: string, ops: seq<Op>, now: SpecValue)
    requires Configured(first, svc) && Configured(now, svc)
  {
    BaseWeight(now, svc) == if Touched(ops, svc) then Share(first, svc) else BaseWeight(first, svc)
  }

  /** A service has its base share back as soon as its own canaries are cleaned up, if no split found it spent. */
  lemma ClusterShareRestored(w: World, d: string, svc: string, log: seq<Step>, end: World)
    requires Initial(w) && Run(w, log) && end == Play(w, log)
    requires d in w.cells && svc == w.cells[d].service && Configured(w.vs.hist[0], svc)
    requires AllCleaned(end, svc)
    ensures end.vs.Valid() && Configured(end.vs.Latest(), svc)
    ensures Returned(w.vs.hist[0], svc, end.ops, end.vs.Latest()) <==> NeverSpent(w.vs.hist[0], svc, end.ops)
    ensures WithinShare(w.vs.hist[0], svc, end.ops) ==> NeverSpent(w.vs.hist[0], svc, end.ops)
  {
    RunIsFresh(w, log, end);
    LatestVersion(w, log, end);
    NoneActive(w, log, end, svc);
    NotTheService(w, log, end, d);
    BaseWeightOfRun(w.vs.hist[0], svc, end.ops);
  }

  /** What no run touches: other fields of every block, and blocks that serve no canary's service altogether. */
  lemma ClusterTouches(w: World, log: seq<Step>, end: World, h: nat)
    requires Initial(w) && Run(w, log) && end == Play(w, log) && h < |BlocksOf(w.vs.hist[0])|
    ensures end.vs.Valid() && OnlyRoutesDiffer(w.vs.hist[0], end.vs.Latest())
    ensures (forall c :: c in w.cells ==> Base(w.vs.hist[0], h, w.cells[c].service) == -1) ==>
              BlocksOf(end.vs.Latest())[h] == BlocksOf(w.vs.hist[0])[h]
  {
    RunIsFresh(w, log, end);
    LatestVersion(w, log, end);
    forall op | op in end.ops
      ensures op.canary in w.cells && op.svc == w.cells[op.canary].service
    {
      OpOfCanary(w, log, end, op);
    }
    RunTouches(w.vs.hist[0], end.ops, h);
  }
}
