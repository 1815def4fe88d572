/**
 What runs of splits and merges do to the http blocks of a VirtualService, for the canaries of any
 number of services, in blocks that serve one of them or several. Every block has a closed form: the
 original routes with their weights, and behind them one route per canary in the order they were split.
 */
module TrafficShares {
  import opened Wrappers
  import opened VirtualServiceValues
  import opened BlockShares

  // ----- runs

  function ApplyOps(vs: SpecValue, ops: seq<Op>): SpecValue {
    if ops == [] then vs else ApplyOp(ApplyOps(vs, ops[..|ops| - 1]), ops[|ops| - 1])
  }

  /** Every edit of the run fits the version it is applied to. */
  ghost predicate RunFits(vs: SpecValue, ops: seq<Op>) {
    forall n :: 0 <= n < |ops| ==> OpFits(ApplyOps(vs, ops[..n]), ops[n])
  }

  /** The canaries of a service that hold a route after the run, in the order in which they were split. */
  function Active(ops: seq<Op>, svc: string): seq<string> {
    if ops == [] then []
    else
      var before, op := Active(ops[..|ops| - 1], svc), ops[|ops| - 1];
      if op.svc != svc then before else if op.SplitOp? then before + [op.canary] else Remove(before, op.canary)
  }

  predicate Touched(ops: seq<Op>, svc: string) {
    exists n :: 0 <= n < |ops| && ops[n].svc == svc
  }

  /** No canary is named like a service, belongs to two of them, or has a route at first. */
  predicate Fresh(vs: SpecValue, ops: seq<Op>) {
    && (forall d, e :: d in ops && e in ops ==> Apart(d, e))
    && forall op :: op in ops ==> !HasRoute(vs, op.svc, op.canary)
  }

  predicate Apart(d: Op, e: Op) {
    d.canary != e.svc && (d.canary == e.canary ==> d.svc == e.svc)
  }

  lemma WholePrefix(ops: seq<Op>)
    ensures ops[..|ops|] == ops
    ensures ops != [] ==> ops == ops[..|ops| - 1] + [ops[|ops| - 1]]
  {
  }

  lemma OpsPrefix(vs: SpecValue, ops: seq<Op>, n: nat)
    requires n <= |ops|
    ensures RunFits(vs, ops) ==> RunFits(vs, ops[..n])
    ensures Fresh(vs, ops) ==> Fresh(vs, ops[..n])
  {
    assert forall op :: op in ops[..n] ==> op in ops;
    assert forall k :: 0 <= k <= n ==> ops[..n][..k] == ops[..k];
  }

  lemma LastOp(vs: SpecValue, ops: seq<Op>, n: nat)
    requires Fresh(vs, ops) && RunFits(vs, ops) && |ops| == n + 1
    ensures Fresh(vs, ops[..n]) && RunFits(vs, ops[..n]) && OpFits(ApplyOps(vs, ops[..n]), ops[n])
    ensures ops[n].canary != ops[n].svc && !HasRoute(vs, ops[n].svc, ops[n].canary)
    ensures forall d :: d in ops[..n] ==> Apart(d, ops[n]) && Apart(ops[n], d)
  {
    OpsPrefix(vs, ops, n);
    assert ops[n] in ops && Apart(ops[n], ops[n]);
    assert forall d :: d in ops[..n] ==> d in ops;
  }

  /** No run moves a service to another block. */
  lemma {:induction false} BlockStays(vs: SpecValue, ops: seq<Op>, svc: string)
    requires Fresh(vs, ops) && RunFits(vs, ops) && forall d :: d in ops ==> d.canary != svc
    ensures FindBlock(BlocksOf(ApplyOps(vs, ops)), svc) == FindBlock(BlocksOf(vs), svc)
  {
    if ops != [] {
      var n := |ops| - 1;
      LastOp(vs, ops, n);
      BlockStays(vs, ops[..n], svc);
      OpBlocks(ApplyOps(vs, ops[..n]), ops[n], svc);
    }
  }

  // ----- one block

  function BlockRoutes(vs: SpecValue, h: nat): Routes {
    if h < |BlocksOf(vs)| then RoutesOf(BlocksOf(vs)[h]) else []
  }

  /** Position of the base route of a service in block `h`, or -1 when that block does not serve it. */
  function Base(vs: SpecValue, h: nat, svc: string): (j: int)
    ensures -1 <= j < |BlockRoutes(vs, h)|
    ensures j != -1 ==> HostIs(BlockRoutes(vs, h)[j], svc) && FindRoute(BlockRoutes(vs, h), svc) == j
    ensures j == -1 <==> FindBlock(BlocksOf(vs), svc) != h
  {
    if FindBlock(BlocksOf(vs), svc) == h then FindRoute(BlockRoutes(vs, h), svc) else -1
  }

  function EditOf(vs: SpecValue, h: nat, op: Op): Edit {
    var j := Base(vs, h, op.svc);
    if j == -1 then Elsewhere else if op.SplitOp? then Take(j, op.canary) else Give(j, op.canary)
  }

  /** The run as block `h` sees it. */
  function EditsOf(vs: SpecValue, h: nat, ops: seq<Op>): (es: seq<Edit>)
    ensures |es| == |ops|
  {
    seq(|ops|, n requires 0 <= n < |ops| => EditOf(vs, h, ops[n]))
  }

  lemma EditsPrefix(vs: SpecValue, h: nat, ops: seq<Op>, n: nat)
    requires n <= |ops|
    ensures EditsOf(vs, h, ops[..n]) == EditsOf(vs, h, ops)[..n]
  {
  }

  lemma EditsExtend(vs: SpecValue, h: nat, pre: seq<Op>, op: Op)
    ensures EditsOf(vs, h, pre + [op]) == EditsOf(vs, h, pre) + [EditOf(vs, h, op)]
  {
  }

  lemma BaseUnique(vs: SpecValue, h: nat, s: string, t: string)
    requires Base(vs, h, s) == Base(vs, h, t) != -1
    ensures s == t
  {
  }

  // ----- the closed form

  /** `now` is the version that the run has reached, as far as block `h` goes. */
  ghost predicate Formed(vs: SpecValue, h: nat, ops: seq<Op>, now: SpecValue) {
    var rs, es := BlockRoutes(vs, h), EditsOf(vs, h, ops);
    && |BlocksOf(now)| == |BlocksOf(vs)| && Bounded(rs, es) && Fitting(es)
    && BlockRoutes(now, h) == Form(rs, es)
  }

  lemma FittingExtend(rs: Routes, es: seq<Edit>, e: Edit)
    requires Bounded(rs, es) && Fitting(es)
    requires !e.Elsewhere? ==> e.base < |rs| && rs[e.base].Some?
    requires (e.Take? ==> e.canary !in Canaries(es)) && (e.Give? ==> e.canary in Canaries(es))
    requires forall d :: d in es ==> SamePlace(d, e) && SamePlace(e, d)
    ensures Bounded(rs, es + [e]) && Fitting(es + [e])
  {
    var all := es + [e];
    forall n | 0 <= n < |all|
      ensures FitsAt(all, n)
    {
      if n < |es| {
        assert FitsAt(es, n) && all[..n] == es[..n];
      } else {
        assert all[..n] == es;
      }
    }
  }

  lemma SamePlaces(vs: SpecValue, h: nat, pre: seq<Op>, op: Op)
    requires forall d :: d in pre ==> Apart(d, op)
    ensures forall e :: e in EditsOf(vs, h, pre) ==> SamePlace(e, EditOf(vs, h, op)) && SamePlace(EditOf(vs, h, op), e)
  {
    forall e | e in EditsOf(vs, h, pre)
      ensures SamePlace(e, EditOf(vs, h, op)) && SamePlace(EditOf(vs, h, op), e)
    {
      var n :| 0 <= n < |pre| && e == EditOf(vs, h, pre[n]);
      assert pre[n] in pre && Apart(pre[n], op);
    }
  }

  /** An edit of block `h` itself. */
  lemma OwnStep(vs: SpecValue, h: nat, pre: seq<Op>, op: Op, now: SpecValue)
    requires Formed(vs, h, pre, now) && OpFits(now, op) && op.canary != op.svc
    requires FindBlock(BlocksOf(now), op.svc) == FindBlock(BlocksOf(vs), op.svc) == h
    requires !HasRoute(vs, op.svc, op.canary) && forall d :: d in pre ==> Apart(d, op)
    ensures Formed(vs, h, pre + [op], ApplyOp(now, op))
  {
    var rs, es, e := BlockRoutes(vs, h), EditsOf(vs, h, pre), EditOf(vs, h, op);
    ApplyOpIsWithRoutes(now, op);
    assert ServiceRoutes(now, op.svc) == Form(rs, es);
    FormFindCanary(rs, es, op.canary);
    SamePlaces(vs, h, pre, op);
    FittingExtend(rs, es, e);
    EditsExtend(vs, h, pre, op);
    if op.SplitOp? {
      TakeForm(rs, es, op.svc, op.canary);
    } else {
      GiveForm(rs, es, op.svc, op.canary);
    }
  }

  lemma ElsewhereForm(rs: Routes, es: seq<Edit>)
    ensures Form(rs, es + [Elsewhere]) == Form(rs, es)
  {
    assert (es + [Elsewhere])[..|es|] == es;
    assert Reweighed(rs, es + [Elsewhere]) == Reweighed(rs, es);
  }

  /** An edit of another block. */
  lemma ForeignStep(vs: SpecValue, h: nat, pre: seq<Op>, op: Op, now: SpecValue)
    requires Formed(vs, h, pre, now) && OpFits(now, op)
    requires FindBlock(BlocksOf(now), op.svc) == FindBlock(BlocksOf(vs), op.svc) != h
    ensures Formed(vs, h, pre + [op], ApplyOp(now, op))
  {
    var rs, es := BlockRoutes(vs, h), EditsOf(vs, h, pre);
    ApplyOpIsWithRoutes(now, op);
    EditsExtend(vs, h, pre, op);
    FittingExtend(rs, es, Elsewhere);
    ElsewhereForm(rs, es);
  }

  /** After any run every block has the closed form. */
  lemma {:induction false} ClosedFormRun(vs: SpecValue, ops: seq<Op>, h: nat)
    requires Fresh(vs, ops) && RunFits(vs, ops)
    ensures Formed(vs, h, ops, ApplyOps(vs, ops))
  {
    if ops == [] {
      FormOfNone(BlockRoutes(vs, h));
    } else {
      var n := |ops| - 1;
      var pre, op, now := ops[..n], ops[n], ApplyOps(vs, ops[..n]);
      WholePrefix(ops);
      LastOp(vs, ops, n);
      ClosedFormRun(vs, pre, h);
      BlockStays(vs, pre, op.svc);
      if FindBlock(BlocksOf(vs), op.svc) == h {
        OwnStep(vs, h, pre, op, now);
      } else {
        ForeignStep(vs, h, pre, op, now);
      }
    }
  }

  // ----- the canaries of one service

  lemma {:induction false} ActiveEdits(vs: SpecValue, h: nat, ops: seq<Op>, svc: string)
    requires Base(vs, h, svc) != -1
    ensures CanariesAt(EditsOf(vs, h, ops), Base(vs, h, svc)) == Active(ops, svc)
  {
    if ops != [] {
      var n := |ops| - 1;
      ActiveEdits(vs, h, ops[..n], svc);
      EditsPrefix(vs, h, ops, n);
      if ops[n].svc != svc && Base(vs, h, ops[n].svc) == Base(vs, h, svc) {
        BaseUnique(vs, h, ops[n].svc, svc);
      }
    }
  }

  lemma EditedEdits(vs: SpecValue, h: nat, ops: seq<Op>, svc: string)
    requires Base(vs, h, svc) != -1
    ensures EditedAt(EditsOf(vs, h, ops), Base(vs, h, svc)) <==> Touched(ops, svc)
  {
    var es := EditsOf(vs, h, ops);
    if EditedAt(es, Base(vs, h, svc)) {
      var n :| 0 <= n < |es| && !es[n].Elsewhere? && es[n].base == Base(vs, h, svc);
      BaseUnique(vs, h, ops[n].svc, svc);
    }
    if Touched(ops, svc) {
      var n :| 0 <= n < |ops| && ops[n].svc == svc;
      assert !es[n].Elsewhere? && es[n].base == Base(vs, h, svc);
    }
  }

  lemma ActiveCounts(vs: SpecValue, h: nat, ops: seq<Op>, svc: string, c: string)
    requires Base(vs, h, svc) != -1 && Fitting(EditsOf(vs, h, ops))
    requires forall d :: d in ops && d.canary == c ==> d.svc == svc
    ensures c in Canaries(EditsOf(vs, h, ops)) <==> c in Active(ops, svc)
    ensures multiset(Active(ops, svc))[c] <= 1
  {
    var es := EditsOf(vs, h, ops);
    forall e | e in es
      ensures SamePlace(e, Take(Base(vs, h, svc), c))
    {
      var n :| 0 <= n < |ops| && e == EditOf(vs, h, ops[n]);
      assert ops[n] in ops;
    }
    ActiveEdits(vs, h, ops, svc);
    CountsAgree(es, c, Base(vs, h, svc));
    AtMostOnce(es, c);
    InCounts(Canaries(es), c);
    InCounts(Active(ops, svc), c);
  }

  lemma InCounts(names: seq<string>, c: string)
    ensures c in names <==> multiset(names)[c] > 0
  {
  }

  /** A canary holds a route beside its service's exactly while it is active, and then one. */
  lemma ActiveIffRouted(vs: SpecValue, ops: seq<Op>, svc: string, c: string)
    requires Fresh(vs, ops) && RunFits(vs, ops) && Configured(vs, svc) && !HasRoute(vs, svc, c)
    requires forall d :: d in ops ==> d.canary != svc
    requires forall d :: d in ops && d.canary == c ==> d.svc == svc
    ensures HasRoute(ApplyOps(vs, ops), svc, c) <==> c in Active(ops, svc)
    ensures multiset(Active(ops, svc))[c] <= 1
  {
    var h := FindBlock(BlocksOf(vs), svc);
    ClosedFormRun(vs, ops, h);
    BlockStays(vs, ops, svc);
    ActiveCounts(vs, h, ops, svc, c);
    FormFindCanary(BlockRoutes(vs, h), EditsOf(vs, h, ops), c);
  }

  // ----- the base weight of one service

  function BaseWeight(vs: SpecValue, svc: string): int
    requires Configured(vs, svc)
  {
    var rs := ServiceRoutes(vs, svc);
    WeightOf(rs[FindRoute(rs, svc)])
  }

  /** The share of the base route: Istio reads weight 0 on a sole destination as all of the traffic. */
  function Share(vs: SpecValue, svc: string): int
    requires Configured(vs, svc)
  {
    if BaseWeight(vs, svc) == 0 then 100 else BaseWeight(vs, svc)
  }

  /** At no point are more canaries of the service split than its base share has tens. */
  ghost predicate WithinShare(vs: SpecValue, svc: string, ops: seq<Op>)
    requires Configured(vs, svc)
  {
    forall n :: 0 <= n <= |ops| ==> |Active(ops[..n], svc)| <= Share(vs, svc) / 10
  }

  lemma ServicePays(vs: SpecValue, h: nat, svc: string, ops: seq<Op>)
    requires h == FindBlock(BlocksOf(vs), svc) && WithinShare(vs, svc, ops)
    ensures Pays(BlockRoutes(vs, h), EditsOf(vs, h, ops), Base(vs, h, svc))
  {
    forall n | 0 <= n <= |ops|
      ensures |CanariesAt(EditsOf(vs, h, ops)[..n], Base(vs, h, svc))| <=
                ShareOf(BlockRoutes(vs, h), Base(vs, h, svc)) / 10
    {
      EditsPrefix(vs, h, ops, n);
      ActiveEdits(vs, h, ops[..n], svc);
    }
  }

  /** Edit `n` is a split that finds the base weight spent to 0, and takes it for one that was never set. */
  ghost predicate FindsSpent(vs: SpecValue, ops: seq<Op>, n: nat)
    requires n < |ops|
  {
    var now, svc := ApplyOps(vs, ops[..n]), ops[n].svc;
    ops[n].SplitOp? && Touched(ops[..n], svc) && Configured(now, svc) && BaseWeight(now, svc) == 0
  }

  /** No split for the service does so. */
  ghost predicate NeverSpent(vs: SpecValue, svc: string, ops: seq<Op>) {
    forall n :: 0 <= n < |ops| && ops[n].svc == svc ==> !FindsSpent(vs, ops, n)
  }

  /** The base weight after a run, in terms of what its block has seen. */
  lemma BaseWeightIs(vs: SpecValue, h: nat, svc: string, ops: seq<Op>)
    requires Fresh(vs, ops) && RunFits(vs, ops) && Base(vs, h, svc) != -1
    requires forall d :: d in ops ==> d.canary != svc
    ensures Fitting(EditsOf(vs, h, ops)) && Configured(ApplyOps(vs, ops), svc)
    ensures BaseWeight(ApplyOps(vs, ops), svc) == Weight(BlockRoutes(vs, h), EditsOf(vs, h, ops), Base(vs, h, svc))
  {
    ClosedFormRun(vs, ops, h);
    BlockStays(vs, ops, svc);
    FormFindBase(BlockRoutes(vs, h), EditsOf(vs, h, ops), svc);
  }

  lemma NoCanaryIsService(vs: SpecValue, ops: seq<Op>, n: nat)
    requires Fresh(vs, ops) && n < |ops|
    ensures forall d :: d in ops ==> d.canary != ops[n].svc
    ensures forall d :: d in ops[..n] ==> d.canary != ops[n].svc
  {
    assert forall d :: d in ops ==> Apart(d, ops[n]);
    assert forall d :: d in ops[..n] ==> d in ops;
  }

  lemma SpentEdit(vs: SpecValue, h: nat, ops: seq<Op>, n: nat)
    requires Fresh(vs, ops) && RunFits(vs, ops) && n < |ops| && Base(vs, h, ops[n].svc) != -1
    ensures FindsSpentAt(BlockRoutes(vs, h), EditsOf(vs, h, ops), Base(vs, h, ops[n].svc), n) <==>
              FindsSpent(vs, ops, n)
  {
    NoCanaryIsService(vs, ops, n);
    OpsPrefix(vs, ops, n);
    EditsPrefix(vs, h, ops, n);
    BaseWeightIs(vs, h, ops[n].svc, ops[..n]);
    EditedEdits(vs, h, ops[..n], ops[n].svc);
  }

  lemma SpentEdits(vs: SpecValue, h: nat, svc: string, ops: seq<Op>)
    requires Fresh(vs, ops) && RunFits(vs, ops) && Base(vs, h, svc) != -1
    ensures NeverSpentAt(BlockRoutes(vs, h), EditsOf(vs, h, ops), Base(vs, h, svc)) <==> NeverSpent(vs, svc, ops)
  {
    var rs, es, j := BlockRoutes(vs, h), EditsOf(vs, h, ops), Base(vs, h, svc);
    forall n | 0 <= n < |ops|
      ensures FindsSpentAt(rs, es, j, n) <==> ops[n].svc == svc && FindsSpent(vs, ops, n)
    {
      if ops[n].svc == svc {
        SpentEdit(vs, h, ops, n);
      } else if Base(vs, h, ops[n].svc) == j {
        BaseUnique(vs, h, ops[n].svc, svc);
      }
    }
  }

  /** The base weight is the share less ten per active canary of the service. */
  predicate Accounted(vs: SpecValue, svc: string, ops: seq<Op>, now: SpecValue)
    requires Configured(vs, svc) && Configured(now, svc)
  {
    BaseWeight(now, svc) ==
      if Touched(ops, svc) then Share(vs, svc) - 10 * |Active(ops, svc)| else BaseWeight(vs, svc)
  }

  /**
   The base weight of a service is accounted for by its own canaries, whatever is done for other services,
   in the same block or elsewhere, if and only if no split finds it spent to 0; so always within the share.
   */
  lemma BaseWeightOfRun(vs: SpecValue, svc: string, ops: seq<Op>)
    requires Fresh(vs, ops) && RunFits(vs, ops) && Configured(vs, svc)
    requires forall d :: d in ops ==> d.canary != svc
    ensures Configured(ApplyOps(vs, ops), svc)
    ensures Accounted(vs, svc, ops, ApplyOps(vs, ops)) <==> NeverSpent(vs, svc, ops)
    ensures WithinShare(vs, svc, ops) ==> NeverSpent(vs, svc, ops)
  {
    var h := FindBlock(BlocksOf(vs), svc);
    var rs, es, j := BlockRoutes(vs, h), EditsOf(vs, h, ops), Base(vs, h, svc);
    BaseWeightIs(vs, h, svc, ops);
    HasShareIff(rs, es, j);
    SpentEdits(vs, h, svc, ops);
    ActiveEdits(vs, h, ops, svc);
    EditedEdits(vs, h, ops, svc);
    if WithinShare(vs, svc, ops) {
      ServicePays(vs, h, svc, ops);
      ShareLaw(rs, es, j);
    }
  }

  // ----- the weight bound

  /** Block `h` is sound in every version of the run. */
  ghost predicate AllSound(vs: SpecValue, h: nat, ops: seq<Op>) {
    forall n :: 0 <= n <= |ops| ==> Sound(BlockRoutes(ApplyOps(vs, ops[..n]), h))
  }

  /** At no point are more canaries split for any service of block `h` than its base weight has tens. */
  ghost predicate WithinBudget(vs: SpecValue, h: nat, ops: seq<Op>) {
    forall n, svc :: 0 <= n <= |ops| && Base(vs, h, svc) != -1 ==>
      |Active(ops[..n], svc)| <= WeightOf(BlockRoutes(vs, h)[Base(vs, h, svc)]) / 10
  }

  lemma FormOfPrefix(vs: SpecValue, h: nat, ops: seq<Op>, n: nat)
    requires Fresh(vs, ops) && RunFits(vs, ops) && n <= |ops|
    ensures BlockRoutes(ApplyOps(vs, ops[..n]), h) == Form(BlockRoutes(vs, h), EditsOf(vs, h, ops)[..n])
  {
    OpsPrefix(vs, ops, n);
    ClosedFormRun(vs, ops[..n], h);
    EditsPrefix(vs, h, ops, n);
  }

  /** Who pays in block `h` is the base route of a service. */
  lemma PayerServes(vs: SpecValue, h: nat, ops: seq<Op>, j: nat) returns (svc: string)
    requires CanariesAt(EditsOf(vs, h, ops), j) != []
    ensures Base(vs, h, svc) == j && CanariesAt(EditsOf(vs, h, ops), j) == Active(ops, svc)
  {
    var n := TakerOf(EditsOf(vs, h, ops), j, CanariesAt(EditsOf(vs, h, ops), j)[0]);
    svc := ops[n].svc;
    ActiveEdits(vs, h, ops, svc);
  }

  lemma BudgetIsAffordable(vs: SpecValue, h: nat, ops: seq<Op>)
    requires NonNegative(BlockRoutes(vs, h))
    ensures WithinBudget(vs, h, ops) <==> Affordable(BlockRoutes(vs, h), EditsOf(vs, h, ops))
  {
    var rs, es := BlockRoutes(vs, h), EditsOf(vs, h, ops);
    if WithinBudget(vs, h, ops) {
      forall n, j | 0 <= n <= |es| && 0 <= j < |rs|
        ensures |CanariesAt(es[..n], j)| <= WeightOf(rs[j]) / 10
      {
        EditsPrefix(vs, h, ops, n);
        if CanariesAt(es[..n], j) != [] {
          var svc := PayerServes(vs, h, ops[..n], j);
        }
      }
    }
    if Affordable(rs, es) {
      forall n, svc | 0 <= n <= |ops| && Base(vs, h, svc) != -1
        ensures |Active(ops[..n], svc)| <= WeightOf(rs[Base(vs, h, svc)]) / 10
      {
        EditsPrefix(vs, h, ops, n);
        ActiveEdits(vs, h, ops[..n], svc);
        AffordablePrefix(rs, es, n);
      }
    }
  }

  /**
   The weight bound, exactly. A block that totals 100 with no negative weight stays so in every version
   of a run if and only if at no point more canaries are split for any of its services than the base
   weight of that service has tens. (A base weight of 0 to 9 admits none.)
   */
  lemma SoundIffWithinBudget(vs: SpecValue, h: nat, ops: seq<Op>)
    requires Fresh(vs, ops) && RunFits(vs, ops) && Sound(BlockRoutes(vs, h))
    ensures AllSound(vs, h, ops) <==> WithinBudget(vs, h, ops)
  {
    var rs, es := BlockRoutes(vs, h), EditsOf(vs, h, ops);
    ClosedFormRun(vs, ops, h);
    SoundIffAffordable(rs, es);
    BudgetIsAffordable(vs, h, ops);
    forall n | 0 <= n <= |ops|
      ensures BlockRoutes(ApplyOps(vs, ops[..n]), h) == Form(rs, es[..n])
    {
      FormOfPrefix(vs, h, ops, n);
    }
  }

  /** Block `h` is sound in every version from its first edit on. */
  ghost predicate SoundOnceEdited(vs: SpecValue, h: nat, ops: seq<Op>) {
    forall n :: 0 <= n <= |ops| && Begun(EditsOf(vs, h, ops)[..n]) ==> Sound(BlockRoutes(ApplyOps(vs, ops[..n]), h))
  }

  /** All edits of block `h` are for one service, and never for more than ten canaries at once. */
  ghost predicate OneServicePays(vs: SpecValue, h: nat, ops: seq<Op>) {
    && (forall d, e :: d in ops && e in ops && Base(vs, h, d.svc) != -1 && Base(vs, h, e.svc) != -1 ==> d.svc == e.svc)
    && forall n, svc :: 0 <= n <= |ops| && Base(vs, h, svc) != -1 ==> |Active(ops[..n], svc)| <= 10
  }

  lemma PayerIsService(vs: SpecValue, h: nat, ops: seq<Op>, j: nat)
    requires OnePays(EditsOf(vs, h, ops), j)
    ensures OneServicePays(vs, h, ops)
  {
    var es := EditsOf(vs, h, ops);
    forall d, e | d in ops && e in ops && Base(vs, h, d.svc) != -1 && Base(vs, h, e.svc) != -1
      ensures d.svc == e.svc
    {
      var m :| 0 <= m < |ops| && ops[m] == d;
      var n :| 0 <= n < |ops| && ops[n] == e;
      assert es[m].base == j && es[n].base == j;
      BaseUnique(vs, h, d.svc, e.svc);
    }
    forall n, svc | 0 <= n <= |ops| && Base(vs, h, svc) != -1
      ensures |Active(ops[..n], svc)| <= 10
    {
      EditsPrefix(vs, h, ops, n);
      ActiveEdits(vs, h, ops[..n], svc);
      OnePaysPrefix(es, j, n);
      if Base(vs, h, svc) != j {
        UnpaidAt(es[..n], Base(vs, h, svc));
      }
    }
  }

  lemma ServiceIsPayer(vs: SpecValue, h: nat, ops: seq<Op>, j: nat)
    requires OneServicePays(vs, h, ops)
    requires forall op :: op in ops && Base(vs, h, op.svc) != -1 ==> Base(vs, h, op.svc) == j
    ensures OnePays(EditsOf(vs, h, ops), j)
  {
    var es := EditsOf(vs, h, ops);
    forall n | 0 <= n < |es| && !es[n].Elsewhere?
      ensures es[n].base == j
    {
      assert ops[n] in ops;
    }
    forall n | 0 <= n <= |es|
      ensures |CanariesAt(es[..n], j)| <= 10
    {
      EditsPrefix(vs, h, ops, n);
      if CanariesAt(es[..n], j) != [] {
        var svc := PayerServes(vs, h, ops[..n], j);
      }
    }
  }

  lemma OnePayer(vs: SpecValue, h: nat, ops: seq<Op>) returns (j: nat)
    requires OneServicePays(vs, h, ops)
    ensures OnePays(EditsOf(vs, h, ops), j)
  {
    j := 0;
    if exists op :: op in ops && Base(vs, h, op.svc) != -1 {
      var op :| op in ops && Base(vs, h, op.svc) != -1;
      j := Base(vs, h, op.svc);
    }
    ServiceIsPayer(vs, h, ops, j);
  }

  /**
   The bound for a block whose weights nobody has set, such as one with a sole destination. It is sound
   from its first split on if and only if all splits are for one service, and never for more than ten
   canaries at once.
   */
  lemma SoundIffOneServicePays(vs: SpecValue, h: nat, ops: seq<Op>)
    requires Fresh(vs, ops) && RunFits(vs, ops) && BlockShares.Unset(BlockRoutes(vs, h))
    ensures SoundOnceEdited(vs, h, ops) <==> OneServicePays(vs, h, ops)
  {
    var rs, es := BlockRoutes(vs, h), EditsOf(vs, h, ops);
    ClosedFormRun(vs, ops, h);
    SoundIffOnePays(rs, es);
    forall n | 0 <= n <= |ops|
      ensures BlockRoutes(ApplyOps(vs, ops[..n]), h) == Form(rs, es[..n])
    {
      FormOfPrefix(vs, h, ops, n);
    }
    assert SoundOnceEdited(vs, h, ops) <==> SoundOnceBegun(rs, es);
    if SoundOnceBegun(rs, es) {
      var j: nat :| OnePays(es, j);
      PayerIsService(vs, h, ops, j);
    }
    if OneServicePays(vs, h, ops) {
      var j := OnePayer(vs, h, ops);
    }
  }

  /**
   From a sound version, the split that exceeds a service's share always writes an unsound block: a
   negative base weight, or a spent weight 0 mistaken for one that was never set.
   */
  lemma OverspendingSplit(vs: SpecValue, h: nat, ops: seq<Op>, op: Op)
    requires Fresh(vs, ops + [op]) && RunFits(vs, ops + [op]) && op.SplitOp?
    requires h == FindBlock(BlocksOf(vs), op.svc) && WithinShare(vs, op.svc, ops)
    requires Sound(BlockRoutes(ApplyOps(vs, ops), h)) && |Active(ops + [op], op.svc)| > Share(vs, op.svc) / 10
    ensures !Sound(BlockRoutes(ApplyOps(vs, ops + [op]), h))
  {
    var all, rs, es := ops + [op], BlockRoutes(vs, h), EditsOf(vs, h, ops);
    assert all[..|ops|] == ops;
    LastOp(vs, all, |ops|);
    ClosedFormRun(vs, all, h);
    ClosedFormRun(vs, ops, h);
    EditsExtend(vs, h, ops, op);
    ActiveEdits(vs, h, all, op.svc);
    ServicePays(vs, h, op.svc, ops);
    OverspendingTake(rs, es, EditOf(vs, h, op));
  }

  function RouteTo(host: string, weight: int): Option<RouteValue> {
    Some(RouteValue(Some(DestinationValue(host, "", None)), weight, None, None))
  }

  function OneBlock(rs: Routes): SpecValue {
    SpecValue(Some([Some(BlockValue(Some(rs), "", None))]), None)
  }

  /** A block in which service "svc" has this weight, and another route the rest. */
  function TwoRoutes(weight: int): SpecValue {
    OneBlock([RouteTo("svc", weight), RouteTo("old", 100 - weight)])
  }

  /** The failing side of the bound: a sound block whose first split leaves weight -5. */
  lemma NegativeWeight()
    ensures var vs, ops := TwoRoutes(5), [SplitOp("canary", "svc")];
            && Sound(BlockRoutes(vs, 0)) && !WithinBudget(vs, 0, ops)
            && Configured(ApplyOps(vs, ops), "svc") && BaseWeight(ApplyOps(vs, ops), "svc") == -5
  {
    var vs, op := TwoRoutes(5), SplitOp("canary", "svc");
    var ops, rs := [op], BlockRoutes(vs, 0);
    assert FindRoute(rs, "svc") == 0 && Base(vs, 0, "svc") == 0;
    assert Total(rs) == 100 by {
      assert rs[..1] == [rs[0]] && rs[..1][..0] == [];
    }
    assert ops[..1] == ops && ops[..0] == [] && Active(ops, "svc") == ["canary"];
    assert ApplyOps(vs, ops) == Split(vs, "svc", "canary");
    assert FindRoute(SplitRoutes(rs, "svc", "canary"), "svc") == 0;
  }

  // ----- the round trip

  lemma NobodyHolds(vs: SpecValue, h: nat, ops: seq<Op>)
    requires Fitting(EditsOf(vs, h, ops))
    requires forall svc :: Base(vs, h, svc) != -1 && Touched(ops, svc) ==> Active(ops, svc) == []
    ensures Canaries(EditsOf(vs, h, ops)) == []
  {
    var es := EditsOf(vs, h, ops);
    if Canaries(es) != [] {
      var c := Canaries(es)[0];
      var n := HolderOf(es, c);
      PaidByEdit(es, n);
      CountsAgree(es, c, es[n].base);
      assert multiset(Canaries(es))[c] > 0;
      ActiveEdits(vs, h, ops, ops[n].svc);
      assert Touched(ops, ops[n].svc);
    }
  }

  /** No split of block `h` finds a base weight spent to 0. */
  ghost predicate BlockNeverSpent(vs: SpecValue, h: nat, ops: seq<Op>) {
    forall n :: 0 <= n < |ops| && Base(vs, h, ops[n].svc) != -1 ==> !FindsSpent(vs, ops, n)
  }

  lemma BlockSpentAt(vs: SpecValue, h: nat, ops: seq<Op>, j: nat)
    requires Fresh(vs, ops) && RunFits(vs, ops) && j < |BlockRoutes(vs, h)| && BlockNeverSpent(vs, h, ops)
    ensures NeverSpentAt(BlockRoutes(vs, h), EditsOf(vs, h, ops), j)
  {
    var rs, es := BlockRoutes(vs, h), EditsOf(vs, h, ops);
    forall n | 0 <= n < |es|
      ensures !FindsSpentAt(rs, es, j, n)
    {
      if es[n].Take? && es[n].base == j {
        SpentEdit(vs, h, ops, n);
      }
    }
  }

  /** Routes that nobody has edited are not spent, so the block's services decide. */
  lemma BlockSpent(vs: SpecValue, h: nat, ops: seq<Op>)
    requires Fresh(vs, ops) && RunFits(vs, ops)
    ensures var rs, es := BlockRoutes(vs, h), EditsOf(vs, h, ops);
            (forall j :: 0 <= j < |rs| ==> NeverSpentAt(rs, es, j)) <==> BlockNeverSpent(vs, h, ops)
  {
    var rs, es := BlockRoutes(vs, h), EditsOf(vs, h, ops);
    if BlockNeverSpent(vs, h, ops) {
      forall j | 0 <= j < |rs|
        ensures NeverSpentAt(rs, es, j)
      {
        BlockSpentAt(vs, h, ops, j);
      }
    } else {
      var n :| 0 <= n < |ops| && Base(vs, h, ops[n].svc) != -1 && FindsSpent(vs, ops, n);
      SpentEdit(vs, h, ops, n);
      assert !NeverSpentAt(rs, es, Base(vs, h, ops[n].svc));
    }
  }

  lemma WithinShareNeverSpent(vs: SpecValue, h: nat, ops: seq<Op>)
    requires Fresh(vs, ops) && RunFits(vs, ops)
    requires forall svc :: Base(vs, h, svc) != -1 && Touched(ops, svc) ==> WithinShare(vs, svc, ops)
    ensures BlockNeverSpent(vs, h, ops)
  {
    forall n | 0 <= n < |ops| && Base(vs, h, ops[n].svc) != -1
      ensures !FindsSpent(vs, ops, n)
    {
      NoCanaryIsService(vs, ops, n);
      assert Touched(ops, ops[n].svc);
      BaseWeightOfRun(vs, ops[n].svc, ops);
    }
  }

  /**
   The interleaved round trip, exactly. When the canaries of all services of a block, split and merged in
   any overlapping order, have no route any more, the block is as it was if and only if no split has found
   a base weight spent to 0: the same routes in the same order, and the same shares, with an unset weight 0
   that was split now written out as 100. Within the shares none does.
   */
  lemma RoundTrip(vs: SpecValue, h: nat, ops: seq<Op>)
    requires Fresh(vs, ops) && RunFits(vs, ops)
    requires forall svc :: Base(vs, h, svc) != -1 && Touched(ops, svc) ==> Active(ops, svc) == []
    ensures BlockRoutes(ApplyOps(vs, ops), h) == Restored(BlockRoutes(vs, h), EditsOf(vs, h, ops)) <==>
            BlockNeverSpent(vs, h, ops)
    ensures (forall svc :: Base(vs, h, svc) != -1 && Touched(ops, svc) ==> WithinShare(vs, svc, ops)) ==>
              BlockNeverSpent(vs, h, ops)
  {
    ClosedFormRun(vs, ops, h);
    NobodyHolds(vs, h, ops);
    BlockShares.RoundTrip(BlockRoutes(vs, h), EditsOf(vs, h, ops));
    BlockSpent(vs, h, ops);
    if forall svc :: Base(vs, h, svc) != -1 && Touched(ops, svc) ==> WithinShare(vs, svc, ops) {
      WithinShareNeverSpent(vs, h, ops);
    }
  }

  lemma OneBlockEdit(rs: Routes, rs': Routes)
    ensures BlocksOf(OneBlock(rs)) == [Some(BlockValue(Some(rs), "", None))]
    ensures WithRoutes(OneBlock(rs), 0, rs') == OneBlock(rs')
  {
    assert BlocksOf(OneBlock(rs))[0 := Some(BlockValue(Some(rs'), "", None))] == BlocksOf(OneBlock(rs'));
  }

  lemma OneBlockSplit(rs: Routes, w: int, c: string)
    requires rs != [] && rs[0] == RouteTo("svc", w)
    ensures ApplyOp(OneBlock(rs), SplitOp(c, "svc")) ==
              OneBlock([RouteTo("svc", SplitWeight(w))] + rs[1..] + [CanaryRoute(c)])
  {
    var rs' := [RouteTo("svc", SplitWeight(w))] + rs[1..] + [CanaryRoute(c)];
    FindRouteUnique(rs, "svc", 0);
    assert SplitRoutes(rs, "svc", c) == rs';
    OneBlockEdit(rs, rs');
  }

  lemma OneBlockMerge(rs: Routes, w: int, c: string)
    requires |rs| > 2 && rs[0] == RouteTo("svc", w) && rs[1] == RouteTo("old", 90) && rs[2] == CanaryRoute(c)
    requires c != "svc" && c != "old"
    ensures ApplyOp(OneBlock(rs), MergeOp(c, "svc")) == OneBlock([RouteTo("svc", w + 10), rs[1]] + rs[3..])
  {
    var rs' := [RouteTo("svc", w + 10), rs[1]] + rs[3..];
    FindRouteUnique(rs, "svc", 0);
    FindRouteUnique(rs, c, 2);
    assert MergeRoutes(rs, "svc", c) == rs';
    OneBlockEdit(rs, rs');
  }

  lemma TwoSplits()
    ensures ApplyOp(ApplyOp(TwoRoutes(10), SplitOp("a", "svc")), SplitOp("b", "svc")) ==
              OneBlock([RouteTo("svc", 90), RouteTo("old", 90), CanaryRoute("a"), CanaryRoute("b")])
  {
    var old90, a, b := RouteTo("old", 90), CanaryRoute("a"), CanaryRoute("b");
    var rs := [RouteTo("svc", 10), old90];
    OneBlockSplit(rs, 10, "a");
    assert [RouteTo("svc", 0)] + rs[1..] + [a] == [RouteTo("svc", 0), old90, a];
    OneBlockSplit([RouteTo("svc", 0), old90, a], 0, "b");
    assert [RouteTo("svc", 90)] + [RouteTo("svc", 0), old90, a][1..] + [b] == [RouteTo("svc", 90), old90, a, b];
  }

  lemma TwoMerges(rs: Routes)
    requires rs == [RouteTo("svc", 90), RouteTo("old", 90), CanaryRoute("a"), CanaryRoute("b")]
    ensures ApplyOp(ApplyOp(OneBlock(rs), MergeOp("a", "svc")), MergeOp("b", "svc")) ==
              OneBlock([RouteTo("svc", 110), RouteTo("old", 90)])
  {
    var old90, b := RouteTo("old", 90), CanaryRoute("b");
    OneBlockMerge(rs, 90, "a");
    assert [RouteTo("svc", 100), rs[1]] + rs[3..] == [RouteTo("svc", 100), old90, b];
    var last := [RouteTo("svc", 100), old90, b];
    OneBlockMerge(last, 100, "b");
    assert [RouteTo("svc", 110), last[1]] + last[3..] == [RouteTo("svc", 110), old90];
  }

  /** The failing side of the round trip: weight 10 is spent by one split, refilled by the next, and ends as 110. */
  lemma RefilledWeight()
    ensures var ops := [SplitOp("a", "svc"), SplitOp("b", "svc"), MergeOp("a", "svc"), MergeOp("b", "svc")];
            ApplyOps(TwoRoutes(10), ops) == OneBlock([RouteTo("svc", 110), RouteTo("old", 90)])
  {
    TwoSplits();
    TwoMerges([RouteTo("svc", 90), RouteTo("old", 90), CanaryRoute("a"), CanaryRoute("b")]);
    FourOps(TwoRoutes(10), SplitOp("a", "svc"), SplitOp("b", "svc"), MergeOp("a", "svc"), MergeOp("b", "svc"));
  }

  lemma FourOps(vs: SpecValue, p: Op, q: Op, r: Op, t: Op)
    ensures ApplyOps(vs, [p, q, r, t]) == ApplyOp(ApplyOp(ApplyOp(ApplyOp(vs, p), q), r), t)
  {
    assert [p, q, r, t][..3] == [p, q, r] && [p, q, r][..2] == [p, q] && [p, q][..1] == [p] && [p][..0] == [];
    assert ApplyOps(vs, [p]) == ApplyOp(vs, p);
    assert ApplyOps(vs, [p, q]) == ApplyOp(ApplyOps(vs, [p]), q);
    assert ApplyOps(vs, [p, q, r]) == ApplyOp(ApplyOps(vs, [p, q]), r);
  }

  // ----- what no run touches

  /** The same but for the Route lists of some blocks. */
  predicate OnlyRoutesDiffer(a: SpecValue, b: SpecValue) {
    && b.others == a.others && |BlocksOf(b)| == |BlocksOf(a)|
    && forall h :: 0 <= h < |BlocksOf(a)| ==> SameBlock(BlocksOf(a)[h], BlocksOf(b)[h])
  }

  predicate SameBlock(a: Option<BlockValue>, b: Option<BlockValue>) {
    b == a || (a.Some? && b.Some? && b.value.(route := a.value.route) == a.value)
  }

  lemma OpTouches(vs: SpecValue, op: Op)
    requires OpFits(vs, op)
    ensures OnlyRoutesDiffer(vs, ApplyOp(vs, op))
    ensures forall h :: 0 <= h < |BlocksOf(vs)| && h != FindBlock(BlocksOf(vs), op.svc) ==>
                          BlocksOf(ApplyOp(vs, op))[h] == BlocksOf(vs)[h]
  {
    ApplyOpIsWithRoutes(vs, op);
  }

  /** Blocks that serve no canary's service are left as they were, and of the others only the routes are edited. */
  lemma {:induction false} RunTouches(vs: SpecValue, ops: seq<Op>, h: nat)
    requires Fresh(vs, ops) && RunFits(vs, ops) && h < |BlocksOf(vs)|
    ensures OnlyRoutesDiffer(vs, ApplyOps(vs, ops))
    ensures (forall op :: op in ops ==> Base(vs, h, op.svc) == -1) ==> BlocksOf(ApplyOps(vs, ops))[h] == BlocksOf(vs)[h]
  {
    if ops != [] {
      var n := |ops| - 1;
      LastOp(vs, ops, n);
      assert forall op :: op in ops[..n] ==> op in ops;
      assert ops[n] in ops;
      RunTouches(vs, ops[..n], h);
      BlockStays(vs, ops[..n], ops[n].svc);
      OpTouches(ApplyOps(vs, ops[..n]), ops[n]);
      TouchesTwice(vs, ApplyOps(vs, ops[..n]), ApplyOps(vs, ops));
    }
  }

  lemma TouchesTwice(a: SpecValue, b: SpecValue, c: SpecValue)
    requires OnlyRoutesDiffer(a, b) && OnlyRoutesDiffer(b, c)
    ensures OnlyRoutesDiffer(a, c)
  {
    forall h | 0 <= h < |BlocksOf(a)|
      ensures SameBlock(BlocksOf(a)[h], BlocksOf(c)[h])
    {
      assert SameBlock(BlocksOf(a)[h], BlocksOf(b)[h]) && SameBlock(BlocksOf(b)[h], BlocksOf(c)[h]);
    }
  }
}
