/**
 The weights of one http block under a run of edits: which route gives ten percent to a canary, or
 gets it back. Nothing is assumed about how many services the block serves.
 */
module BlockShares {
  import opened Wrappers
  import opened VirtualServiceValues

  /** An edit as the block sees it: the base route by its position, or an edit of another block. */
  datatype Edit = Take(base: nat, canary: string) | Give(base: nat, canary: string) | Elsewhere

  function Remove(names: seq<string>, c: string): seq<string> {
    if names == [] then []
    else if names[0] == c then names[1..]
    else [names[0]] + Remove(names[1..], c)
  }

  /** The canaries that hold a route after the run, in the order in which they were split. */
  function Canaries(es: seq<Edit>): seq<string> {
    if es == [] then [] else AfterEdit(Canaries(es[..|es| - 1]), es[|es| - 1])
  }

  function AfterEdit(names: seq<string>, e: Edit): seq<string> {
    match e
    case Take(_, c) => names + [c]
    case Give(_, c) => Remove(names, c)
    case Elsewhere => names
  }

  /** Those of them that route `j` pays for. */
  function CanariesAt(es: seq<Edit>, j: nat): seq<string> {
    if es == [] then []
    else
      var before, e := CanariesAt(es[..|es| - 1], j), es[|es| - 1];
      if e.Elsewhere? || e.base != j then before else AfterEdit(before, e)
  }

  function Weight(rs: Routes, es: seq<Edit>, j: nat): int
    requires j < |rs|
  {
    if es == [] then WeightOf(rs[j])
    else
      var before, e := Weight(rs, es[..|es| - 1], j), es[|es| - 1];
      if e.Elsewhere? || e.base != j then before else if e.Take? then SplitWeight(before) else before + 10
  }

  /** How often a split has taken the weight 0 of route `j` for one that was never set. */
  function RefillsAt(rs: Routes, es: seq<Edit>, j: nat): nat
    requires j < |rs|
  {
    if es == [] then 0
    else
      var n := |es| - 1;
      RefillsAt(rs, es[..n], j) + if es[n].Take? && es[n].base == j && Weight(rs, es[..n], j) == 0 then 1 else 0
  }

  /** The same over all routes. */
  function Refills(rs: Routes, es: seq<Edit>): nat
    requires Bounded(rs, es)
  {
    if es == [] then 0
    else
      var n := |es| - 1;
      Refills(rs, es[..n]) + if es[n].Take? && Weight(rs, es[..n], es[n].base) == 0 then 1 else 0
  }

  predicate Bounded(rs: Routes, es: seq<Edit>) {
    forall n :: 0 <= n < |es| && !es[n].Elsewhere? ==> es[n].base < |rs| && rs[es[n].base].Some?
  }

  /** Edit `n` splits a canary that has no route, or merges one that has. */
  predicate FitsAt(es: seq<Edit>, n: nat)
    requires n < |es|
  {
    && (es[n].Take? ==> es[n].canary !in Canaries(es[..n]))
    && (es[n].Give? ==> es[n].canary in Canaries(es[..n]))
  }

  /** Two edits for one canary are edits of one base route. */
  predicate SamePlace(d: Edit, e: Edit) {
    !d.Elsewhere? && !e.Elsewhere? && d.canary == e.canary ==> d.base == e.base
  }

  predicate Fitting(es: seq<Edit>) {
    && (forall n :: 0 <= n < |es| ==> FitsAt(es, n))
    && forall d, e :: d in es && e in es ==> SamePlace(d, e)
  }

  lemma Prefix(rs: Routes, es: seq<Edit>, n: nat)
    requires n <= |es|
    ensures Bounded(rs, es) ==> Bounded(rs, es[..n])
    ensures Fitting(es) ==> Fitting(es[..n])
  {
    if Fitting(es) {
      var pre := es[..n];
      forall m | 0 <= m < n
        ensures FitsAt(pre, m)
      {
        assert FitsAt(es, m) && pre[..m] == es[..m];
      }
      forall d, e | d in pre && e in pre
        ensures SamePlace(d, e)
      {
        assert d in es && e in es;
      }
    }
  }

  /** The last edit of a run fits. */
  lemma LastFits(es: seq<Edit>)
    requires Fitting(es) && es != []
    ensures var n := |es| - 1;
            && (es[n].Take? ==> es[n].canary !in Canaries(es[..n]))
            && (es[n].Give? ==> es[n].canary in Canaries(es[..n]))
  {
    assert FitsAt(es, |es| - 1);
  }

  // ----- who holds a route

  lemma RemoveAt(names: seq<string>, c: string, k: nat)
    requires k < |names| && names[k] == c && forall j :: 0 <= j < k ==> names[j] != c
    ensures Remove(names, c) == names[..k] + names[k + 1..]
  {
    if k > 0 {
      RemoveAt(names[1..], c, k - 1);
      assert names == [names[0]] + names[1..];
    }
  }

  lemma RemoveCounts(names: seq<string>, d: string, c: string)
    ensures multiset(Remove(names, d))[c] ==
            if c == d && multiset(names)[c] > 0 then multiset(names)[c] - 1 else multiset(names)[c]
  {
    if names != [] {
      assert names == [names[0]] + names[1..];
      assert multiset([names[0]])[c] == if names[0] == c then 1 else 0;
    }
  }

  lemma RemoveLength(names: seq<string>, c: string)
    ensures |Remove(names, c)| == if c in names then |names| - 1 else |names|
  {
  }

  lemma RemoveSubset(names: seq<string>, c: string, d: string)
    requires d in Remove(names, c)
    ensures d in names
  {
  }

  /** Canary `c` is only ever split from route `j`. */
  predicate PaidBy(es: seq<Edit>, c: string, j: nat) {
    forall e :: e in es ==> SamePlace(e, Take(j, c))
  }

  lemma PaidByPrefix(es: seq<Edit>, c: string, j: nat)
    requires PaidBy(es, c, j) && es != []
    ensures PaidBy(es[..|es| - 1], c, j) && SamePlace(es[|es| - 1], Take(j, c))
  {
    assert forall e :: e in es[..|es| - 1] ==> e in es;
    assert es[|es| - 1] in es;
  }

  /** The route of any of its edits is the one. */
  lemma PaidByEdit(es: seq<Edit>, n: nat)
    requires Fitting(es) && n < |es| && !es[n].Elsewhere?
    ensures PaidBy(es, es[n].canary, es[n].base)
  {
    forall e | e in es
      ensures SamePlace(e, Take(es[n].base, es[n].canary))
    {
      assert es[n] in es && SamePlace(e, es[n]);
    }
  }

  /** A canary holds a route exactly while the route that it was split from pays for it. */
  lemma {:induction false} CountsAgree(es: seq<Edit>, c: string, j: nat)
    requires PaidBy(es, c, j)
    ensures multiset(Canaries(es))[c] == multiset(CanariesAt(es, j))[c]
  {
    if es != [] {
      var pre, e := es[..|es| - 1], es[|es| - 1];
      PaidByPrefix(es, c, j);
      CountsAgree(pre, c, j);
      if e.Give? {
        RemoveCounts(Canaries(pre), e.canary, c);
        RemoveCounts(CanariesAt(pre, j), e.canary, c);
      }
    }
  }

  /** No canary holds two routes. */
  lemma {:induction false} AtMostOnce(es: seq<Edit>, c: string)
    requires Fitting(es)
    ensures multiset(Canaries(es))[c] <= 1
  {
    if es != [] {
      var n := |es| - 1;
      Prefix([], es, n);
      LastFits(es);
      AtMostOnce(es[..n], c);
      if es[n].Give? {
        RemoveCounts(Canaries(es[..n]), es[n].canary, c);
      }
    }
  }

  /** A canary whose weight is given back was paid for by the route that gets it. */
  lemma GiverPaid(es: seq<Edit>)
    requires Fitting(es) && es != [] && es[|es| - 1].Give?
    ensures es[|es| - 1].canary in CanariesAt(es[..|es| - 1], es[|es| - 1].base)
  {
    var n := |es| - 1;
    LastFits(es);
    PaidByEdit(es, n);
    PaidByPrefix(es, es[n].canary, es[n].base);
    CountsAgree(es[..n], es[n].canary, es[n].base);
    assert multiset(Canaries(es[..n]))[es[n].canary] > 0;
  }

  lemma {:induction false} UnpaidAt(es: seq<Edit>, j: nat)
    requires forall n :: 0 <= n < |es| && !es[n].Elsewhere? ==> es[n].base != j
    ensures CanariesAt(es, j) == []
  {
    if es != [] {
      UnpaidAt(es[..|es| - 1], j);
    }
  }

  lemma {:induction false} NothingYet(rs: Routes, es: seq<Edit>, j: nat)
    requires j < |rs| && forall n :: 0 <= n < |es| && !es[n].Elsewhere? ==> es[n].base != j
    ensures Weight(rs, es, j) == WeightOf(rs[j]) && RefillsAt(rs, es, j) == 0
  {
    if es != [] {
      NothingYet(rs, es[..|es| - 1], j);
    }
  }

  // ----- the laws of weights

  /** The weight of a route: what it had, less ten for each canary it pays for, and 100 for each refill. */
  lemma {:induction false} WeightLaw(rs: Routes, es: seq<Edit>, j: nat)
    requires Fitting(es) && j < |rs|
    ensures Weight(rs, es, j) == WeightOf(rs[j]) + 100 * RefillsAt(rs, es, j) - 10 * |CanariesAt(es, j)|
  {
    if es != [] {
      var n := |es| - 1;
      Prefix(rs, es, n);
      WeightLaw(rs, es[..n], j);
      if es[n].Give? && es[n].base == j {
        GiverPaid(es);
        RemoveLength(CanariesAt(es[..n], j), es[n].canary);
      }
    }
  }

  lemma {:induction false} RefillsBound(rs: Routes, es: seq<Edit>, i: nat, j: nat)
    requires Bounded(rs, es) && i < |rs| && j < |rs|
    ensures RefillsAt(rs, es, j) <= Refills(rs, es)
    ensures i != j ==> RefillsAt(rs, es, i) + RefillsAt(rs, es, j) <= Refills(rs, es)
  {
    if es != [] {
      Prefix(rs, es, |es| - 1);
      RefillsBound(rs, es[..|es| - 1], i, j);
    }
  }

  /** Refills are never undone. */
  lemma {:induction false} RefillsGrow(rs: Routes, es: seq<Edit>, n: nat, j: nat)
    requires n <= |es| && j < |rs|
    ensures RefillsAt(rs, es[..n], j) <= RefillsAt(rs, es, j)
  {
    if n == |es| {
      assert es[..n] == es;
    } else {
      var pre := es[..|es| - 1];
      assert pre[..n] == es[..n];
      RefillsGrow(rs, pre, n, j);
    }
  }

  // ----- the block after the run

  function CanaryRoutes(names: seq<string>): Routes {
    seq(|names|, i requires 0 <= i < |names| => CanaryRoute(names[i]))
  }

  function Reweighed(rs: Routes, es: seq<Edit>): Routes {
    seq(|rs|, j requires 0 <= j < |rs| => WithWeight(rs[j], Weight(rs, es, j)))
  }

  /** The original routes with their weights, and one route of ten percent per canary. */
  function Form(rs: Routes, es: seq<Edit>): Routes {
    Reweighed(rs, es) + CanaryRoutes(Canaries(es))
  }

  lemma FormOfNone(rs: Routes)
    ensures Form(rs, []) == rs
  {
  }

  lemma FormAt(rs: Routes, es: seq<Edit>, j: nat, host: string)
    requires j < |rs| + |Canaries(es)|
    ensures |Form(rs, es)| == |rs| + |Canaries(es)|
    ensures HostIs(Form(rs, es)[j], host) <==> if j < |rs| then HostIs(rs[j], host) else Canaries(es)[j - |rs|] == host
  {
  }

  /** A route of the original block is found where it was. */
  lemma FormFindBase(rs: Routes, es: seq<Edit>, host: string)
    requires FindRoute(rs, host) != -1
    ensures FindRoute(Form(rs, es), host) == FindRoute(rs, host)
  {
    forall j | 0 <= j < |rs| + |Canaries(es)|
      ensures HostIs(Form(rs, es)[j], host) <==>
                if j < |rs| then HostIs(rs[j], host) else Canaries(es)[j - |rs|] == host
    {
      FormAt(rs, es, j, host);
    }
    FindRouteFirst(rs, host);
    FindRouteUnique(Form(rs, es), host, FindRoute(rs, host));
  }

  /** A canary is found exactly while it holds a route, behind the original ones. */
  lemma FormFindCanary(rs: Routes, es: seq<Edit>, c: string)
    requires FindRoute(rs, c) == -1
    ensures c !in Canaries(es) ==> FindRoute(Form(rs, es), c) == -1
    ensures c in Canaries(es) ==>
              var k := FindRoute(Form(rs, es), c) - |rs|;
              && 0 <= k < |Canaries(es)| && Canaries(es)[k] == c
              && forall j :: 0 <= j < k ==> Canaries(es)[j] != c
  {
    var out, names := Form(rs, es), Canaries(es);
    forall j | 0 <= j < |rs| + |names|
      ensures HostIs(out[j], c) <==> if j < |rs| then HostIs(rs[j], c) else names[j - |rs|] == c
    {
      FormAt(rs, es, j, c);
    }
    FindRouteFirst(rs, c);
    FindRouteFirst(out, c);
    if c in names {
      var k :| 0 <= k < |names| && names[k] == c;
      assert HostIs(out[|rs| + k], c);
      forall j | 0 <= j < FindRoute(out, c) - |rs|
        ensures names[j] != c
      {
        assert !HostIs(out[|rs| + j], c);
      }
    }
  }

  lemma ReweighedStep(rs: Routes, es: seq<Edit>, e: Edit)
    requires !e.Elsewhere? && e.base < |rs|
    ensures var w := Weight(rs, es, e.base);
            Reweighed(rs, es + [e]) ==
            Reweighed(rs, es)[e.base := WithWeight(rs[e.base], if e.Take? then SplitWeight(w) else w + 10)]
  {
    assert (es + [e])[..|es|] == es;
  }

  lemma CanariesStep(es: seq<Edit>, e: Edit)
    ensures Canaries(es + [e]) == AfterEdit(Canaries(es), e)
  {
    assert (es + [e])[..|es|] == es;
  }

  lemma TakeForm(rs: Routes, es: seq<Edit>, svc: string, c: string)
    requires FindRoute(rs, svc) != -1
    ensures FindRoute(Form(rs, es), svc) != -1
    ensures SplitRoutes(Form(rs, es), svc, c) == Form(rs, es + [Take(FindRoute(rs, svc), c)])
  {
    var i := FindRoute(rs, svc);
    FormFindBase(rs, es, svc);
    ReweighedStep(rs, es, Take(i, c));
    CanariesStep(es, Take(i, c));
    assert CanaryRoutes(Canaries(es) + [c]) == CanaryRoutes(Canaries(es)) + [CanaryRoute(c)];
    UpdateFront(Reweighed(rs, es), CanaryRoutes(Canaries(es)), i, SplitWeight(Weight(rs, es, i)));
  }

  lemma GiveForm(rs: Routes, es: seq<Edit>, svc: string, c: string)
    requires FindRoute(rs, svc) != -1 && FindRoute(rs, c) == -1 && c in Canaries(es)
    ensures FindRoute(Form(rs, es), svc) != -1 && FindRoute(Form(rs, es), c) != -1
    ensures MergeRoutes(Form(rs, es), svc, c) == Form(rs, es + [Give(FindRoute(rs, svc), c)])
  {
    FormFindBase(rs, es, svc);
    FormFindCanary(rs, es, c);
    GiveFormAt(rs, es, FindRoute(rs, svc), FindRoute(Form(rs, es), c) - |rs|, c);
  }

  lemma GiveFormAt(rs: Routes, es: seq<Edit>, i: nat, k: nat, c: string)
    requires i < |rs| && k < |Canaries(es)| && Canaries(es)[k] == c
    requires forall j :: 0 <= j < k ==> Canaries(es)[j] != c
    ensures |Form(rs, es)| == |rs| + |Canaries(es)|
    ensures TakeBack(Form(rs, es), i, |rs| + k) == Form(rs, es + [Give(i, c)])
  {
    var names, es' := Canaries(es), es + [Give(i, c)];
    assert Canaries(es') == names[..k] + names[k + 1..] by {
      CanariesStep(es, Give(i, c));
      RemoveAt(names, c, k);
    }
    var a := Reweighed(rs, es);
    assert Reweighed(rs, es') == a[i := WithWeight(a[i], WeightOf(a[i]) + 10)] by {
      ReweighedStep(rs, es, Give(i, c));
    }
    TakeBackBehind(a, names, i, k);
  }

  /** Taking back from the `k`-th of the canaries' routes, which lie behind the others. */
  lemma TakeBackBehind(a: Routes, names: seq<string>, i: nat, k: nat)
    requires i < |a| && k < |names|
    ensures TakeBack(a + CanaryRoutes(names), i, |a| + k) ==
            a[i := WithWeight(a[i], WeightOf(a[i]) + 10)] + CanaryRoutes(names[..k] + names[k + 1..])
  {
    UpdateFront(a, CanaryRoutes(names), i, WeightOf(a[i]) + 10);
    CutBack(a[i := WithWeight(a[i], WeightOf(a[i]) + 10)], names, k);
  }

  lemma UpdateFront(a: Routes, b: Routes, i: nat, w: int)
    requires i < |a|
    ensures (a + b)[i] == a[i]
    ensures (a + b)[i := WithWeight(a[i], w)] == a[i := WithWeight(a[i], w)] + b
  {
  }

  lemma CutBack(a: Routes, names: seq<string>, k: nat)
    requires k < |names|
    ensures var all := a + CanaryRoutes(names);
            all[..|a| + k] + all[|a| + k + 1..] == a + CanaryRoutes(names[..k] + names[k + 1..])
  {
  }

  // ----- totals

  function Total(rs: Routes): int {
    if rs == [] then 0 else Total(rs[..|rs| - 1]) + WeightOf(rs[|rs| - 1])
  }

  predicate NonNegative(rs: Routes) {
    forall i :: 0 <= i < |rs| ==> WeightOf(rs[i]) >= 0
  }

  /** What Istio asks of a block: the shares add up to 100 and none is negative. */
  predicate Sound(rs: Routes) {
    Total(rs) == 100 && NonNegative(rs)
  }

  lemma TotalUpdate(rs: Routes, i: nat, r: Option<RouteValue>)
    requires i < |rs|
    ensures Total(rs[i := r]) == Total(rs) - WeightOf(rs[i]) + WeightOf(r)
  {
    var n := |rs| - 1;
    if i < n {
      TotalUpdate(rs[..n], i, r);
      assert rs[i := r][..n] == rs[..n][i := r];
    } else {
      assert rs[i := r][..n] == rs[..n];
    }
  }

  lemma TotalCanaries(rs: Routes, names: seq<string>)
    ensures Total(rs + CanaryRoutes(names)) == Total(rs) + 10 * |names|
  {
    if names == [] {
      assert rs + CanaryRoutes(names) == rs;
    } else {
      var n := |names| - 1;
      TotalCanaries(rs, names[..n]);
      assert (rs + CanaryRoutes(names))[..|rs| + n] == rs + CanaryRoutes(names[..n]);
    }
  }

  lemma {:induction false} ReweighedTotal(rs: Routes, es: seq<Edit>)
    requires Bounded(rs, es) && Fitting(es)
    ensures Total(Reweighed(rs, es)) == Total(rs) + 100 * Refills(rs, es) - 10 * |Canaries(es)|
  {
    if es == [] {
      assert Reweighed(rs, es) == rs;
    } else {
      var pre, e := es[..|es| - 1], es[|es| - 1];
      Prefix(rs, es, |es| - 1);
      ReweighedTotal(rs, pre);
      assert es == pre + [e];
      if e.Elsewhere? {
        assert Reweighed(rs, es) == Reweighed(rs, pre);
      } else {
        ReweighedStep(rs, pre, e);
        var w := Weight(rs, pre, e.base);
        TotalUpdate(Reweighed(rs, pre), e.base, WithWeight(rs[e.base], if e.Take? then SplitWeight(w) else w + 10));
        RemoveLength(Canaries(pre), e.canary);
        LastFits(es);
      }
    }
  }

  /** The total of a block: what it was, and 100 for each refill. */
  lemma TotalLaw(rs: Routes, es: seq<Edit>)
    requires Bounded(rs, es) && Fitting(es)
    ensures Total(Form(rs, es)) == Total(rs) + 100 * Refills(rs, es)
  {
    ReweighedTotal(rs, es);
    TotalCanaries(Reweighed(rs, es), Canaries(es));
  }

  lemma FormWeight(rs: Routes, es: seq<Edit>, i: nat)
    requires Bounded(rs, es) && i < |Form(rs, es)|
    ensures WeightOf(Form(rs, es)[i]) == if i < |rs| then Weight(rs, es, i) else 10
  {
    if i < |rs| && rs[i].None? {
      NothingYet(rs, es, i);
    }
  }

  lemma FormNonNegative(rs: Routes, es: seq<Edit>)
    requires Bounded(rs, es)
    ensures NonNegative(Form(rs, es)) <==> forall j :: 0 <= j < |rs| ==> Weight(rs, es, j) >= 0
  {
    var out := Form(rs, es);
    if NonNegative(out) {
      forall j | 0 <= j < |rs|
        ensures Weight(rs, es, j) >= 0
      {
        FormWeight(rs, es, j);
        assert WeightOf(out[j]) >= 0;
      }
    } else {
      var i :| 0 <= i < |out| && WeightOf(out[i]) < 0;
      FormWeight(rs, es, i);
      assert i < |rs| && Weight(rs, es, i) < 0;
    }
  }

  /** A split keeps the total of a block exactly when the base route has a weight. */
  lemma SplitTotal(rs: Routes, svc: string, c: string)
    requires FindRoute(rs, svc) != -1
    ensures Total(SplitRoutes(rs, svc, c)) ==
            if WeightOf(rs[FindRoute(rs, svc)]) == 0 then Total(rs) + 100 else Total(rs)
  {
    var i := FindRoute(rs, svc);
    var w := SplitWeight(WeightOf(rs[i]));
    TotalUpdate(rs, i, WithWeight(rs[i], w));
    assert SplitRoutes(rs, svc, c)[..|rs|] == rs[i := WithWeight(rs[i], w)];
  }

  // ----- the exact bound, in a block whose weights are set

  /** At no point does a route pay for more canaries than its weight has tens. */
  ghost predicate Affordable(rs: Routes, es: seq<Edit>) {
    forall n, j :: 0 <= n <= |es| && 0 <= j < |rs| ==> |CanariesAt(es[..n], j)| <= WeightOf(rs[j]) / 10
  }

  ghost predicate SoundThroughout(rs: Routes, es: seq<Edit>) {
    forall n :: 0 <= n <= |es| ==> Sound(Form(rs, es[..n]))
  }

  lemma SoundPays(rs: Routes, es: seq<Edit>, j: nat)
    requires Bounded(rs, es) && Fitting(es) && Sound(rs) && Sound(Form(rs, es)) && j < |rs|
    ensures |CanariesAt(es, j)| <= WeightOf(rs[j]) / 10
  {
    TotalLaw(rs, es);
    RefillsBound(rs, es, j, j);
    WeightLaw(rs, es, j);
    FormNonNegative(rs, es);
  }

  lemma AffordablePrefix(rs: Routes, es: seq<Edit>, n: nat)
    requires Affordable(rs, es) && n <= |es|
    ensures Affordable(rs, es[..n])
    ensures forall j :: 0 <= j < |rs| ==> |CanariesAt(es[..n], j)| <= WeightOf(rs[j]) / 10
  {
    assert forall m :: 0 <= m <= n ==> es[..n][..m] == es[..m];
  }

  lemma {:induction false} AffordableNeverRefills(rs: Routes, es: seq<Edit>)
    requires Bounded(rs, es) && Fitting(es) && Affordable(rs, es)
    ensures Refills(rs, es) == 0
  {
    if es != [] {
      var pre, e := es[..|es| - 1], es[|es| - 1];
      Prefix(rs, es, |es| - 1);
      AffordablePrefix(rs, es, |es| - 1);
      AffordableNeverRefills(rs, pre);
      if e.Take? {
        AffordablePrefix(rs, es, |es|);
        assert es[..|es|] == es && |CanariesAt(es, e.base)| == |CanariesAt(pre, e.base)| + 1;
        RefillsBound(rs, pre, e.base, e.base);
        WeightLaw(rs, pre, e.base);
      }
    }
  }

  lemma AffordableIsSound(rs: Routes, es: seq<Edit>)
    requires Bounded(rs, es) && Fitting(es) && Affordable(rs, es) && Sound(rs)
    ensures Sound(Form(rs, es))
  {
    AffordableNeverRefills(rs, es);
    TotalLaw(rs, es);
    AffordablePrefix(rs, es, |es|);
    assert es[..|es|] == es;
    forall j | 0 <= j < |rs|
      ensures Weight(rs, es, j) >= 0
    {
      RefillsBound(rs, es, j, j);
      WeightLaw(rs, es, j);
    }
    FormNonNegative(rs, es);
  }

  /** A sound block stays sound through a run if and only if the run is affordable at every point. */
  lemma SoundIffAffordable(rs: Routes, es: seq<Edit>)
    requires Bounded(rs, es) && Fitting(es) && Sound(rs)
    ensures SoundThroughout(rs, es) <==> Affordable(rs, es)
  {
    if SoundThroughout(rs, es) {
      forall n, j | 0 <= n <= |es| && 0 <= j < |rs|
        ensures |CanariesAt(es[..n], j)| <= WeightOf(rs[j]) / 10
      {
        Prefix(rs, es, n);
        SoundPays(rs, es[..n], j);
      }
    }
    if Affordable(rs, es) {
      forall n | 0 <= n <= |es|
        ensures Sound(Form(rs, es[..n]))
      {
        Prefix(rs, es, n);
        AffordablePrefix(rs, es, n);
        AffordableIsSound(rs, es[..n]);
      }
    }
  }

  // ----- the exact bound, in a block whose weights are not set

  predicate Begun(es: seq<Edit>) {
    exists n :: 0 <= n < |es| && !es[n].Elsewhere?
  }

  /** The weights of a block that nobody has set. */
  predicate Unset(rs: Routes) {
    Total(rs) == 0 && NonNegative(rs)
  }

  ghost predicate SoundOnceBegun(rs: Routes, es: seq<Edit>) {
    forall n :: 0 <= n <= |es| && Begun(es[..n]) ==> Sound(Form(rs, es[..n]))
  }

  /** One route alone pays, for ten canaries at most. */
  ghost predicate OnePays(es: seq<Edit>, j: nat) {
    && (forall n :: 0 <= n < |es| && !es[n].Elsewhere? ==> es[n].base == j)
    && forall n :: 0 <= n <= |es| ==> |CanariesAt(es[..n], j)| <= 10
  }

  lemma {:induction false} UnsetIsZero(rs: Routes, j: nat)
    requires NonNegative(rs) && j < |rs|
    ensures 0 <= WeightOf(rs[j]) <= Total(rs)
  {
    var n := |rs| - 1;
    if j < n {
      UnsetIsZero(rs[..n], j);
    } else {
      TotalNonNegative(rs[..n]);
    }
  }

  lemma {:induction false} TotalNonNegative(rs: Routes)
    requires NonNegative(rs)
    ensures Total(rs) >= 0
  {
    if rs != [] {
      TotalNonNegative(rs[..|rs| - 1]);
    }
  }

  lemma {:induction false} CanariesElsewhere(es: seq<Edit>)
    requires !Begun(es)
    ensures Canaries(es) == []
  {
    if es != [] {
      assert es[|es| - 1].Elsewhere?;
      assert !Begun(es[..|es| - 1]);
      CanariesElsewhere(es[..|es| - 1]);
    }
  }

  /** The first edit of a block is a split, and it refills the route that pays. */
  lemma FirstEdit(rs: Routes, es: seq<Edit>, f: nat)
    requires Bounded(rs, es) && Fitting(es) && Unset(rs) && f < |es| && !es[f].Elsewhere? && !Begun(es[..f])
    ensures es[f].Take? && es[f].base < |rs| && RefillsAt(rs, es[..f + 1], es[f].base) == 1
  {
    CanariesElsewhere(es[..f]);
    assert FitsAt(es, f);
    assert es[..f + 1][..f] == es[..f];
    assert forall n :: 0 <= n < f ==> es[..f][n].Elsewhere?;
    NothingYet(rs, es[..f], es[f].base);
    UnsetIsZero(rs, es[f].base);
  }

  /** In a sound version the route of the first edit has been refilled once, and no other route ever pays. */
  lemma SoundHasOnePayer(rs: Routes, es: seq<Edit>, j: nat, i: nat)
    requires Bounded(rs, es) && Fitting(es) && Unset(rs) && Sound(Form(rs, es)) && i < |rs| && j < |rs|
    requires RefillsAt(rs, es, j) >= 1
    ensures |CanariesAt(es, j)| <= 10
    ensures i != j ==> CanariesAt(es, i) == []
  {
    TotalLaw(rs, es);
    FormNonNegative(rs, es);
    RefillsBound(rs, es, i, j);
    WeightLaw(rs, es, i);
    WeightLaw(rs, es, j);
    UnsetIsZero(rs, i);
    UnsetIsZero(rs, j);
  }

  lemma SoundAt(rs: Routes, es: seq<Edit>, f: nat, n: nat, i: nat)
    requires Bounded(rs, es) && Fitting(es) && Unset(rs) && SoundOnceBegun(rs, es)
    requires f < n <= |es| && !es[f].Elsewhere? && !Begun(es[..f]) && i < |rs|
    ensures es[f].base < |rs| && |CanariesAt(es[..n], es[f].base)| <= 10
    ensures i != es[f].base ==> CanariesAt(es[..n], i) == []
  {
    FirstEdit(rs, es, f);
    assert es[..n][..f + 1] == es[..f + 1] && es[..n][f] == es[f];
    assert Begun(es[..n]);
    RefillsGrow(rs, es[..n], f + 1, es[f].base);
    Prefix(rs, es, n);
    SoundHasOnePayer(rs, es[..n], es[f].base, i);
  }

  /** The route of an edit pays for a canary before or after it. */
  lemma PaysAround(es: seq<Edit>)
    requires Fitting(es) && es != [] && !es[|es| - 1].Elsewhere?
    ensures CanariesAt(es, es[|es| - 1].base) != [] || CanariesAt(es[..|es| - 1], es[|es| - 1].base) != []
  {
    if es[|es| - 1].Give? {
      GiverPaid(es);
    }
  }

  /** After the first edit, every edit is of the same route. */
  lemma SamePayer(rs: Routes, es: seq<Edit>, f: nat, n: nat)
    requires Bounded(rs, es) && Fitting(es) && Unset(rs) && SoundOnceBegun(rs, es)
    requires f < n < |es| && !es[f].Elsewhere? && !Begun(es[..f]) && !es[n].Elsewhere?
    ensures es[n].base == es[f].base
  {
    var upTo := es[..n + 1];
    assert upTo[|upTo| - 1] == es[n] && upTo[..|upTo| - 1] == es[..n];
    SoundAt(rs, es, f, n, es[n].base);
    SoundAt(rs, es, f, n + 1, es[n].base);
    Prefix(rs, es, n + 1);
    PaysAround(upTo);
  }

  lemma EarlierElsewhere(es: seq<Edit>, f: nat, n: nat)
    requires n < f <= |es| && !Begun(es[..f])
    ensures es[n].Elsewhere?
  {
    assert es[..f][n] == es[n];
  }

  lemma {:induction false} FirstBegun(es: seq<Edit>) returns (f: nat)
    requires Begun(es)
    ensures f < |es| && !es[f].Elsewhere? && !Begun(es[..f])
  {
    var n := |es| - 1;
    if Begun(es[..n]) {
      f := FirstBegun(es[..n]);
      assert es[..n][..f] == es[..f];
    } else {
      f := n;
      var k :| 0 <= k < |es| && !es[k].Elsewhere?;
      if k < n {
        EarlierElsewhere(es, n, k);
      }
    }
  }

  lemma SoundHasPayer(rs: Routes, es: seq<Edit>) returns (j: nat)
    requires Bounded(rs, es) && Fitting(es) && Unset(rs) && SoundOnceBegun(rs, es)
    ensures OnePays(es, j)
  {
    if Begun(es) {
      var f := FirstBegun(es);
      j := es[f].base;
      forall n | 0 <= n < |es| && !es[n].Elsewhere?
        ensures es[n].base == j
      {
        if n > f {
          SamePayer(rs, es, f, n);
        } else if n < f {
          EarlierElsewhere(es, f, n);
        }
      }
      forall n | 0 <= n <= |es|
        ensures |CanariesAt(es[..n], j)| <= 10
      {
        if n > f {
          SoundAt(rs, es, f, n, j);
        } else {
          assert forall m :: 0 <= m < n ==> es[..n][m].Elsewhere? by {
            assert forall m :: 0 <= m < f ==> es[..f][m].Elsewhere?;
          }
          UnpaidAt(es[..n], j);
        }
      }
    } else {
      j := 0;
      forall n | 0 <= n <= |es|
        ensures |CanariesAt(es[..n], j)| <= 10
      {
        UnpaidAt(es[..n], j);
      }
    }
  }

  lemma OnePaysPrefix(es: seq<Edit>, j: nat, n: nat)
    requires OnePays(es, j) && n <= |es|
    ensures OnePays(es[..n], j) && |CanariesAt(es[..n], j)| <= 10
  {
    assert forall m :: 0 <= m <= n ==> es[..n][..m] == es[..m];
  }

  lemma {:induction false} OnePaysRefill(rs: Routes, es: seq<Edit>, j: nat)
    requires Bounded(rs, es) && Fitting(es) && Unset(rs) && OnePays(es, j) && j < |rs|
    ensures Refills(rs, es) == RefillsAt(rs, es, j) == if Begun(es) then 1 else 0
  {
    if es != [] {
      var pre, e := es[..|es| - 1], es[|es| - 1];
      Prefix(rs, es, |es| - 1);
      OnePaysPrefix(es, j, |es| - 1);
      OnePaysRefill(rs, pre, j);
      BegunStep(pre, e);
      assert es == pre + [e];
      if e.Elsewhere? {
      } else if e.Give? {
        GivesAfterTakes(es);
      } else {
        OnePaysPrefix(es, j, |es|);
        assert es[..|es|] == es;
        WeightLaw(rs, pre, j);
        UnsetIsZero(rs, j);
        if !Begun(pre) {
          CountsElsewhere(pre, j);
        }
      }
    }
  }

  lemma BegunStep(pre: seq<Edit>, e: Edit)
    ensures Begun(pre + [e]) <==> Begun(pre) || !e.Elsewhere?
  {
    if Begun(pre) {
      var n :| 0 <= n < |pre| && !pre[n].Elsewhere?;
      assert !(pre + [e])[n].Elsewhere?;
    }
    if !e.Elsewhere? {
      assert !(pre + [e])[|pre|].Elsewhere?;
    }
  }

  lemma GivesAfterTakes(es: seq<Edit>)
    requires Fitting(es) && es != [] && es[|es| - 1].Give?
    ensures Begun(es[..|es| - 1])
  {
    LastFits(es);
    if !Begun(es[..|es| - 1]) {
      CanariesElsewhere(es[..|es| - 1]);
    }
  }

  lemma CountsElsewhere(es: seq<Edit>, j: nat)
    requires !Begun(es)
    ensures CanariesAt(es, j) == []
  {
    UnpaidAt(es, j);
  }

  lemma OnePaysIsSound(rs: Routes, es: seq<Edit>, j: nat)
    requires Bounded(rs, es) && Fitting(es) && Unset(rs) && OnePays(es, j) && Begun(es)
    ensures Sound(Form(rs, es))
  {
    var k :| 0 <= k < |es| && !es[k].Elsewhere?;
    assert es[k].base == j;
    OnePaysRefill(rs, es, j);
    TotalLaw(rs, es);
    OnePaysPrefix(es, j, |es|);
    assert es[..|es|] == es;
    forall i | 0 <= i < |rs|
      ensures Weight(rs, es, i) >= 0
    {
      UnsetIsZero(rs, i);
      if i == j {
        WeightLaw(rs, es, j);
      } else {
        NothingYet(rs, es, i);
      }
    }
    FormNonNegative(rs, es);
  }

  /**
   A block whose weights are not set is sound from its first split on if and only if one route alone
   ever pays, and never for more than ten canaries.
   */
  lemma SoundIffOnePays(rs: Routes, es: seq<Edit>)
    requires Bounded(rs, es) && Fitting(es) && Unset(rs)
    ensures SoundOnceBegun(rs, es) <==> exists j: nat :: OnePays(es, j)
  {
    if SoundOnceBegun(rs, es) {
      var j := SoundHasPayer(rs, es);
    }
    if exists j: nat :: OnePays(es, j) {
      var j: nat :| OnePays(es, j);
      forall n | 0 <= n <= |es| && Begun(es[..n])
        ensures Sound(Form(rs, es[..n]))
      {
        Prefix(rs, es, n);
        OnePaysPrefix(es, j, n);
        OnePaysIsSound(rs, es[..n], j);
      }
    }
  }

  // ----- the share of one route

  /** What a route has to give: weight 0 is read as 100. */
  function ShareOf(rs: Routes, j: nat): int
    requires j < |rs|
  {
    if WeightOf(rs[j]) == 0 then 100 else WeightOf(rs[j])
  }

  predicate EditedAt(es: seq<Edit>, j: nat) {
    exists n :: 0 <= n < |es| && !es[n].Elsewhere? && es[n].base == j
  }

  /** Route `j` never pays for more canaries than its share has tens. */
  ghost predicate Pays(rs: Routes, es: seq<Edit>, j: nat)
    requires j < |rs|
  {
    forall n :: 0 <= n <= |es| ==> |CanariesAt(es[..n], j)| <= ShareOf(rs, j) / 10
  }

  lemma PaysPrefix(rs: Routes, es: seq<Edit>, j: nat, n: nat)
    requires j < |rs| && Pays(rs, es, j) && n <= |es|
    ensures Pays(rs, es[..n], j) && |CanariesAt(es[..n], j)| <= ShareOf(rs, j) / 10
  {
    assert forall m :: 0 <= m <= n ==> es[..n][..m] == es[..m];
  }

  lemma EditedStep(pre: seq<Edit>, e: Edit, j: nat)
    ensures EditedAt(pre + [e], j) <==> EditedAt(pre, j) || (!e.Elsewhere? && e.base == j)
  {
    if EditedAt(pre, j) {
      var n :| 0 <= n < |pre| && !pre[n].Elsewhere? && pre[n].base == j;
      assert !(pre + [e])[n].Elsewhere? && (pre + [e])[n].base == j;
    }
    if !e.Elsewhere? && e.base == j {
      assert !(pre + [e])[|pre|].Elsewhere? && (pre + [e])[|pre|].base == j;
    }
  }

  /** The weight of route `j` while it can pay. */
  predicate HasShare(rs: Routes, es: seq<Edit>, j: nat)
    requires j < |rs|
  {
    Weight(rs, es, j) == if EditedAt(es, j) then ShareOf(rs, j) - 10 * |CanariesAt(es, j)| else WeightOf(rs[j])
  }

  lemma ShareStep(rs: Routes, es: seq<Edit>, pre: seq<Edit>, e: Edit, j: nat)
    requires es == pre + [e] && Fitting(es) && j < |rs| && HasShare(rs, pre, j)
    requires |CanariesAt(es, j)| <= ShareOf(rs, j) / 10
    ensures HasShare(rs, es, j)
  {
    assert es[..|es| - 1] == pre && es[|es| - 1] == e;
    EditedStep(pre, e, j);
    if !e.Elsewhere? && e.base == j {
      if !EditedAt(pre, j) {
        UnpaidAt(pre, j);
      }
      if e.Give? {
        GiverPaid(es);
        RemoveLength(CanariesAt(pre, j), e.canary);
      }
    }
  }

  /** While a route can pay, its weight is its share less ten for each canary it pays for, whatever other routes do. */
  lemma {:induction false} ShareLaw(rs: Routes, es: seq<Edit>, j: nat)
    requires Fitting(es) && j < |rs| && Pays(rs, es, j)
    ensures HasShare(rs, es, j)
  {
    if es != [] {
      var pre, e := es[..|es| - 1], es[|es| - 1];
      assert es == pre + [e];
      Prefix(rs, es, |es| - 1);
      PaysPrefix(rs, es, j, |es| - 1);
      ShareLaw(rs, pre, j);
      PaysPrefix(rs, es, j, |es|);
      assert es[..|es|] == es;
      ShareStep(rs, es, pre, e, j);
    }
  }

  /** Split `n` finds route `j` spent to weight 0, and takes it for one that was never set. */
  predicate FindsSpentAt(rs: Routes, es: seq<Edit>, j: nat, n: nat)
    requires j < |rs| && n < |es|
  {
    es[n].Take? && es[n].base == j && EditedAt(es[..n], j) && Weight(rs, es[..n], j) == 0
  }

  ghost predicate NeverSpentAt(rs: Routes, es: seq<Edit>, j: nat)
    requires j < |rs|
  {
    forall n :: 0 <= n < |es| ==> !FindsSpentAt(rs, es, j, n)
  }

  lemma SpentStep(rs: Routes, es: seq<Edit>, j: nat, n: nat)
    requires j < |rs| && |es| == n + 1
    ensures NeverSpentAt(rs, es, j) <==> NeverSpentAt(rs, es[..n], j) && !FindsSpentAt(rs, es, j, n)
  {
    var pre := es[..n];
    forall m | 0 <= m < n
      ensures FindsSpentAt(rs, pre, j, m) <==> FindsSpentAt(rs, es, j, m)
    {
      assert pre[..m] == es[..m] && pre[m] == es[m];
    }
    if NeverSpentAt(rs, es, j) {
      forall m | 0 <= m < n
        ensures !FindsSpentAt(rs, pre, j, m)
      {
        assert !FindsSpentAt(rs, es, j, m);
      }
    }
    if NeverSpentAt(rs, pre, j) && !FindsSpentAt(rs, es, j, n) {
      forall m | 0 <= m <= n
        ensures !FindsSpentAt(rs, es, j, m)
      {
        assert m < n ==> !FindsSpentAt(rs, pre, j, m);
      }
    }
  }

  /** The refills of a route whose weight is not set, by its first split. */
  function FirstRefill(rs: Routes, es: seq<Edit>, j: nat): nat
    requires j < |rs|
  {
    if EditedAt(es, j) && WeightOf(rs[j]) == 0 then 1 else 0
  }

  lemma GiverWasEdited(es: seq<Edit>, j: nat, n: nat)
    requires Fitting(es) && |es| == n + 1 && es[n].Give? && es[n].base == j
    ensures EditedAt(es[..n], j)
  {
    GiverPaid(es);
    if !EditedAt(es[..n], j) {
      UnpaidAt(es[..n], j);
    }
  }

  /** A route is refilled beyond that if and only if some split finds it spent. */
  lemma {:induction false} RefillsExpected(rs: Routes, es: seq<Edit>, j: nat)
    requires Fitting(es) && j < |rs|
    ensures RefillsAt(rs, es, j) >= FirstRefill(rs, es, j)
    ensures RefillsAt(rs, es, j) == FirstRefill(rs, es, j) <==> NeverSpentAt(rs, es, j)
  {
    if es != [] {
      var n := |es| - 1;
      assert es == es[..n] + [es[n]];
      Prefix(rs, es, n);
      RefillsExpected(rs, es[..n], j);
      SpentStep(rs, es, j, n);
      EditedStep(es[..n], es[n], j);
      if es[n].Give? && es[n].base == j {
        GiverWasEdited(es, j, n);
      }
      if !EditedAt(es[..n], j) {
        NothingYet(rs, es[..n], j);
      }
    }
  }

  /** A route's weight is its share less ten for each canary it pays for if and only if no split has found it spent. */
  lemma HasShareIff(rs: Routes, es: seq<Edit>, j: nat)
    requires Fitting(es) && j < |rs|
    ensures HasShare(rs, es, j) <==> NeverSpentAt(rs, es, j)
  {
    WeightLaw(rs, es, j);
    RefillsExpected(rs, es, j);
    if !EditedAt(es, j) {
      UnpaidAt(es, j);
      NothingYet(rs, es, j);
    }
  }

  lemma TakeStep(rs: Routes, es: seq<Edit>, e: Edit)
    requires Bounded(rs, es + [e]) && e.Take? && e.base < |rs|
    ensures Bounded(rs, es)
    ensures Weight(rs, es + [e], e.base) == SplitWeight(Weight(rs, es, e.base))
    ensures Refills(rs, es + [e]) == Refills(rs, es) + if Weight(rs, es, e.base) == 0 then 1 else 0
    ensures |CanariesAt(es + [e], e.base)| == |CanariesAt(es, e.base)| + 1
  {
    var all := es + [e];
    assert all[|all| - 1] == e && all[..|all| - 1] == es;
    Prefix(rs, all, |es|);
  }

  /** A route that pays for as many canaries as its share has tens has less than ten left. */
  lemma SpentWeight(rs: Routes, es: seq<Edit>, j: nat)
    requires Fitting(es) && j < |rs| && Pays(rs, es, j) && |CanariesAt(es, j)| >= ShareOf(rs, j) / 10
    ensures Weight(rs, es, j) <= 9
  {
    ShareLaw(rs, es, j);
    PaysPrefix(rs, es, j, |es|);
    assert es[..|es|] == es;
    if !EditedAt(es, j) {
      UnpaidAt(es, j);
    }
  }

  /** The split by which a route first pays for more than its share writes an unsound block. */
  lemma OverspendingTake(rs: Routes, es: seq<Edit>, e: Edit)
    requires Bounded(rs, es + [e]) && Fitting(es + [e]) && e.Take? && e.base < |rs|
    requires Pays(rs, es, e.base) && Sound(Form(rs, es)) && |CanariesAt(es + [e], e.base)| > ShareOf(rs, e.base) / 10
    ensures !Sound(Form(rs, es + [e]))
  {
    TakeStep(rs, es, e);
    Prefix(rs, es + [e], |es|);
    assert (es + [e])[..|es|] == es;
    SpentWeight(rs, es, e.base);
    TotalLaw(rs, es);
    TotalLaw(rs, es + [e]);
    FormNonNegative(rs, es);
    FormNonNegative(rs, es + [e]);
  }

  // ----- the round trip

  /** The original routes, an unset weight of an edited route being written out as 100. */
  function Restored(rs: Routes, es: seq<Edit>): Routes {
    seq(|rs|, j requires 0 <= j < |rs| => if EditedAt(es, j) then WithWeight(rs[j], ShareOf(rs, j)) else rs[j])
  }

  lemma HeldAt(es: seq<Edit>, j: nat, c: string)
    requires Fitting(es) && c in CanariesAt(es, j)
    ensures c in Canaries(es)
  {
    var n := TakerOf(es, j, c);
    PaidByEdit(es, n);
    CountsAgree(es, c, j);
    assert multiset(CanariesAt(es, j))[c] > 0;
  }

  lemma UnheldAt(es: seq<Edit>, j: nat)
    requires Fitting(es) && Canaries(es) == []
    ensures CanariesAt(es, j) == []
  {
    if CanariesAt(es, j) != [] {
      HeldAt(es, j, CanariesAt(es, j)[0]);
    }
  }

  lemma {:induction false} TakerOf(es: seq<Edit>, j: nat, c: string) returns (n: nat)
    requires c in CanariesAt(es, j)
    ensures n < |es| && es[n] == Take(j, c)
  {
    var pre := es[..|es| - 1];
    if c in CanariesAt(pre, j) {
      n := TakerOf(pre, j, c);
    } else {
      n := |es| - 1;
      if es[n].Give? {
        RemoveCounts(CanariesAt(pre, j), es[n].canary, c);
      }
    }
  }

  /** Who holds a route was split for it. */
  lemma {:induction false} HolderOf(es: seq<Edit>, c: string) returns (n: nat)
    requires c in Canaries(es)
    ensures n < |es| && es[n].Take? && es[n].canary == c
  {
    var pre := es[..|es| - 1];
    if c in Canaries(pre) {
      n := HolderOf(pre, c);
    } else {
      n := |es| - 1;
      if es[n].Give? {
        RemoveCounts(Canaries(pre), es[n].canary, c);
      }
    }
  }

  lemma RestoredAt(rs: Routes, es: seq<Edit>, j: nat)
    requires Bounded(rs, es) && Fitting(es) && Canaries(es) == [] && j < |rs|
    ensures Reweighed(rs, es)[j] == Restored(rs, es)[j] <==> NeverSpentAt(rs, es, j)
  {
    HasShareIff(rs, es, j);
    UnheldAt(es, j);
    if EditedAt(es, j) {
      var n :| 0 <= n < |es| && !es[n].Elsewhere? && es[n].base == j;
      assert rs[j].Some?;
    }
  }

  /**
   When no canary holds a route any more, the block holds its original routes in their order, with their
   shares, if and only if no split has found a route spent.
   */
  lemma RoundTrip(rs: Routes, es: seq<Edit>)
    requires Bounded(rs, es) && Fitting(es) && Canaries(es) == []
    ensures Form(rs, es) == Restored(rs, es) <==> forall j :: 0 <= j < |rs| ==> NeverSpentAt(rs, es, j)
  {
    assert Form(rs, es) == Reweighed(rs, es);
    forall j | 0 <= j < |rs|
      ensures Reweighed(rs, es)[j] == Restored(rs, es)[j] <==> NeverSpentAt(rs, es, j)
    {
      RestoredAt(rs, es, j);
    }
  }
}
