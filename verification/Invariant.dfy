/** The inductive invariant of the protocol, and its preservation by every step. */
module Invariant {
  import opened Wrappers
  import opened VirtualServiceValues
  import opened Protocol

  // ----- sequences of presences

  ghost predicate Never(b: seq<bool>) {
    forall i :: 0 <= i < |b| ==> !b[i]
  }

  lemma Stays(b: seq<bool>, x: bool, seen: nat)
    ensures Gone(b) ==> Gone(b + [x])
    ensures Known(b, seen) ==> Known(b + [x], seen)
    ensures NoRevival(b) && (!x || !Gone(b)) ==> NoRevival(b + [x])
    ensures b != [] && x == b[|b| - 1] && NoRevival(b) ==> NoRevival(b + [x])
    ensures !Gone(b) && (x || b == [] || x == b[|b| - 1]) ==> !Gone(b + [x])
    ensures Never(b) && !x ==> Never(b + [x])
  {
    var t := b + [x];
    assert forall i :: 0 <= i < |b| ==> t[i] == b[i];
    if Gone(b) {
      var i, j :| 0 <= i < j < |b| && b[i] && !b[j];
      assert t[i] && !t[j];
    }
    if Known(b, seen) {
      var i :| 0 <= i < |b| && i <= seen && b[i];
      assert t[i];
    }
    if b != [] && x == b[|b| - 1] && NoRevival(b) {
      forall i, j, k | 0 <= i < j < k < |t| && t[i] && !t[j]
        ensures !t[k]
      {
        if k == |b| && j < |b| - 1 {
          assert !b[|b| - 1];
        }
      }
    }
    if !Gone(b) && b != [] && x == b[|b| - 1] {
      forall i, j | 0 <= i < j < |t| && t[i]
        ensures t[j]
      {
        if j == |b| && i < |b| - 1 {
          assert b[|b| - 1];
        }
      }
    }
  }

  /** What was there and is gone for good is not there now. */
  lemma GoneForGood(b: seq<bool>, k: nat)
    requires k < |b| && Gone(b[..k + 1]) && NoRevival(b)
    ensures !b[k]
  {
    var i, j :| 0 <= i < j < |b[..k + 1]| && b[..k + 1][i] && !b[..k + 1][j];
    assert b[i] && !b[j];
  }

  // ----- the invariant of one cell

  ghost predicate Ordered(hist: seq<Status>) {
    forall i, j :: 0 <= i <= j < |hist| ==> Rank(hist[i].progress) <= Rank(hist[j].progress)
  }

  /** It does not come back once it was taken away, and is not taken away before the Cleanup stage. */
  ghost predicate Kept(b: seq<bool>, p: Progress) {
    NoRevival(b) && (p != Cleanup ==> !Gone(b))
  }

  ghost predicate StatusInv(s: Status) {
    && (Rank(s.progress) >= 1 ==> s.init != Blank)
    && (Rank(s.progress) >= 4 ==> s.canary == Success && Judged(s))
    && (s.progress == Canary ==> s.canary == Queued || s.canary == InProgress || s.canary == Success)
    && (s.progress == Cleanup ==> s.init == Success)
    && (s.cleanup == Success ==> s.progress == Cleanup)
  }

  /** The claims of a status about the canary's route, given in which versions the route was there. */
  ghost predicate RouteInv(s: Status, passed: Option<nat>, routes: seq<bool>, seen: nat) {
    && (s.canary == Success ==> Known(routes, seen))
    && (s.cleanup == Success ==> Gone(routes))
    && Kept(routes, s.progress)
    // no route without a passed test
    && (passed.None? ==> Never(routes))
  }

  /** A verdict on a job rests on a read of its exit code. */
  ghost predicate VerdictsRead(s: Status, ended: set<Ended>) {
    && (s.testing == Failure ==> HasFailed(ended, false))
    && (s.judging == Success ==> Ended(true, 0) in ended)
    && (s.judging == Failure ==> HasFailed(ended, true))
  }

  /** The claims of a status about the canary's own objects. */
  ghost predicate OwnInv(cell: Cell) {
    && cell.Valid()
    && var s := cell.cfg.Latest();
    && Ordered(cell.cfg.hist) && StatusInv(s)
    // what the status says, the cache has held
    && (s.init != Blank ==> Known(Presence(cell.canaryDep.hist), cell.canaryDep.seen))
    && (Rank(s.progress) >= 3 || s.testing == Success ==> cell.passed.Some?)
    && (cell.passed.Some? ==>
       Known(PassPresence(cell.testPod.hist), cell.testPod.seen) && cell.passed.value <= cell.round)
    && (Judged(s) ==> Known(Presence(cell.judgePod.hist), cell.judgePod.seen))
    && VerdictsRead(s, cell.ended)
    && (s.cleanup == Success ==>
          Gone(Presence(cell.testPod.hist)) && Gone(Presence(cell.judgePod.hist))
          && Gone(Presence(cell.canaryDep.hist)))
    // nothing reappears; the deployment may be deleted by others at any stage
    && Kept(Presence(cell.testPod.hist), s.progress) && Kept(Presence(cell.judgePod.hist), s.progress)
    && NoRevival(Presence(cell.canaryDep.hist))
  }

  ghost predicate CellInv(c: string, cell: Cell, vs: Obj<SpecValue>) {
    && OwnInv(cell) && vs.Valid()
    && RouteInv(cell.cfg.Latest(), cell.passed, RoutePresence(vs.hist, cell.service, c), vs.seen)
  }

  // ----- the invariant of the VirtualService

  function Services(cells: map<string, Cell>): map<string, string> {
    map c | c in cells :: cells[c].service
  }

  ghost predicate Named(svcs: map<string, string>) {
    forall c, d :: c in svcs && d in svcs ==> c != svcs[d]
  }

  /** A version that every canary sees like the first one, but for the canaries' own routes, at most one each. */
  ghost predicate VersionInv(svcs: map<string, string>, first: SpecValue, v: SpecValue) {
    forall c :: c in svcs ==>
         && Readable(v, svcs[c])
         && FindBlock(BlocksOf(v), svcs[c]) == FindBlock(BlocksOf(first), svcs[c])
         && AtMostOne(ServiceRoutes(v, svcs[c]), c)
  }

  /** Each version is the one before with one fitting split or merge applied. */
  ghost predicate Chain(hist: seq<SpecValue>, ops: seq<Op>) {
    && |hist| == |ops| + 1
    && forall n :: 0 <= n < |ops| ==> OpFits(hist[n], ops[n]) && hist[n + 1] == ApplyOp(hist[n], ops[n])
  }

  ghost predicate OpsOf(svcs: map<string, string>, ops: seq<Op>) {
    forall n :: 0 <= n < |ops| ==> ops[n].canary in svcs && ops[n].svc == svcs[ops[n].canary]
  }

  ghost predicate VsInv(svcs: map<string, string>, vs: Obj<SpecValue>, ops: seq<Op>) {
    && vs.Valid() && Named(svcs) && Chain(vs.hist, ops) && OpsOf(svcs, ops)
    && Versions(svcs, vs.hist)
  }

  ghost predicate Versions(svcs: map<string, string>, hist: seq<SpecValue>) {
    forall k :: 0 <= k < |hist| ==> VersionInv(svcs, hist[0], hist[k])
  }

  ghost predicate CellsInv(cells: map<string, Cell>, vs: Obj<SpecValue>) {
    forall c :: c in cells ==> CellInv(c, cells[c], vs)
  }

  ghost predicate Inv(w: World) {
    VsInv(Services(w.cells), w.vs, w.ops) && CellsInv(w.cells, w.vs)
  }

  /**
   The start: statuses empty, no pods, no canary routed, names that do not clash. Deployments may or may not
   exist.
   */
  ghost predicate InitialCell(c: string, cell: Cell, vs: SpecValue) {
    && cell.cfg == Obj([BLANK_STATUS], 0)
    && cell.testPod == Obj([None], 0) && cell.judgePod == Obj([None], 0)
    && |cell.canaryDep.hist| == 1 && cell.canaryDep.seen == 0
    && |cell.baselineDep.hist| == 1 && cell.baselineDep.seen == 0
    && cell.round == 0 && cell.sawCanary.None? && cell.sawBaseline.None? && cell.passed.None?
    && cell.ended == {}
    && !HasRoute(vs, cell.service, c) && Readable(vs, cell.service)
  }

  ghost predicate Initial(w: World) {
    && |w.vs.hist| == 1 && w.vs.seen == 0 && w.ops == [] && Named(Services(w.cells))
    && forall c :: c in w.cells ==> InitialCell(c, w.cells[c], w.vs.hist[0])
  }

  lemma InitialCellInv(c: string, cell: Cell, vs: Obj<SpecValue>)
    requires vs.Valid() && |vs.hist| == 1 && InitialCell(c, cell, vs.hist[0])
    ensures CellInv(c, cell, vs)
  {
  }

  lemma InitialVersion(w: World, c: string)
    requires Initial(w) && c in w.cells
    ensures CellInv(c, w.cells[c], w.vs)
    ensures var v, svc := w.vs.hist[0], w.cells[c].service; Readable(v, svc) && AtMostOne(ServiceRoutes(v, svc), c)
  {
    assert InitialCell(c, w.cells[c], w.vs.hist[0]);
    UnroutedAtMostOne(ServiceRoutes(w.vs.hist[0], w.cells[c].service), c);
    InitialCellInv(c, w.cells[c], w.vs);
  }

  lemma InitialVersions(w: World, svcs: map<string, string>)
    requires Initial(w) && svcs == Services(w.cells)
    ensures VersionInv(svcs, w.vs.hist[0], w.vs.hist[0])
  {
    forall c | c in svcs
      ensures Readable(w.vs.hist[0], svcs[c]) && AtMostOne(ServiceRoutes(w.vs.hist[0], svcs[c]), c)
    {
      InitialVersion(w, c);
    }
  }

  lemma InitialInv(w: World)
    requires Initial(w)
    ensures Inv(w)
  {
    InitialVersions(w, Services(w.cells));
    forall c | c in w.cells
      ensures CellInv(c, w.cells[c], w.vs)
    {
      InitialVersion(w, c);
    }
  }

  // ----- preservation: steps within one cell

  lemma PutKeeps(c: string, cell: Cell, vs: Obj<SpecValue>, t: Status)
    requires CellInv(c, cell, vs) && MayPut(FactsOf(c, cell, vs), cell.SawBoth(), cell.cfg.Latest(), t)
    ensures CellInv(c, cell.(cfg := cell.cfg.Put(t)), vs)
  {
    var s := cell.cfg.Latest();
    assert Rank(s.progress) <= Rank(t.progress);
    assert StatusInv(t);
    assert Ordered(cell.cfg.hist + [t]);
  }

  lemma ReadKeeps(c: string, cell: Cell, vs: Obj<SpecValue>, kind: Kind, to: nat)
    requires CellInv(c, cell, vs) && CanRead(cell, kind, to)
    ensures CellInv(c, Seen(cell, kind, to), vs)
    ensures CellInv(c, Noted(cell, kind, to), vs)
  {
    if kind == TestPod && Passed(cell.testPod.hist[to]) {
      assert PassPresence(cell.testPod.hist)[to];
    }
  }

  lemma PodKeeps(c: string, cell: Cell, vs: Obj<SpecValue>, judge: bool, pod: Option<Pod>)
    requires CellInv(c, cell, vs)
    requires var was, p := cell.Pod(judge).Latest().Some?, cell.cfg.Latest().progress;
             was == pod.Some? || (pod.Some? && p != Cleanup) || (pod.None? && p == Cleanup)
    ensures CellInv(c, cell.WithPod(judge, cell.Pod(judge).Put(pod)), vs)
  {
    PresenceKeeps(cell.Pod(judge), pod, cell.cfg.Latest().progress);
    if !judge {
      var o := cell.testPod;
      assert PassPresence(o.hist + [pod]) == PassPresence(o.hist) + [Passed(pod)];
      Stays(PassPresence(o.hist), Passed(pod), o.seen);
    }
  }

  lemma PresenceKeeps<T>(o: Obj<Option<T>>, x: Option<T>, p: Progress)
    requires o.Valid() && Kept(Presence(o.hist), p)
    requires var was := o.Latest().Some?;
             was == x.Some? || (x.Some? && p != Cleanup) || (x.None? && p == Cleanup)
    ensures Kept(Presence(o.Put(x).hist), p)
    ensures Gone(Presence(o.hist)) ==> Gone(Presence(o.Put(x).hist))
    ensures Known(Presence(o.hist), o.seen) ==> Known(Presence(o.Put(x).hist), o.seen)
  {
    assert Presence(o.hist + [x]) == Presence(o.hist) + [x.Some?];
    Stays(Presence(o.hist), x.Some?, o.seen);
  }

  /** A deployment that is there reports or is deleted, by anybody, or one that was never there appears. */
  lemma DepPresence(o: Obj<Option<int>>, available: Option<int>)
    requires o.Valid() && NoRevival(Presence(o.hist)) && (o.Latest().Some? || NeverThere(o.hist))
    ensures NoRevival(Presence(o.Put(available).hist))
    ensures Gone(Presence(o.hist)) ==> Gone(Presence(o.Put(available).hist))
    ensures Known(Presence(o.hist), o.seen) ==> Known(Presence(o.Put(available).hist), o.seen)
  {
    assert Presence(o.hist + [available]) == Presence(o.hist) + [available.Some?];
    if NeverThere(o.hist) {
      assert !Gone(Presence(o.hist)) && !Known(Presence(o.hist), o.seen);
    }
    Stays(Presence(o.hist), available.Some?, o.seen);
  }

  lemma DepKeeps(c: string, cell: Cell, vs: Obj<SpecValue>, available: Option<int>)
    requires CellInv(c, cell, vs) && (cell.canaryDep.Latest().Some? || NeverThere(cell.canaryDep.hist))
    ensures CellInv(c, cell.(canaryDep := cell.canaryDep.Put(available)), vs)
  {
    DepPresence(cell.canaryDep, available);
  }

  lemma CellKeeps(c: string, cell: Cell, vs: Obj<SpecValue>, step: Step)
    requires CellInv(c, cell, vs) && CellEnabled(c, cell, vs, step)
    ensures CellInv(c, CellAfter(cell, step), vs)
  {
    match step
    case Refresh(_, kind, to) => ReadKeeps(c, cell, vs, kind, to);
    case Read(_, kind, to) => ReadKeeps(c, cell, vs, kind, to);
    case PodChange(_, judge, pod) => PodKeeps(c, cell, vs, judge, Some(pod));
    case CreatePod(_, judge) => PodKeeps(c, cell, vs, judge, Some([]));
    case DeletePod(_, judge) => PodKeeps(c, cell, vs, judge, None);
    case DeleteCanaryDep(_) => DepKeeps(c, cell, vs, None);
    case DepChange(_, baseline, available) =>
      if !baseline {
        DepKeeps(c, cell, vs, available);
      }
    case PutStatus(_, _, t) => PutKeeps(c, cell, vs, t);
    case _ =>
  }

  // ----- preservation: steps of the VirtualService

  lemma SeenKeeps(cells: map<string, Cell>, vs: Obj<SpecValue>, to: nat)
    requires CellsInv(cells, vs) && vs.seen <= to < |vs.hist|
    ensures CellsInv(cells, vs.(seen := to))
  {
  }

  lemma RouteKeeps(s: Status, passed: Option<nat>, routes: seq<bool>, seen: nat, now: bool)
    requires RouteInv(s, passed, routes, seen) && routes != []
    requires var was := routes[|routes| - 1];
             was == now || (now && s.progress != Cleanup) || (!now && s.progress == Cleanup)
    requires passed.None? && now ==> routes[|routes| - 1]
    ensures RouteInv(s, passed, routes + [now], seen)
  {
    Stays(routes, now, seen);
  }

  lemma RouteVersionKeeps(c: string, svc: string, s: Status, passed: Option<nat>, vs: Obj<SpecValue>, v: SpecValue,
                          was: bool, now: bool)
    requires vs.Valid() && RouteInv(s, passed, RoutePresence(vs.hist, svc, c), vs.seen)
    requires was == HasRoute(vs.Latest(), svc, c) && now == HasRoute(v, svc, c)
    requires was == now || (now && s.progress != Cleanup && passed.Some?) || (!now && s.progress == Cleanup)
    ensures RouteInv(s, passed, RoutePresence(vs.Put(v).hist, svc, c), vs.seen)
  {
    RoutePresenceOfPut(vs.hist, v, svc, c);
    RouteKeeps(s, passed, RoutePresence(vs.hist, svc, c), vs.seen, now);
  }

  /** A new version of the VirtualService, seen by canary `c`. */
  lemma VersionKeeps(c: string, cell: Cell, vs: Obj<SpecValue>, v: SpecValue, was: bool, now: bool)
    requires CellInv(c, cell, vs) && was == HasRoute(vs.Latest(), cell.service, c)
             && now == HasRoute(v, cell.service, c)
    requires var p := cell.cfg.Latest().progress;
             was == now || (now && p != Cleanup && cell.passed.Some?) || (!now && p == Cleanup)
    ensures CellInv(c, cell, vs.Put(v))
  {
    RouteVersionKeeps(c, cell.service, cell.cfg.Latest(), cell.passed, vs, v, was, now);
  }

  lemma RoutePresenceOfPut(hist: seq<SpecValue>, v: SpecValue, svc: string, c: string)
    requires hist != []
    ensures RoutePresence(hist + [v], svc, c) == RoutePresence(hist, svc, c) + [HasRoute(v, svc, c)]
    ensures RoutePresence(hist, svc, c)[|hist| - 1] == HasRoute(hist[|hist| - 1], svc, c)
  {
  }

  lemma OpKeepsVersion(svcs: map<string, string>, first: SpecValue, v: SpecValue, op: Op)
    requires Named(svcs) && VersionInv(svcs, first, v) && OpFits(v, op)
    requires op.canary in svcs && op.svc == svcs[op.canary]
    ensures VersionInv(svcs, first, ApplyOp(v, op))
  {
    forall c | c in svcs
      ensures Readable(ApplyOp(v, op), svcs[c])
      ensures FindBlock(BlocksOf(ApplyOp(v, op)), svcs[c]) == FindBlock(BlocksOf(first), svcs[c])
      ensures AtMostOne(ServiceRoutes(ApplyOp(v, op), svcs[c]), c)
    {
      OpReadable(v, op, svcs[c]);
      OpEffect(v, op, svcs[c], c);
    }
  }

  lemma OpKeepsVs(svcs: map<string, string>, vs: Obj<SpecValue>, ops: seq<Op>, op: Op)
    requires VsInv(svcs, vs, ops) && OpFits(vs.Latest(), op)
    requires op.canary in svcs && op.svc == svcs[op.canary]
    ensures VsInv(svcs, vs.Put(ApplyOp(vs.Latest(), op)), ops + [op])
  {
    var k := |vs.hist| - 1;
    assert VersionInv(svcs, vs.hist[0], vs.hist[k]);
    OpKeepsVersion(svcs, vs.hist[0], vs.Latest(), op);
    VsExtends(svcs, vs, ops, op, ApplyOp(vs.Latest(), op));
  }

  lemma VsExtends(svcs: map<string, string>, vs: Obj<SpecValue>, ops: seq<Op>, op: Op, v: SpecValue)
    requires VsInv(svcs, vs, ops) && OpFits(vs.Latest(), op)
    requires op.canary in svcs && op.svc == svcs[op.canary]
    requires v == ApplyOp(vs.Latest(), op) && VersionInv(svcs, vs.hist[0], v)
    ensures VsInv(svcs, vs.Put(v), ops + [op])
  {
    ChainExtends(vs.hist, ops, op, v);
    VersionsExtend(svcs, vs.hist, v);
    OpsExtend(svcs, ops, op);
  }

  lemma ChainExtends(hist: seq<SpecValue>, ops: seq<Op>, op: Op, v: SpecValue)
    requires Chain(hist, ops) && OpFits(hist[|ops|], op) && v == ApplyOp(hist[|ops|], op)
    ensures Chain(hist + [v], ops + [op])
  {
  }

  lemma OpsExtend(svcs: map<string, string>, ops: seq<Op>, op: Op)
    requires OpsOf(svcs, ops) && op.canary in svcs && op.svc == svcs[op.canary]
    ensures OpsOf(svcs, ops + [op])
  {
  }

  lemma VersionsExtend(svcs: map<string, string>, hist: seq<SpecValue>, v: SpecValue)
    requires hist != [] && VersionInv(svcs, hist[0], v)
    requires Versions(svcs, hist)
    ensures Versions(svcs, hist + [v])
  {
  }

  /** What one canary sees of another's edit, and of its own. */
  lemma OpKeepsCell(svcs: map<string, string>, vs: Obj<SpecValue>, ops: seq<Op>, op: Op, c: string, cell: Cell)
    requires VsInv(svcs, vs, ops) && OpFits(vs.Latest(), op)
    requires op.canary in svcs && op.svc == svcs[op.canary]
    requires c in svcs && svcs[c] == cell.service && CellInv(c, cell, vs)
    requires c == op.canary ==>
               if op.SplitOp? then cell.cfg.Latest().progress != Cleanup && cell.passed.Some?
               else cell.cfg.Latest().progress == Cleanup
    ensures CellInv(c, cell, vs.Put(ApplyOp(vs.Latest(), op)))
  {
    var k := |vs.hist| - 1;
    assert VersionInv(svcs, vs.hist[0], vs.hist[k]);
    OpEffect(vs.Latest(), op, cell.service, c);
    var was := HasRoute(vs.Latest(), cell.service, c);
    VersionKeeps(c, cell, vs, ApplyOp(vs.Latest(), op), was, if c == op.canary then op.SplitOp? else was);
  }

  lemma OpKeeps(w: World, op: Op)
    requires Inv(w) && OpFits(w.vs.Latest(), op)
    requires op.canary in w.cells && op.svc == w.cells[op.canary].service
    requires var cell := w.cells[op.canary];
             if op.SplitOp? then cell.cfg.Latest().progress != Cleanup && cell.passed.Some?
             else cell.cfg.Latest().progress == Cleanup
    ensures Inv(World(w.cells, w.vs.Put(ApplyOp(w.vs.Latest(), op)), w.ops + [op]))
  {
    OpKeepsVs(Services(w.cells), w.vs, w.ops, op);
    forall c | c in w.cells
      ensures CellInv(c, w.cells[c], w.vs.Put(ApplyOp(w.vs.Latest(), op)))
    {
      OpKeepsCell(Services(w.cells), w.vs, w.ops, op, c, w.cells[c]);
    }
  }

  // ----- preservation

  lemma CellsUpdate(cells: map<string, Cell>, vs: Obj<SpecValue>, c: string, cell: Cell)
    requires CellsInv(cells, vs) && c in cells && CellInv(c, cell, vs) && cell.service == cells[c].service
    ensures CellsInv(cells[c := cell], vs) && Services(cells[c := cell]) == Services(cells)
  {
  }

  lemma LocalStep(w: World, step: Step)
    requires Inv(w) && Enabled(w, step)
    requires !step.RefreshVs? && !step.ReadVs? && !step.SplitVs? && !step.MergeVs?
    ensures Inv(Apply(w, step))
  {
    CellKeeps(step.c, w.cells[step.c], w.vs, step);
    CellsUpdate(w.cells, w.vs, step.c, CellAfter(w.cells[step.c], step));
  }

  lemma ReadIsSeen(w: World, step: Step)
    requires w.vs.Valid() && Enabled(w, step) && (step.RefreshVs? || step.ReadVs?)
    ensures w.vs.seen <= step.to < |w.vs.hist| && Apply(w, step) == w.(vs := w.vs.(seen := step.to))
  {
    assert step.ReadVs? ==> w.cells[step.c := w.cells[step.c]] == w.cells;
  }

  lemma ReadStep(w: World, step: Step)
    requires Inv(w) && Enabled(w, step) && (step.RefreshVs? || step.ReadVs?)
    ensures Inv(Apply(w, step))
  {
    assert Apply(w, step) == w.(vs := w.vs.(seen := step.to)) by {
      ReadIsSeen(w, step);
    }
    SeenKeeps(w.cells, w.vs, step.to);
  }

  /** The edit a step makes to the VirtualService. */
  function EditOf(w: World, step: Step): Op
    requires step.SplitVs? || step.MergeVs?
    requires step.c in w.cells
  {
    if step.SplitVs? then SplitOp(step.c, w.cells[step.c].service) else MergeOp(step.c, w.cells[step.c].service)
  }

  lemma EditStep(w: World, step: Step)
    requires w.vs.Valid() && Enabled(w, step) && (step.SplitVs? || step.MergeVs?)
    ensures Apply(w, step) ==
              World(w.cells, w.vs.Put(ApplyOp(w.vs.Latest(), EditOf(w, step))), w.ops + [EditOf(w, step)])
  {
    assert w.cells[step.c := w.cells[step.c]] == w.cells;
  }

  lemma NextInv(w: World, step: Step)
    requires Inv(w) && Enabled(w, step)
    ensures Inv(Next(w, step))
  {
    if step.RefreshVs? || step.ReadVs? {
      ReadStep(w, step);
    } else if step.SplitVs? || step.MergeVs? {
      EditStep(w, step);
      OpKeeps(w, EditOf(w, step));
    } else {
      LocalStep(w, step);
    }
  }

  lemma {:induction false} RunInv(w: World, log: seq<Step>)
    requires Inv(w) && Run(w, log)
    ensures Inv(Play(w, log))
  {
    if log != [] {
      RunInv(w, log[..|log| - 1]);
      NextInv(Play(w, log[..|log| - 1]), log[|log| - 1]);
    }
  }
}
