/**
 The cluster from where the Reconcile of one canary stands: what it may rely on while others act
 between its calls, and what each of its own steps adds.
 */
module Standpoint {
  import opened Wrappers
  import opened VirtualServiceValues
  import opened Protocol
  import opened Invariant
  import opened Safety

  /** What only the canary's own Reconcile changes, and the facts, which only accumulate. */
  datatype View = View(
    service: string, statuses: seq<Status>,
    round: nat, sawCanary: Option<nat>, sawBaseline: Option<nat>, passed: Option<nat>, facts: Facts)
  {
    predicate SawBoth() {
      sawCanary == Some(round) && sawBaseline == Some(round)
    }

    function Stored(): Status {
      if statuses == [] then BLANK_STATUS else statuses[|statuses| - 1]
    }

    function Progress(): Progress {
      Stored().progress
    }
  }

  function ViewOf(c: string, cell: Cell, vs: Obj<SpecValue>): View {
    View(cell.service, cell.cfg.hist, cell.round, cell.sawCanary, cell.sawBaseline, cell.passed, FactsOf(c, cell, vs))
  }

  predicate Implies(f: Facts, g: Facts) {
    && (f.tested ==> g.tested)
    && (f.canaryWas ==> g.canaryWas) && (f.judgeWas ==> g.judgeWas) && (f.routeWas ==> g.routeWas)
    && (f.testGone ==> g.testGone) && (f.judgeGone ==> g.judgeGone)
    && (f.canaryGone ==> g.canaryGone) && (f.routeGone ==> g.routeGone) && f.ended <= g.ended
  }

  /** Facts may have been added; all else is as it was. */
  predicate Later(a: View, b: View) {
    b == a.(facts := b.facts) && Implies(a.facts, b.facts)
  }

  // ----- facts accumulate

  lemma PresencesGrow(b: seq<bool>, b': seq<bool>, seen: nat, seen': nat)
    requires b <= b' && seen <= seen'
    ensures Known(b, seen) ==> Known(b', seen')
    ensures Gone(b) ==> Gone(b')
  {
    if Known(b, seen) {
      var i :| 0 <= i < |b| && i <= seen && b[i];
      assert b'[i];
    }
    if Gone(b) {
      var i, j :| 0 <= i < j < |b| && b[i] && !b[j];
      assert b'[i] && !b'[j];
    }
  }

  lemma ObjectGrows<T>(a: Obj<Option<T>>, b: Obj<Option<T>>)
    requires Grown(a, b)
    ensures Known(Presence(a.hist), a.seen) ==> Known(Presence(b.hist), b.seen)
    ensures Gone(Presence(a.hist)) ==> Gone(Presence(b.hist))
  {
    assert Presence(a.hist) == Presence(b.hist)[..|a.hist|];
    PresencesGrow(Presence(a.hist), Presence(b.hist), a.seen, b.seen);
  }

  lemma RouteGrows(c: string, svc: string, a: Obj<SpecValue>, b: Obj<SpecValue>)
    requires Grown(a, b)
    ensures Known(RoutePresence(a.hist, svc, c), a.seen) ==> Known(RoutePresence(b.hist, svc, c), b.seen)
    ensures Gone(RoutePresence(a.hist, svc, c)) ==> Gone(RoutePresence(b.hist, svc, c))
  {
    PresencePrefix(c, svc, a.hist, b.hist);
    PresencesGrow(RoutePresence(a.hist, svc, c), RoutePresence(b.hist, svc, c), a.seen, b.seen);
  }

  lemma FactsGrow(c: string, a: Cell, b: Cell, vs: Obj<SpecValue>, vs': Obj<SpecValue>)
    requires CellGrown(a, b) && Grown(vs, vs')
    ensures Implies(FactsOf(c, a, vs), FactsOf(c, b, vs'))
  {
    ObjectGrows(a.testPod, b.testPod);
    ObjectGrows(a.judgePod, b.judgePod);
    ObjectGrows(a.canaryDep, b.canaryDep);
    RouteGrows(c, a.service, vs, vs');
  }

  // ----- what the others do

  predicate Others(steps: seq<Step>, c: string) {
    forall i :: 0 <= i < |steps| ==> !Own(steps[i], c)
  }

  /** The cell of a canary after others have acted. */
  ghost predicate Untouched(a: Cell, b: Cell) {
    && CellGrown(a, b) && (a.Valid() ==> b.Valid()) && a.cfg.hist == b.cfg.hist
    && a.round == b.round && a.sawCanary == b.sawCanary && a.sawBaseline == b.sawBaseline && a.passed == b.passed
    && a.ended == b.ended
  }

  lemma OthersCell(cell: Cell, step: Step)
    requires cell.Valid() && (step.Refresh? ==> CanRead(cell, step.kind, step.to))
    requires step.RefreshVs? || step.Refresh? || step.PodChange? || step.DepChange?
    ensures Untouched(cell, CellAfter(cell, step))
  {
  }

  lemma OthersStep(c: string, w: World, step: Step)
    requires w.vs.Valid() && Enabled(w, step) && !Own(step, c) && c in w.cells
    ensures var w' := Next(w, step);
            c in w'.cells && Untouched(w.cells[c], w'.cells[c]) && Grown(w.vs, w'.vs) && w'.vs.Valid()
  {
    VsStepGrows(w, step);
    StepOfCell(w, step, c);
    if !step.RefreshVs? && step.c == c {
      OthersCell(w.cells[c], step);
    }
  }

  lemma {:induction false} OthersRun(c: string, w: World, steps: seq<Step>, end: World)
    requires w.vs.Valid() && Run(w, steps) && Others(steps, c) && c in w.cells && end == Play(w, steps)
    ensures c in end.cells && Untouched(w.cells[c], end.cells[c])
    ensures Grown(w.vs, end.vs) && end.vs.Valid()
  {
    if steps != [] {
      var n := |steps| - 1;
      var before := Play(w, steps[..n]);
      RunLast(w, steps, steps[n], before);
      OthersRun(c, w, steps[..n], before);
      OthersStep(c, before, steps[n]);
    }
  }

  /** Between two calls of a Reconcile its view only gains facts. */
  lemma OthersView(c: string, w: World, steps: seq<Step>, end: World)
    requires w.vs.Valid() && Run(w, steps) && Others(steps, c) && c in w.cells && end == Play(w, steps)
    ensures c in end.cells && end.vs.Valid() && w.vs.hist <= end.vs.hist
            && (w.cells[c].Valid() ==> end.cells[c].Valid())
    ensures Later(ViewOf(c, w.cells[c], w.vs), ViewOf(c, end.cells[c], end.vs))
  {
    OthersRun(c, w, steps, end);
    FactsGrow(c, w.cells[c], end.cells[c], w.vs, end.vs);
  }

  /** How many stored objects the Reconcile of `c` has changed, one count per write. */
  function Written(log: seq<Step>, c: string): nat {
    if log == [] then 0
    else Written(log[..|log| - 1], c) + (if Own(log[|log| - 1], c) && Writes(log[|log| - 1]) then 1 else 0)
  }

  lemma {:induction false} OthersWrite(c: string, log: seq<Step>, steps: seq<Step>)
    requires Others(steps, c)
    ensures Written(log + steps, c) == Written(log, c)
  {
    if steps == [] {
      assert log + steps == log;
    } else {
      OthersWrite(c, log, steps[..|steps| - 1]);
      assert (log + steps)[..|log + steps| - 1] == log + steps[..|steps| - 1];
    }
  }

  lemma WrittenExtend(c: string, log: seq<Step>, step: Step)
    ensures Written(log + [step], c) == Written(log, c) + (if Own(step, c) && Writes(step) then 1 else 0)
  {
    assert (log + [step])[..|log|] == log;
  }

  // ----- what its own steps add

  /** A version read as absent, after the cache has held one where it was there, shows that it is gone. */
  lemma AbsentNow(b: seq<bool>, seen: nat, to: nat)
    requires Known(b, seen) && seen <= to < |b| && !b[to]
    ensures Gone(b)
  {
    var i :| 0 <= i < |b| && i <= seen && b[i];
    assert b[i] && !b[to];
  }

  lemma PassedWasThere(cell: Cell)
    ensures Known(PassPresence(cell.testPod.hist), cell.testPod.seen) ==>
              Known(Presence(cell.testPod.hist), cell.testPod.seen)
  {
    var hist := cell.testPod.hist;
    if Known(PassPresence(hist), cell.testPod.seen) {
      var i :| 0 <= i < |PassPresence(hist)| && i <= cell.testPod.seen && PassPresence(hist)[i];
      assert Presence(hist)[i];
    }
  }

  /** At the Cleanup stage the two pods and the deployment have been there. */
  lemma WereThere(cell: Cell)
    requires OwnInv(cell) && cell.cfg.Latest().progress == Cleanup
    ensures Known(Presence(cell.testPod.hist), cell.testPod.seen)
    ensures Known(Presence(cell.judgePod.hist), cell.judgePod.seen)
    ensures Known(Presence(cell.canaryDep.hist), cell.canaryDep.seen)
  {
    PassedWasThere(cell);
  }

  lemma Reads<T>(o: Obj<Option<T>>, to: nat)
    requires o.seen <= to < |o.hist|
    ensures o.hist[to].Some? ==> Known(Presence(o.hist), to)
    ensures o.hist[to].None? && Known(Presence(o.hist), o.seen) ==> Gone(Presence(o.hist))
  {
    if o.hist[to].None? && Known(Presence(o.hist), o.seen) {
      AbsentNow(Presence(o.hist), o.seen, to);
    } else if o.hist[to].Some? {
      assert Presence(o.hist)[to];
    }
  }

  lemma Deletes<T>(o: Obj<Option<T>>)
    requires o.Valid() && Known(Presence(o.hist), o.seen)
    ensures Gone(Presence(o.Put(None).hist))
  {
    assert Presence(o.Put(None).hist) == Presence(o.hist) + [false];
    assert Known(Presence(o.hist) + [false], o.seen) by {
      PresencesGrow(Presence(o.hist), Presence(o.hist) + [false], o.seen, o.seen);
    }
    AbsentNow(Presence(o.hist) + [false], o.seen, |o.hist|);
  }

  lemma RouteReads(c: string, svc: string, o: Obj<SpecValue>, to: nat)
    requires o.seen <= to < |o.hist|
    ensures HasRoute(o.hist[to], svc, c) ==> Known(RoutePresence(o.hist, svc, c), to)
    ensures !HasRoute(o.hist[to], svc, c) && Known(RoutePresence(o.hist, svc, c), o.seen) ==>
              Gone(RoutePresence(o.hist, svc, c))
  {
    var b := RoutePresence(o.hist, svc, c);
    assert b[to] == HasRoute(o.hist[to], svc, c);
    if !b[to] && Known(b, o.seen) {
      AbsentNow(b, o.seen, to);
    }
  }

  /** What a step of its own means to canary `c`. */
  ghost predicate Took(c: string, w: World, step: Step, next: World) {
    && c in w.cells && c in next.cells && w.vs.Valid() && w.cells[c].Valid() && Own(step, c)
    && (step.Read? ==> CanRead(w.cells[c], step.kind, step.to))
    && next.cells[c] == CellAfter(w.cells[c], step) && next.vs == VsAfter(w, step)
    && Implies(FactsOf(c, w.cells[c], w.vs), FactsOf(c, next.cells[c], next.vs))
  }

  lemma OwnStep(c: string, w: World, step: Step)
    requires w.vs.Valid() && Enabled(w, step) && Own(step, c)
    ensures Took(c, w, step, Next(w, step)) && Next(w, step).cells[c].Valid() && Next(w, step).vs.Valid()
  {
    StepOfCell(w, step, c);
    CellStepGrows(w.cells[c], step);
    CellStepValid(w.cells[c], step);
    VsStepGrows(w, step);
    FactsGrow(c, w.cells[c], Next(w, step).cells[c], w.vs, Next(w, step).vs);
  }

  lemma CellStepValid(cell: Cell, step: Step)
    requires cell.Valid() && (step.Read? || step.Refresh? ==> CanRead(cell, step.kind, step.to))
    ensures CellAfter(cell, step).Valid()
  {
  }

  // ----- where a run has come

  predicate Moves(worlds: seq<World>, log: seq<Step>, i: nat)
    requires |worlds| == |log| + 1 && i < |log|
  {
    Enabled(worlds[i], log[i]) && worlds[i + 1] == Next(worlds[i], log[i])
  }

  /** The worlds that a run goes through. */
  predicate Trace(worlds: seq<World>, log: seq<Step>) {
    |worlds| == |log| + 1 && forall i :: 0 <= i < |log| ==> Moves(worlds, log, i)
  }

  lemma TracePrefix(worlds: seq<World>, log: seq<Step>, n: nat)
    requires Trace(worlds, log) && n <= |log|
    ensures Trace(worlds[..n + 1], log[..n])
  {
    var worlds', log' := worlds[..n + 1], log[..n];
    forall i | 0 <= i < n
      ensures Moves(worlds', log', i)
    {
      assert Moves(worlds, log, i);
    }
  }

  lemma {:induction false} TraceIsRun(worlds: seq<World>, log: seq<Step>)
    requires Trace(worlds, log)
    ensures Run(worlds[0], log) && Play(worlds[0], log) == worlds[|log|]
  {
    if log != [] {
      var n := |log| - 1;
      TracePrefix(worlds, log, n);
      TraceIsRun(worlds[..n + 1], log[..n]);
      assert Moves(worlds, log, n) && log == log[..n] + [log[n]];
      RunExtend(worlds[0], log[..n], log[n]);
    }
  }

  lemma TraceConcat(worlds: seq<World>, log: seq<Step>, worlds': seq<World>, log': seq<Step>)
    requires Trace(worlds, log) && Trace(worlds', log') && worlds'[0] == worlds[|log|]
    ensures Trace(worlds[..|log|] + worlds', log + log')
  {
    forall i | 0 <= i < |log + log'|
      ensures Moves(worlds[..|log|] + worlds', log + log', i)
    {
      assert if i < |log| then Moves(worlds, log, i) else Moves(worlds', log', i - |log|);
    }
  }

  // ----- the stored objects, for runs in which nobody interferes

  datatype Snapshot = Snapshot(
    status: Status, testPod: Option<Pod>, judgePod: Option<Pod>,
    canaryDep: Option<int>, baselineDep: Option<int>, vs: SpecValue)
  {
    function Pod(judge: bool): Option<Pod> {
      if judge then judgePod else testPod
    }

    function WithPod(judge: bool, pod: Option<Pod>): Snapshot {
      if judge then this.(judgePod := pod) else this.(testPod := pod)
    }

    function Dep(baseline: bool): Option<int> {
      if baseline then baselineDep else canaryDep
    }
  }

  function SnapshotOf(cell: Cell, vs: Obj<SpecValue>): Snapshot
    requires cell.Valid() && vs.Valid()
  {
    Snapshot(cell.cfg.Latest(), cell.testPod.Latest(), cell.judgePod.Latest(),
             cell.canaryDep.Latest(), cell.baselineDep.Latest(), vs.Latest())
  }

  /** What canary `c` knows of world `w`, and what is stored there. */
  ghost predicate Shows(w: World, c: string, view: View, snap: Snapshot) {
    && c in w.cells && w.cells[c].Valid() && w.vs.Valid()
    && view == ViewOf(c, w.cells[c], w.vs) && snap == SnapshotOf(w.cells[c], w.vs)
  }

  /** The run has started as runs start, and its last world is `w`, which shows canary `c` that view. */
  ghost predicate Reached(worlds: seq<World>, log: seq<Step>, w: World, c: string, view: View, snap: Snapshot) {
    && Trace(worlds, log)
    && (forall v :: v in worlds[..1] ==> Initial(v))
    && (forall v :: v in worlds[|log|..] ==> v == w && Shows(v, c, view, snap))
  }

  /** Where every run starts. */
  lemma ReachedStart(w: World, c: string)
    requires Initial(w) && c in w.cells
    ensures w.cells[c].Valid() && w.vs.Valid()
    ensures Reached([w], [], w, c, ViewOf(c, w.cells[c], w.vs), SnapshotOf(w.cells[c], w.vs))
  {
    assert InitialCell(c, w.cells[c], w.vs.hist[0]);
    assert [w][0..] == [w] && [w][..1] == [w];
  }

  lemma ReachedLast(worlds: seq<World>, log: seq<Step>, w: World, c: string, view: View, snap: Snapshot)
    requires Reached(worlds, log, w, c, view, snap)
    ensures worlds[|log|] == w && Shows(w, c, view, snap)
  {
    assert worlds[|log|] in worlds[|log|..];
  }

  lemma ReachedInv(worlds: seq<World>, log: seq<Step>, w: World, c: string, view: View, snap: Snapshot)
    requires Reached(worlds, log, w, c, view, snap)
    ensures Inv(w)
  {
    ReachedLast(worlds, log, w, c, view, snap);
    TraceIsRun(worlds, log);
    assert worlds[0] in worlds[..1];
    InitialInv(worlds[0]);
    RunInv(worlds[0], log);
  }

  lemma ReachedMore(worlds: seq<World>, log: seq<Step>, w: World, c: string, view: View, snap: Snapshot,
                    worlds': seq<World>, log': seq<Step>, w': World, view': View, snap': Snapshot)
    requires Reached(worlds, log, w, c, view, snap)
    requires Trace(worlds', log') && worlds'[0] == w && worlds'[|log'|] == w' && Shows(w', c, view', snap')
    ensures Reached(worlds[..|log|] + worlds', log + log', w', c, view', snap')
  {
    ReachedLast(worlds, log, w, c, view, snap);
    TraceConcat(worlds, log, worlds', log');
    assert (worlds[..|log|] + worlds')[..1] == worlds[..1];
    assert (worlds[..|log|] + worlds')[|log + log'|..] == [w'];
  }

  lemma ReachedOthers(w: World, c: string, view: View, snap: Snapshot, worlds': seq<World>, log': seq<Step>, w': World)
    requires Shows(w, c, view, snap)
    requires Trace(worlds', log') && Others(log', c) && worlds'[0] == w && worlds'[|log'|] == w'
    ensures c in w'.cells && w'.cells[c].Valid() && w'.vs.Valid()
    ensures Later(view, ViewOf(c, w'.cells[c], w'.vs)) && w.vs.hist <= w'.vs.hist
  {
    TraceIsRun(worlds', log');
    OthersView(c, w, log', w');
  }

  // ----- a cached read

  function LastVersion(cell: Cell, kind: Kind): int {
    match kind
    case TestPod => |cell.testPod.hist| - 1
    case JudgePod => |cell.judgePod.hist| - 1
    case CanaryDep => |cell.canaryDep.hist| - 1
    case BaselineDep => |cell.baselineDep.hist| - 1
    case Config => |cell.cfg.hist| - 1
  }

  function SeenVersion(cell: Cell, kind: Kind): nat {
    match kind
    case TestPod => cell.testPod.seen
    case JudgePod => cell.judgePod.seen
    case CanaryDep => cell.canaryDep.seen
    case BaselineDep => cell.baselineDep.seen
    case Config => cell.cfg.seen
  }

  /** The view after a read, in which the cell is now `cell` and its cache has just moved to `to`. */
  ghost predicate AfterRead(a: View, b: View, cell: Cell, kind: Kind) {
    && cell.Valid() && Implies(a.facts, b.facts)
    && b == a.(facts := b.facts, sawCanary := b.sawCanary, sawBaseline := b.sawBaseline, passed := b.passed)
    && b.passed == (if kind == TestPod && Passed(cell.testPod.hist[cell.testPod.seen]) && a.passed.None?
                    then Some(a.round) else a.passed)
    && (kind == TestPod ==> EndsOf(cell.testPod.hist[cell.testPod.seen], false) <= b.facts.ended)
    && (kind == JudgePod ==> EndsOf(cell.judgePod.hist[cell.judgePod.seen], true) <= b.facts.ended)
    && b.sawCanary == (if kind != CanaryDep then a.sawCanary
                       else if Available(cell.canaryDep.hist[cell.canaryDep.seen]) then Some(a.round) else None)
    && b.sawBaseline == (if kind != BaselineDep then a.sawBaseline
                         else if Available(cell.baselineDep.hist[cell.baselineDep.seen]) then Some(a.round) else None)
  }

  lemma ReadView(a: View, b: View, cell: Cell, kind: Kind, to: nat)
    requires cell.Valid() && CanRead(cell, kind, to) && Implies(a.facts, b.facts)
    requires a == View(cell.service, cell.cfg.hist, cell.round, cell.sawCanary, cell.sawBaseline, cell.passed, a.facts)
    requires var n := Noted(cell, kind, to);
             && b == View(n.service, n.cfg.hist, n.round, n.sawCanary, n.sawBaseline, n.passed, b.facts)
             && b.facts.ended == n.ended
    ensures AfterRead(a, b, Noted(cell, kind, to), kind)
  {
  }

  lemma ReadVersions(cell: Cell, vs: Obj<SpecValue>, kind: Kind, to: nat)
    requires cell.Valid() && vs.Valid() && CanRead(cell, kind, to)
    ensures var cell' := Noted(cell, kind, to);
            && cell'.Valid() && SnapshotOf(cell', vs) == SnapshotOf(cell, vs)
            && SeenVersion(cell', kind) == to && LastVersion(cell', kind) == LastVersion(cell, kind)
  {
  }

  lemma ReadableLast(cell: Cell, kind: Kind)
    requires cell.Valid()
    ensures LastVersion(cell, kind) >= 0 && CanRead(cell, kind, LastVersion(cell, kind))
  {
  }

  // ----- the canary's own writes

  lemma PodDeleted(c: string, cell: Cell, vs: Obj<SpecValue>, judge: bool)
    requires OwnInv(cell) && cell.cfg.Latest().progress == Cleanup
    ensures var f := FactsOf(c, cell.WithPod(judge, cell.Pod(judge).Put(None)), vs);
            if judge then f.judgeGone else f.testGone
  {
    WereThere(cell);
    Deletes(cell.Pod(judge));
  }

  lemma CanaryDeleted(c: string, cell: Cell, vs: Obj<SpecValue>)
    requires OwnInv(cell) && cell.cfg.Latest().progress == Cleanup && vs.Valid()
    ensures FactsOf(c, cell.(canaryDep := cell.canaryDep.Put(None)), vs).canaryGone
    ensures SnapshotOf(cell.(canaryDep := cell.canaryDep.Put(None)), vs) == SnapshotOf(cell, vs).(canaryDep := None)
  {
    WereThere(cell);
    Deletes(cell.canaryDep);
  }

  lemma PodFacts(c: string, cell: Cell, vs: Obj<SpecValue>, judge: bool)
    requires OwnInv(cell)
    ensures var o, f := cell.Pod(judge), FactsOf(c, cell, vs);
            && (judge && o.hist[o.seen].Some? ==> f.judgeWas)
            && (o.hist[o.seen].None? && cell.cfg.Latest().progress == Cleanup ==>
               if judge then f.judgeGone else f.testGone)
  {
    var o := cell.Pod(judge);
    Reads(o, o.seen);
    if cell.cfg.Latest().progress == Cleanup {
      WereThere(cell);
    }
  }

  lemma DepFacts(c: string, cell: Cell, vs: Obj<SpecValue>)
    requires OwnInv(cell)
    ensures var o, f := cell.canaryDep, FactsOf(c, cell, vs);
            && (o.hist[o.seen].Some? ==> f.canaryWas)
            && (o.hist[o.seen].None? && cell.cfg.Latest().progress == Cleanup ==> f.canaryGone)
  {
    var o := cell.canaryDep;
    Reads(o, o.seen);
    if cell.cfg.Latest().progress == Cleanup {
      WereThere(cell);
    }
  }

  /** The facts of a version of the VirtualService just read. */
  lemma RouteFacts(c: string, cell: Cell, vs: Obj<SpecValue>)
    requires CellInv(c, cell, vs)
    ensures var f := FactsOf(c, cell, vs);
            && (HasRoute(vs.hist[vs.seen], cell.service, c) ==> f.routeWas)
            && (!HasRoute(vs.hist[vs.seen], cell.service, c) && cell.cfg.Latest().progress == Cleanup ==> f.routeGone)
  {
    RouteReads(c, cell.service, vs, vs.seen);
  }

  /** After the merge of a canary's route the stored version has none. */
  lemma MergedFacts(c: string, cell: Cell, vs: Obj<SpecValue>, v: SpecValue)
    requires CellInv(c, cell, vs) && cell.cfg.Latest().progress == Cleanup && !HasRoute(v, cell.service, c)
    ensures FactsOf(c, cell, vs.Put(v)).routeGone
  {
    RouteGrows(c, cell.service, vs, vs.Put(v));
    RouteReads(c, cell.service, vs.Put(v), |vs.hist|);
  }

  lemma StageFacts(cell: Cell, k: nat)
    requires OwnInv(cell) && k < |cell.cfg.hist|
    ensures Rank(cell.cfg.hist[k].progress) <= Rank(cell.cfg.Latest().progress)
    ensures StatusInv(cell.cfg.Latest())
    ensures Rank(cell.cfg.Latest().progress) >= 3 ==> cell.passed.Some?
  {
  }

  lemma GoneNow<T>(o: Obj<Option<T>>)
    requires o.Valid() && Gone(Presence(o.hist)) && NoRevival(Presence(o.hist))
    ensures o.Latest().None?
  {
    assert Presence(o.hist)[..|o.hist|] == Presence(o.hist);
    GoneForGood(Presence(o.hist), |o.hist| - 1);
  }

  lemma ObjectsAreGone(cell: Cell)
    requires OwnInv(cell) && cell.cfg.Latest().cleanup == Success
    ensures cell.testPod.Latest().None? && cell.judgePod.Latest().None? && cell.canaryDep.Latest().None?
  {
    GoneNow(cell.testPod);
    GoneNow(cell.judgePod);
    GoneNow(cell.canaryDep);
  }

  lemma RouteIsGone(c: string, cell: Cell, vs: Obj<SpecValue>)
    requires CellInv(c, cell, vs) && cell.cfg.Latest().cleanup == Success
    ensures !HasRoute(vs.Latest(), cell.service, c)
  {
    var s := cell.cfg.Latest();
    CleanedRoute(c, cell.service, s, s, vs, vs, cell.passed, cell.passed);
  }

  lemma PodReported(c: string, w: World, judge: bool, pod: Pod)
    requires w.vs.Valid() && c in w.cells && w.cells[c].Valid() && w.cells[c].Pod(judge).Latest().Some?
    ensures var step := PodChange(c, judge, pod);
            && Enabled(w, step) && c in Next(w, step).cells && Next(w, step).cells[c].Valid()
            && Next(w, step).vs == w.vs
            && Later(ViewOf(c, w.cells[c], w.vs), ViewOf(c, Next(w, step).cells[c], w.vs))
            && SnapshotOf(Next(w, step).cells[c], w.vs) == SnapshotOf(w.cells[c], w.vs).WithPod(judge, Some(pod))
  {
    var step := PodChange(c, judge, pod);
    OthersStep(c, w, step);
    StepOfCell(w, step, c);
    FactsGrow(c, w.cells[c], Next(w, step).cells[c], w.vs, w.vs);
  }

  lemma NamesDiffer(w: World, c: string)
    requires Inv(w) && c in w.cells
    ensures c != w.cells[c].service
  {
    assert c in Services(w.cells);
  }

  lemma VersionsFit(w: World, k: nat, c: string)
    requires Inv(w) && c in w.cells && k < |w.vs.hist|
    ensures Readable(w.vs.hist[k], w.cells[c].service) && AtMostOne(ServiceRoutes(w.vs.hist[k], w.cells[c].service), c)
  {
    assert c in Services(w.cells);
    assert VersionInv(Services(w.cells), w.vs.hist[0], w.vs.hist[k]);
  }

  /** The canary's own merge leaves no route, so that its route is gone. */
  lemma MergeGone(w: World, c: string)
    requires Inv(w) && c in w.cells && HasRoute(w.vs.Latest(), w.cells[c].service, c)
    ensures !HasRoute(Merge(w.vs.Latest(), w.cells[c].service, c), w.cells[c].service, c)
    ensures w.cells[c].cfg.Latest().progress == Cleanup ==>
              FactsOf(c, w.cells[c], w.vs.Put(Merge(w.vs.Latest(), w.cells[c].service, c))).routeGone
  {
    var v, svc := w.vs.Latest(), w.cells[c].service;
    NamesDiffer(w, c);
    VersionsFit(w, |w.vs.hist| - 1, c);
    OpEffect(v, MergeOp(c, svc), svc, c);
    if w.cells[c].cfg.Latest().progress == Cleanup {
      MergedFacts(c, w.cells[c], w.vs, Merge(v, svc, c));
    }
  }
}
