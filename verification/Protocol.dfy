/**
 The cluster as a state machine. Several canaries share one VirtualService; each has at most one
 Reconcile in flight. Every object is kept with all its versions, and the controller reads it
 through an informer cache that may lag behind but never goes back (`seen`). A write succeeds only
 when it presents the current version. The steps below are everything that may happen between two
 moments; the imperative controller is proved to take no others (CanaryController), and the
 theorems over all runs of these steps are in Safety.
 */
module Protocol {
  import opened Wrappers
  import opened VirtualServiceValues

  // ----- objects

  /** An API object with its history; the last version is the stored one, `seen` the one in the cache. */
  datatype Obj<T> = Obj(hist: seq<T>, seen: nat) {
    predicate Valid() {
      seen < |hist|
    }

    function Version(): nat
      requires Valid()
    {
      |hist| - 1
    }

    function Latest(): T
      requires Valid()
    {
      hist[|hist| - 1]
    }

    function Put(x: T): Obj<T> {
      Obj(hist + [x], seen)
    }
  }

  datatype Progress = Unset | Initializing | Testing | Canary | Reporting | Cleanup

  datatype Phase = Blank | Queued | InProgress | Success | Failure

  /** The messages that the code compares. */
  datatype Note = NoNote | JobInitialized | JobRunning | JobSucceeded | JobFailed

  datatype Status = Status(
    progress: Progress, init: Phase, testing: Phase, testNote: Note, canary: Phase,
    judging: Phase, judgeNote: Note, reporting: Phase, cleanup: Phase)

  const BLANK_STATUS := Status(Unset, Blank, Blank, NoNote, Blank, Blank, NoNote, Blank, Blank)

  function Rank(p: Progress): nat {
    match p
    case Unset => 0
    case Initializing => 1
    case Testing => 2
    case Canary => 3
    case Reporting => 4
    case Cleanup => 5
  }

  /** A container is in exactly one of these states. */
  datatype ContainerState = Waiting | Running | Terminated(exitCode: int)

  datatype Container = Container(name: string, state: ContainerState)

  type Pod = seq<Container>

  const TESTJOB := "testjob"
  const JUDGE := "judge"

  /** Exit code of the first terminated container of that name. */
  function ExitCode(pod: Pod, name: string): Option<int> {
    if pod == [] then None
    else if pod[0].name == name && pod[0].state.Terminated? then Some(pod[0].state.exitCode)
    else ExitCode(pod[1..], name)
  }

  /** The first terminated container of that name has ended with this code, whatever others have ended with. */
  predicate EndedWith(pod: Pod, name: string, code: int) {
    exists i :: 0 <= i < |pod| && FirstEnded(pod, name, i) && pod[i].state == Terminated(code)
  }

  predicate FirstEnded(pod: Pod, name: string, i: nat)
    requires i < |pod|
  {
    && pod[i].name == name && pod[i].state.Terminated?
    && forall j :: 0 <= j < i ==> !(pod[j].name == name && pod[j].state.Terminated?)
  }

  /** No container of that name has terminated. */
  predicate NotEnded(pod: Pod, name: string) {
    forall i :: 0 <= i < |pod| ==> !(pod[i].name == name && pod[i].state.Terminated?)
  }

  lemma {:induction false} ExitCodeMeans(pod: Pod, name: string)
    ensures ExitCode(pod, name).None? <==> NotEnded(pod, name)
    ensures forall code :: ExitCode(pod, name) == Some(code) <==> EndedWith(pod, name, code)
  {
    if pod != [] && !(pod[0].name == name && pod[0].state.Terminated?) {
      ExitCodeMeans(pod[1..], name);
      assert forall i :: 1 <= i < |pod| ==> pod[i] == pod[1..][i - 1];
      forall code
        ensures EndedWith(pod, name, code) <==> EndedWith(pod[1..], name, code)
      {
        EndedLater(pod, name, code);
      }
    } else if pod != [] {
      assert FirstEnded(pod, name, 0);
    }
  }

  lemma EndedLater(pod: Pod, name: string, code: int)
    requires pod != [] && !(pod[0].name == name && pod[0].state.Terminated?)
    ensures EndedWith(pod, name, code) <==> EndedWith(pod[1..], name, code)
  {
    if EndedWith(pod, name, code) {
      var i :| 0 <= i < |pod| && FirstEnded(pod, name, i) && pod[i].state == Terminated(code);
      assert forall j :: 0 <= j < i - 1 ==> pod[1..][j] == pod[j + 1];
      assert FirstEnded(pod[1..], name, i - 1);
    }
    if EndedWith(pod[1..], name, code) {
      var i :| 0 <= i < |pod| - 1 && FirstEnded(pod[1..], name, i) && pod[1..][i].state == Terminated(code);
      assert forall j :: 1 <= j <= i + 1 ==> pod[j] == pod[1..][j - 1];
      assert FirstEnded(pod, name, i + 1);
    }
  }

  /** The end of a job: its container has ended with this code. */
  datatype Ended = Ended(judge: bool, code: int)

  function JobName(judge: bool): string {
    if judge then JUDGE else TESTJOB
  }

  /** The ends that a pod shows: one at most. */
  function EndsOf(pod: Option<Pod>, judge: bool): set<Ended> {
    if pod.Some? && ExitCode(pod.value, JobName(judge)).Some?
    then {Ended(judge, ExitCode(pod.value, JobName(judge)).value)} else {}
  }

  /** The job has been read to have ended with a code other than 0. */
  predicate HasFailed(ended: set<Ended>, judge: bool) {
    exists x :: x in ended && x.judge == judge && x.code != 0
  }

  predicate Passed(pod: Option<Pod>) {
    pod.Some? && ExitCode(pod.value, TESTJOB) == Some(0)
  }

  predicate Available(d: Option<int>) {
    d.Some? && d.value > 0
  }

  predicate Judged(s: Status) {
    s.judging == Success || s.judging == Failure
  }

  /**
   All that belongs to one canary: its policy's service, its objects, and notes on what its Reconciles
   have read: in which round the two deployments were last read as available (None if not), the first
   round that read the test container as terminated with exit code 0, and with which exit codes the two
   jobs have been read to have ended.
   */
  datatype Cell = Cell(
    service: string,
    cfg: Obj<Status>,
    testPod: Obj<Option<Pod>>, judgePod: Obj<Option<Pod>>,
    canaryDep: Obj<Option<int>>, baselineDep: Obj<Option<int>>,
    round: nat, sawCanary: Option<nat>, sawBaseline: Option<nat>, passed: Option<nat>, ended: set<Ended>)
  {
    predicate Valid() {
      cfg.Valid() && testPod.Valid() && judgePod.Valid() && canaryDep.Valid() && baselineDep.Valid()
    }

    function Pod(judge: bool): Obj<Option<Pod>> {
      if judge then judgePod else testPod
    }

    function WithPod(judge: bool, o: Obj<Option<Pod>>): Cell {
      if judge then this.(judgePod := o) else this.(testPod := o)
    }

    function Dep(baseline: bool): Obj<Option<int>> {
      if baseline then baselineDep else canaryDep
    }

    function WithDep(baseline: bool, o: Obj<Option<int>>): Cell {
      if baseline then this.(baselineDep := o) else this.(canaryDep := o)
    }

    /** The Reconcile in flight has read both deployments as available. */
    predicate SawBoth() {
      sawCanary == Some(round) && sawBaseline == Some(round)
    }
  }

  datatype World = World(cells: map<string, Cell>, vs: Obj<SpecValue>, ops: seq<Op>)

  // ----- what has been seen of something that comes and goes

  function Presence<T>(hist: seq<Option<T>>): (b: seq<bool>)
    ensures |b| == |hist|
  {
    seq(|hist|, i requires 0 <= i < |hist| => hist[i].Some?)
  }

  function RoutePresence(hist: seq<SpecValue>, svc: string, c: string): (b: seq<bool>)
    ensures |b| == |hist|
  {
    seq(|hist|, i requires 0 <= i < |hist| => HasRoute(hist[i], svc, c))
  }

  function PassPresence(hist: seq<Option<Pod>>): (b: seq<bool>)
    ensures |b| == |hist|
  {
    seq(|hist|, i requires 0 <= i < |hist| => Passed(hist[i]))
  }

  /** The cache has held a version in which it was there. */
  predicate Known(b: seq<bool>, seen: nat) {
    exists i :: 0 <= i < |b| && i <= seen && b[i]
  }

  /** It was there in one version and missing in a later one. */
  predicate Gone(b: seq<bool>) {
    exists i, j :: 0 <= i < j < |b| && b[i] && !b[j]
  }

  /** Once missing after it was there, missing for good. */
  predicate NoRevival(b: seq<bool>) {
    forall i, j, k :: 0 <= i < j < k < |b| && b[i] && !b[j] ==> !b[k]
  }

  // ----- steps

  datatype Kind = TestPod | JudgePod | CanaryDep | BaselineDep | Config

  datatype Step =
    // the world around the controller
    | Refresh(c: string, kind: Kind, to: nat)              // the cache of one object catches up
    | RefreshVs(to: nat)
    | PodChange(c: string, judge: bool, pod: Pod)           // the kubelet reports on a pod that exists
    | DepChange(c: string, baseline: bool, available: Option<int>)
    // the Reconcile of canary c
    | Begin(c: string)
    | Read(c: string, kind: Kind, to: nat)
    | ReadVs(c: string, to: nat)
    | PutStatus(c: string, base: nat, status: Status)
    | CreatePod(c: string, judge: bool)
    | DeletePod(c: string, judge: bool)
    | DeleteCanaryDep(c: string)
    | SplitVs(c: string, base: nat)
    | MergeVs(c: string, base: nat)

  /** Taken by the Reconcile of `c`. */
  predicate Own(step: Step, c: string) {
    (step.Begin? || step.Read? || step.ReadVs? || Writes(step)) && step.c == c
  }

  /** Changes a stored object. */
  predicate Writes(step: Step) {
    step.PutStatus? || step.CreatePod? || step.DeletePod? || step.DeleteCanaryDep? || step.SplitVs? || step.MergeVs?
  }

  // ----- what a Reconcile may rely on when it claims something

  /** What has been there or has gone, and so stays true. */
  datatype Facts = Facts(
    tested: bool, canaryWas: bool, judgeWas: bool, routeWas: bool,
    testGone: bool, judgeGone: bool, canaryGone: bool, routeGone: bool, ended: set<Ended>)

  function FactsOf(c: string, cell: Cell, vs: Obj<SpecValue>): Facts {
    Facts(
      cell.passed.Some?,
      Known(Presence(cell.canaryDep.hist), cell.canaryDep.seen),
      Known(Presence(cell.judgePod.hist), cell.judgePod.seen),
      Known(RoutePresence(vs.hist, cell.service, c), vs.seen),
      Gone(Presence(cell.testPod.hist)), Gone(Presence(cell.judgePod.hist)),
      Gone(Presence(cell.canaryDep.hist)), Gone(RoutePresence(vs.hist, cell.service, c)), cell.ended)
  }

  // ----- status writes, as differences to the stored status s

  predicate InitWrite(sawBoth: bool, s: Status, t: Status) {
    && s.progress != Cleanup
    && t == s.(init := t.init)
    && (t.init == InProgress || (t.init == Success && sawBoth))
  }

  predicate TestWrite(f: Facts, s: Status, t: Status) {
    && s.progress == Testing
    && t == s.(testing := t.testing, testNote := t.testNote)
    && (t.testing == Success ==> f.tested)
  }

  predicate JudgeWrite(s: Status, t: Status) {
    && (s.progress == Testing || s.progress == Canary)
    && t == s.(judging := t.judging, judgeNote := t.judgeNote)
  }

  predicate CanaryWrite(s: Status, t: Status) {
    && s.progress == Canary
    && t == s.(canary := t.canary)
    && (t.canary == InProgress || t.canary == Success)
  }

  predicate ReportWrite(s: Status, t: Status) {
    s.progress == Reporting && t == s.(reporting := Success)
  }

  predicate CleanupWrite(s: Status, t: Status) {
    s.progress == Cleanup && s.cleanup != Success && t == s.(cleanup := Success)
  }

  /** One stage forward. The write of Reporting's own success may have failed unnoticed and then goes along. */
  predicate PhaseWrite(s: Status, t: Status) {
    && s.init == Success
    && match s.progress
       case Unset => t == s.(progress := Initializing)
       case Initializing => t == s.(progress := Testing, testing := Queued)
       case Testing => s.testing == Success && t == s.(progress := Canary, canary := Queued)
       case Canary => s.canary == Success && Judged(s) && t == s.(progress := Reporting, reporting := Queued)
       case Reporting => t == s.(progress := Cleanup, reporting := Success, cleanup := Queued)
       case Cleanup => false
  }

  /** What a status write may claim about the rest of the cluster. */
  predicate Backed(f: Facts, s: Status, t: Status) {
    && (t.init != s.init ==> f.canaryWas)
    && (Judged(t) && !Judged(s) ==> f.judgeWas)
    && (t.testing == Failure && s.testing != Failure ==> HasFailed(f.ended, false))
    && (t.judging == Success && s.judging != Success ==> Ended(true, 0) in f.ended)
    && (t.judging == Failure && s.judging != Failure ==> HasFailed(f.ended, true))
    && (t.canary == Success && s.canary != Success ==> f.routeWas)
    && (t.cleanup == Success && s.cleanup != Success ==> f.testGone && f.judgeGone && f.canaryGone && f.routeGone)
  }

  predicate MayPut(f: Facts, sawBoth: bool, s: Status, t: Status) {
    && (InitWrite(sawBoth, s, t) || TestWrite(f, s, t) || JudgeWrite(s, t) || CanaryWrite(s, t)
        || ReportWrite(s, t) || PhaseWrite(s, t) || CleanupWrite(s, t))
    && Backed(f, s, t)
  }

  // ----- the transition relation

  predicate NeverThere<T>(hist: seq<Option<T>>) {
    forall i :: 0 <= i < |hist| ==> hist[i].None?
  }

  predicate Enabled(w: World, step: Step) {
    match step
    case RefreshVs(to) => w.vs.seen <= to < |w.vs.hist|
    case _ =>
      && step.c in w.cells && w.cells[step.c].Valid() && w.vs.Valid()
      && CellEnabled(step.c, w.cells[step.c], w.vs, step)
  }

  predicate CellEnabled(c: string, cell: Cell, vs: Obj<SpecValue>, step: Step)
    requires cell.Valid() && vs.Valid()
  {
    match step
    case RefreshVs(_) => true
    case Refresh(_, kind, to) => CanRead(cell, kind, to)
    case PodChange(_, judge, _) => cell.Pod(judge).Latest().Some?
    case DepChange(_, baseline, _) =>
      baseline || cell.canaryDep.Latest().Some? || NeverThere(cell.canaryDep.hist)
    case Begin(_) => true
    case Read(_, kind, to) => CanRead(cell, kind, to)
    case ReadVs(_, to) => vs.seen <= to < |vs.hist|
    case PutStatus(_, base, t) =>
      base == cell.cfg.Version() && MayPut(FactsOf(c, cell, vs), cell.SawBoth(), cell.cfg.Latest(), t)
    case CreatePod(_, judge) =>
      && cell.Pod(judge).Latest().None?
      && var p := cell.cfg.Latest().progress; (p == Testing || (judge && p == Canary))
    case DeletePod(_, judge) => cell.Pod(judge).Latest().Some? && cell.cfg.Latest().progress == Cleanup
    case DeleteCanaryDep(_) => cell.canaryDep.Latest().Some? && cell.cfg.Latest().progress == Cleanup
    case SplitVs(_, base) =>
      && base == vs.Version()
      && OpFits(vs.Latest(), SplitOp(c, cell.service))
      && cell.cfg.Latest().progress == Canary
      && cell.SawBoth() && cell.passed.Some? && cell.passed.value < cell.round
    case MergeVs(_, base) =>
      && base == vs.Version()
      && OpFits(vs.Latest(), MergeOp(c, cell.service))
      && cell.cfg.Latest().progress == Cleanup
  }

  predicate CanRead(cell: Cell, kind: Kind, to: nat) {
    match kind
    case TestPod => cell.testPod.seen <= to < |cell.testPod.hist|
    case JudgePod => cell.judgePod.seen <= to < |cell.judgePod.hist|
    case CanaryDep => cell.canaryDep.seen <= to < |cell.canaryDep.hist|
    case BaselineDep => cell.baselineDep.seen <= to < |cell.baselineDep.hist|
    case Config => cell.cfg.seen <= to < |cell.cfg.hist|
  }

  function Seen(cell: Cell, kind: Kind, to: nat): Cell {
    match kind
    case TestPod => cell.(testPod := cell.testPod.(seen := to))
    case JudgePod => cell.(judgePod := cell.judgePod.(seen := to))
    case CanaryDep => cell.(canaryDep := cell.canaryDep.(seen := to))
    case BaselineDep => cell.(baselineDep := cell.baselineDep.(seen := to))
    case Config => cell.(cfg := cell.cfg.(seen := to))
  }

  /** The cell after the Reconcile in flight has read version `to`: the cache moves and the notes are taken. */
  function Noted(cell: Cell, kind: Kind, to: nat): Cell
    requires CanRead(cell, kind, to)
  {
    var cell' := Seen(cell, kind, to);
    match kind
    case TestPod =>
      var passes := Passed(cell.testPod.hist[to]) && cell.passed.None?;
      cell'.(passed := if passes then Some(cell.round) else cell.passed,
        ended := cell.ended + EndsOf(cell.testPod.hist[to], false))
    case JudgePod =>
      cell'.(ended := cell.ended + EndsOf(cell.judgePod.hist[to], true))
    case CanaryDep =>
      cell'.(sawCanary := if Available(cell.canaryDep.hist[to]) then Some(cell.round) else None)
    case BaselineDep =>
      cell'.(sawBaseline := if Available(cell.baselineDep.hist[to]) then Some(cell.round) else None)
    case _ => cell'
  }

  function CellAfter(cell: Cell, step: Step): Cell
    requires cell.Valid() && (step.Read? ==> CanRead(cell, step.kind, step.to))
  {
    match step
    case RefreshVs(_) => cell
    case Refresh(_, kind, to) => Seen(cell, kind, to)
    case PodChange(_, judge, pod) => cell.WithPod(judge, cell.Pod(judge).Put(Some(pod)))
    case DepChange(_, baseline, available) => cell.WithDep(baseline, cell.Dep(baseline).Put(available))
    case Begin(_) => cell.(round := cell.round + 1)
    case Read(_, kind, to) => Noted(cell, kind, to)
    case ReadVs(_, _) => cell
    case PutStatus(_, _, t) => cell.(cfg := cell.cfg.Put(t))
    case CreatePod(_, judge) => cell.WithPod(judge, cell.Pod(judge).Put(Some([])))
    case DeletePod(_, judge) => cell.WithPod(judge, cell.Pod(judge).Put(None))
    case DeleteCanaryDep(_) => cell.(canaryDep := cell.canaryDep.Put(None))
    case SplitVs(_, _) => cell
    case MergeVs(_, _) => cell
  }

  function VsAfter(w: World, step: Step): Obj<SpecValue>
    requires w.vs.Valid()
    requires step.SplitVs? || step.MergeVs? ==> step.c in w.cells
  {
    match step
    case RefreshVs(to) => w.vs.(seen := to)
    case ReadVs(_, to) => w.vs.(seen := to)
    case SplitVs(c, _) => w.vs.Put(Split(w.vs.Latest(), w.cells[c].service, c))
    case MergeVs(c, _) => w.vs.Put(Merge(w.vs.Latest(), w.cells[c].service, c))
    case _ => w.vs
  }

  function Apply(w: World, step: Step): World
    requires w.vs.Valid()
    requires !step.RefreshVs? ==> step.c in w.cells && w.cells[step.c].Valid()
    requires step.Read? ==> CanRead(w.cells[step.c], step.kind, step.to)
  {
    World(
      if step.RefreshVs? then w.cells else w.cells[step.c := CellAfter(w.cells[step.c], step)],
      VsAfter(w, step),
      match step
      case SplitVs(c, _) => w.ops + [SplitOp(c, w.cells[c].service)]
      case MergeVs(c, _) => w.ops + [MergeOp(c, w.cells[c].service)]
      case _ => w.ops)
  }

  /** The world after a step; a step that is not enabled leaves it alone. */
  function Next(w: World, step: Step): World {
    if w.vs.Valid() && Enabled(w, step) then Apply(w, step) else w
  }

  // ----- runs

  function Play(w: World, log: seq<Step>): World {
    if log == [] then w else Next(Play(w, log[..|log| - 1]), log[|log| - 1])
  }

  /** Every step of the log is enabled when it is taken. */
  predicate Run(w: World, log: seq<Step>) {
    log == [] || (Run(w, log[..|log| - 1]) && Enabled(Play(w, log[..|log| - 1]), log[|log| - 1]))
  }

  lemma RunExtend(w: World, log: seq<Step>, step: Step)
    requires Run(w, log) && Enabled(Play(w, log), step)
    ensures Run(w, log + [step]) && Play(w, log + [step]) == Next(Play(w, log), step)
  {
    assert (log + [step])[..|log|] == log;
  }

  lemma RunLast(w: World, log: seq<Step>, last: Step, before: World)
    requires log != [] && Run(w, log) && last == log[|log| - 1] && before == Play(w, log[..|log| - 1])
    ensures Run(w, log[..|log| - 1]) && Enabled(before, last) && Play(w, log) == Next(before, last)
  {
  }

  lemma {:induction false} RunPrefix(w: World, log: seq<Step>, n: nat)
    requires Run(w, log) && n <= |log|
    ensures Run(w, log[..n])
    ensures n < |log| ==> Enabled(Play(w, log[..n]), log[n]) && Play(w, log[..n + 1]) == Next(Play(w, log[..n]), log[n])
  {
    if n == |log| {
      assert log[..n] == log;
    } else {
      var m := |log| - 1;
      if n == m {
        assert log[..n + 1] == log;
      } else {
        RunPrefix(w, log[..m], n);
        assert log[..m][..n] == log[..n] && log[..m][..n + 1] == log[..n + 1];
      }
    }
  }
}
