/** What holds in every run of the protocol, whatever the interleaving, the failures and the staleness of the reads. */
module Safety {
  import opened Wrappers
  import opened VirtualServiceValues
  import opened TrafficShares
  import opened Protocol
  import opened Invariant

  // ----- histories only grow

  ghost predicate Grown<T>(a: Obj<T>, b: Obj<T>) {
    a.hist <= b.hist && a.seen <= b.seen
  }

  ghost predicate CellGrown(a: Cell, b: Cell) {
    && a.service == b.service && Grown(a.cfg, b.cfg)
    && Grown(a.testPod, b.testPod) && Grown(a.judgePod, b.judgePod)
    && Grown(a.canaryDep, b.canaryDep) && Grown(a.baselineDep, b.baselineDep)
    && a.round <= b.round && (a.passed.Some? ==> b.passed == a.passed) && a.ended <= b.ended
  }

  ghost predicate WorldGrown(v: World, w: World) {
    && v.cells.Keys == w.cells.Keys && Grown(v.vs, w.vs) && v.ops <= w.ops
    && forall c :: c in v.cells ==> CellGrown(v.cells[c], w.cells[c])
  }

  lemma CellStepGrows(cell: Cell, step: Step)
    requires cell.Valid() && (step.Read? ==> CanRead(cell, step.kind, step.to))
    requires step.Refresh? ==> CanRead(cell, step.kind, step.to)
    ensures CellGrown(cell, CellAfter(cell, step))
  {
  }

  lemma VsStepGrows(w: World, step: Step)
    requires w.vs.Valid() && Enabled(w, step)
    ensures Grown(w.vs, VsAfter(w, step))
  {
  }

  lemma CellsStepGrow(w: World, step: Step, cells: map<string, Cell>)
    requires w.vs.Valid() && Enabled(w, step)
    requires cells == if step.RefreshVs? then w.cells else w.cells[step.c := CellAfter(w.cells[step.c], step)]
    ensures cells.Keys == w.cells.Keys && forall c :: c in w.cells ==> CellGrown(w.cells[c], cells[c])
  {
    if !step.RefreshVs? {
      CellStepGrows(w.cells[step.c], step);
    }
  }

  lemma StepGrows(w: World, step: Step)
    ensures WorldGrown(w, Next(w, step))
  {
    if w.vs.Valid() && Enabled(w, step) {
      VsStepGrows(w, step);
      CellsStepGrow(w, step, Apply(w, step).cells);
    }
  }

  lemma {:induction false} RunGrows(w: World, log: seq<Step>, n: nat)
    requires n <= |log|
    ensures WorldGrown(Play(w, log[..n]), Play(w, log))
  {
    if n == |log| {
      assert log[..n] == log;
    } else {
      var m := |log| - 1;
      RunGrows(w, log[..m], n);
      assert log[..m][..n] == log[..n];
      StepGrows(Play(w, log[..m]), log[m]);
      GrownTransitive(Play(w, log[..n]), Play(w, log[..m]), Play(w, log));
    }
  }

  lemma GrownTransitive(u: World, v: World, w: World)
    requires WorldGrown(u, v) && WorldGrown(v, w)
    ensures WorldGrown(u, w)
  {
    forall c | c in u.cells
      ensures CellGrown(u.cells[c], w.cells[c])
    {
      assert CellGrown(u.cells[c], v.cells[c]) && CellGrown(v.cells[c], w.cells[c]);
    }
  }

  /** Two moments of one run, as canary `c` sees them. */
  lemma TwoMoments(w: World, log: seq<Step>, n: nat, c: string, mid: World, end: World)
    requires Initial(w) && Run(w, log) && n <= |log| && c in w.cells
    requires mid == Play(w, log[..n]) && end == Play(w, log)
    ensures c in mid.cells && c in end.cells
    ensures CellInv(c, mid.cells[c], mid.vs) && CellInv(c, end.cells[c], end.vs)
    ensures CellGrown(mid.cells[c], end.cells[c]) && Grown(mid.vs, end.vs)
  {
    InitialInv(w);
    RunPrefix(w, log, n);
    RunInv(w, log[..n]);
    RunInv(w, log);
    RunGrows(w, log, n);
    RunGrows(w, log[..n], 0);
    assert log[..n][..0] == [];
  }

  // ----- cleanup is final

  predicate CleanedUp(cell: Cell)
    requires cell.cfg.Valid()
  {
    cell.cfg.Latest().cleanup == Success
  }

  lemma GoneExtends(b: seq<bool>, b': seq<bool>)
    ensures b <= b' && Gone(b) && NoRevival(b') ==> b' != [] && !b'[|b'| - 1]
  {
    if b <= b' && Gone(b) && NoRevival(b') {
      var i, j :| 0 <= i < j < |b| && b[i] && !b[j];
      assert b'[i] && !b'[j];
    }
  }

  lemma PresenceGone<T>(a: Obj<Option<T>>, b: Obj<Option<T>>)
    ensures Grown(a, b) && b.Valid() && Gone(Presence(a.hist)) && NoRevival(Presence(b.hist)) ==> b.Latest().None?
  {
    if Grown(a, b) && b.Valid() {
      assert Presence(a.hist) == Presence(b.hist)[..|a.hist|];
      GoneExtends(Presence(a.hist), Presence(b.hist));
    }
  }

  lemma PresencePrefix(c: string, svc: string, a: seq<SpecValue>, b: seq<SpecValue>)
    ensures a <= b ==> RoutePresence(a, svc, c) <= RoutePresence(b, svc, c)
  {
    if a <= b {
      assert RoutePresence(a, svc, c) == RoutePresence(b, svc, c)[..|a|];
    }
  }

  lemma PresenceLast(c: string, svc: string, b: seq<SpecValue>)
    requires b != []
    ensures HasRoute(b[|b| - 1], svc, c) == RoutePresence(b, svc, c)[|b| - 1]
  {
  }

  lemma RouteGone(a: Status, b: Status, before: seq<bool>, now: seq<bool>, passed: Option<nat>, passed': Option<nat>,
                  seen: nat, seen': nat)
    ensures RouteInv(a, passed, before, seen) && RouteInv(b, passed', now, seen') && before <= now
            && a.cleanup == Success ==>
              now != [] && !now[|now| - 1]
  {
    GoneExtends(before, now);
  }

  lemma CleanedRoute(c: string, svc: string, a: Status, b: Status, before: Obj<SpecValue>, now: Obj<SpecValue>,
                     passed: Option<nat>, passed': Option<nat>)
    requires RouteInv(a, passed, RoutePresence(before.hist, svc, c), before.seen)
    requires RouteInv(b, passed', RoutePresence(now.hist, svc, c), now.seen)
    requires Grown(before, now) && now.Valid() && a.cleanup == Success
    ensures !HasRoute(now.Latest(), svc, c)
  {
    var ra, rb := RoutePresence(before.hist, svc, c), RoutePresence(now.hist, svc, c);
    assert !rb[|rb| - 1] by {
      PresencePrefix(c, svc, before.hist, now.hist);
      RouteGone(a, b, ra, rb, passed, passed', before.seen, now.seen);
    }
    PresenceLast(c, svc, now.hist);
  }

  lemma CleanedOwn(a: Cell, b: Cell)
    requires OwnInv(a) && OwnInv(b) && CellGrown(a, b) && CleanedUp(a)
    ensures b.testPod.Latest().None? && b.judgePod.Latest().None? && b.canaryDep.Latest().None?
  {
    PresenceGone(a.testPod, b.testPod);
    PresenceGone(a.judgePod, b.judgePod);
    PresenceGone(a.canaryDep, b.canaryDep);
  }

  /**
   No leaked traffic and nothing left behind. Once a canary's stored status says that its cleanup
   succeeded, then in the rest of the run the stored VirtualService holds no route to it, and its
   test pod, its judge pod and its deployment are gone.
   */
  lemma NothingLeftBehind(w: World, log: seq<Step>, n: nat, c: string, mid: World, end: World)
    requires Initial(w) && Run(w, log) && n <= |log| && c in w.cells
    requires mid == Play(w, log[..n]) && end == Play(w, log)
    requires c in mid.cells && mid.cells[c].cfg.Valid() && CleanedUp(mid.cells[c])
    ensures c in end.cells && end.vs.Valid() && end.cells[c].Valid()
    ensures !HasRoute(end.vs.Latest(), end.cells[c].service, c)
    ensures end.cells[c].testPod.Latest().None? && end.cells[c].judgePod.Latest().None?
    ensures end.cells[c].canaryDep.Latest().None?
  {
    TwoMoments(w, log, n, c, mid, end);
    var a, b := mid.cells[c], end.cells[c];
    CleanedOwn(a, b);
    CleanedRoute(c, b.service, a.cfg.Latest(), b.cfg.Latest(), mid.vs, end.vs, a.passed, b.passed);
  }

  /** Once the Cleanup stage is stored, no later step creates a pod of the canary or splits traffic for it. */
  lemma NothingRecreated(w: World, log: seq<Step>, n: nat, m: nat, c: string, mid: World)
    requires Initial(w) && Run(w, log) && n <= m < |log| && c in w.cells && mid == Play(w, log[..n])
    requires c in mid.cells && mid.cells[c].cfg.Valid() && mid.cells[c].cfg.Latest().progress == Cleanup
    ensures !(log[m].CreatePod? && log[m].c == c) && !(log[m].SplitVs? && log[m].c == c)
  {
    RunPrefix(w, log, m);
    assert log[..m][..n] == log[..n];
    StillCleanup(w, log[..m], n, c, mid, Play(w, log[..m]));
    if (log[m].CreatePod? || log[m].SplitVs?) && log[m].c == c {
      CreatesEarly(Play(w, log[..m]), log[m]);
    }
  }

  lemma StillCleanup(w: World, log: seq<Step>, n: nat, c: string, mid: World, end: World)
    requires Initial(w) && Run(w, log) && n <= |log| && c in w.cells
    requires mid == Play(w, log[..n]) && end == Play(w, log)
    requires c in mid.cells && mid.cells[c].cfg.Valid() && mid.cells[c].cfg.Latest().progress == Cleanup
    ensures c in end.cells && end.cells[c].cfg.Valid() && end.cells[c].cfg.Latest().progress == Cleanup
  {
    TwoMoments(w, log, n, c, mid, end);
    StageKept(mid.cells[c], end.cells[c]);
  }

  lemma CreatesEarly(w: World, step: Step)
    requires Enabled(w, step) && (step.CreatePod? || step.SplitVs?)
    ensures w.cells[step.c].cfg.Latest().progress != Cleanup
  {
  }

  lemma StageKept(a: Cell, b: Cell)
    requires CellGrown(a, b) && a.cfg.Valid() && b.cfg.Valid() && Ordered(b.cfg.hist)
    ensures Rank(a.cfg.Latest().progress) <= Rank(b.cfg.Latest().progress)
  {
    assert b.cfg.hist[|a.cfg.hist| - 1] == a.cfg.Latest();
  }

  /** Stored Progress moves forward only. */
  lemma ForwardOnly(w: World, log: seq<Step>, n: nat, c: string, mid: World, end: World)
    requires Initial(w) && Run(w, log) && n <= |log| && c in w.cells
    requires mid == Play(w, log[..n]) && end == Play(w, log)
    ensures c in mid.cells && mid.cells[c].cfg.Valid() && c in end.cells && end.cells[c].cfg.Valid()
    ensures Rank(mid.cells[c].cfg.Latest().progress) <= Rank(end.cells[c].cfg.Latest().progress)
  {
    TwoMoments(w, log, n, c, mid, end);
    StageKept(mid.cells[c], end.cells[c]);
  }

  // ----- the history of the VirtualService

  lemma {:induction false} ChainIsRun(hist: seq<SpecValue>, ops: seq<Op>, n: nat)
    requires Chain(hist, ops) && n <= |ops|
    ensures hist[n] == ApplyOps(hist[0], ops[..n])
  {
    if n > 0 {
      ChainIsRun(hist, ops, n - 1);
      assert ops[..n][..n - 1] == ops[..n - 1];
      assert OpFits(hist[n - 1], ops[n - 1]) && hist[n] == ApplyOp(hist[n - 1], ops[n - 1]);
    }
  }

  /**
   Refinement. However the concurrent read-modify-write Reconciles interleave, the stored versions of
   the VirtualService are those of a sequential run of atomic splits and merges, each fitting the
   version it edits, and no version holds two routes for one canary.
   */
  lemma VersionsAreSequentialRun(w: World, log: seq<Step>)
    requires Initial(w) && Run(w, log)
    ensures var end := Play(w, log);
            && |end.vs.hist| == |end.ops| + 1 && end.vs.hist[0] == w.vs.hist[0]
            && RunFits(w.vs.hist[0], end.ops)
            && (forall n :: 0 <= n <= |end.ops| ==> end.vs.hist[n] == ApplyOps(w.vs.hist[0], end.ops[..n]))
            && (forall n, c :: 0 <= n <= |end.ops| && c in end.cells ==>
                  AtMostOne(ServiceRoutes(end.vs.hist[n], end.cells[c].service), c))
  {
    InitialInv(w);
    RunInv(w, log);
    RunGrows(w, log, 0);
    assert log[..0] == [];
    var end := Play(w, log);
    forall n | 0 <= n <= |end.ops|
      ensures end.vs.hist[n] == ApplyOps(w.vs.hist[0], end.ops[..n])
      ensures n < |end.ops| ==> OpFits(ApplyOps(w.vs.hist[0], end.ops[..n]), end.ops[n])
    {
      ChainIsRun(end.vs.hist, end.ops, n);
    }
    forall n, c | 0 <= n <= |end.ops| && c in end.cells
      ensures AtMostOne(ServiceRoutes(end.vs.hist[n], end.cells[c].service), c)
    {
      assert VersionInv(Services(end.cells), end.vs.hist[0], end.vs.hist[n]);
      assert c in Services(end.cells);
    }
  }

  // ----- the traffic gate

  /** How many Reconciles of `c` have begun. */
  function Rounds(log: seq<Step>, c: string): nat {
    if log == [] then 0
    else Rounds(log[..|log| - 1], c) + (if log[|log| - 1] == Begin(c) then 1 else 0)
  }

  /** Step `i` of the log is round `r`'s reading of an available deployment. */
  ghost predicate ReadAvailable(w: World, log: seq<Step>, i: nat, c: string, kind: Kind, r: nat)
    requires kind == CanaryDep || kind == BaselineDep
  {
    && i < |log| && log[i].Read? && log[i].c == c && log[i].kind == kind && Rounds(log[..i], c) == r
    && c in Play(w, log[..i]).cells
    && var o := Play(w, log[..i]).cells[c].Dep(kind == BaselineDep);
       log[i].to < |o.hist| && Available(o.hist[log[i].to])
  }

  /** Step `i` of the log is round `r`'s reading of a test container terminated with exit code 0. */
  ghost predicate ReadPassed(w: World, log: seq<Step>, i: nat, c: string, r: nat) {
    && i < |log| && log[i].Read? && log[i].c == c && log[i].kind == TestPod && Rounds(log[..i], c) == r
    && c in Play(w, log[..i]).cells
    && var o := Play(w, log[..i]).cells[c].testPod;
       log[i].to < |o.hist| && Passed(o.hist[log[i].to])
  }

  /** Step `i` of the log is a reading of a job whose container, by its name, has ended with that code. */
  ghost predicate ReadEnded(w: World, log: seq<Step>, i: nat, c: string, x: Ended) {
    && i < |log| && log[i].Read? && log[i].c == c && log[i].kind == (if x.judge then JudgePod else TestPod)
    && c in Play(w, log[..i]).cells
    && var o := Play(w, log[..i]).cells[c].Pod(x.judge);
       log[i].to < |o.hist| && x in EndsOf(o.hist[log[i].to], x.judge)
  }

  ghost predicate HasReadEnd(w: World, log: seq<Step>, c: string, x: Ended) {
    exists i: nat :: ReadEnded(w, log, i, c, x)
  }

  /** What cell `a` notes of the reads, the log has. */
  ghost predicate Notes(w: World, log: seq<Step>, c: string, a: Cell) {
    && (a.sawCanary.Some? ==> exists i: nat :: ReadAvailable(w, log, i, c, CanaryDep, a.sawCanary.value))
    && (a.sawBaseline.Some? ==> exists i: nat :: ReadAvailable(w, log, i, c, BaselineDep, a.sawBaseline.value))
    && (a.passed.Some? ==> exists i: nat :: ReadPassed(w, log, i, c, a.passed.value))
    && forall x :: x in a.ended ==> HasReadEnd(w, log, c, x)
  }

  ghost predicate NotesTrue(w: World, log: seq<Step>, c: string) {
    && c in Play(w, log).cells
    && Play(w, log).cells[c].round == Rounds(log, c)
    && Notes(w, log, c, Play(w, log).cells[c])
  }

  lemma ReadsPersist(w: World, log: seq<Step>, i: nat, c: string, r: nat)
    requires log != []
    ensures ReadAvailable(w, log[..|log| - 1], i, c, CanaryDep, r) ==> ReadAvailable(w, log, i, c, CanaryDep, r)
    ensures ReadAvailable(w, log[..|log| - 1], i, c, BaselineDep, r) ==> ReadAvailable(w, log, i, c, BaselineDep, r)
    ensures ReadPassed(w, log[..|log| - 1], i, c, r) ==> ReadPassed(w, log, i, c, r)
  {
    if i < |log| - 1 {
      assert log[..|log| - 1][..i] == log[..i];
    }
  }

  lemma {:induction false} NotesOfRun(w: World, log: seq<Step>, c: string)
    requires Initial(w) && Run(w, log) && c in w.cells
    ensures NotesTrue(w, log, c)
  {
    if log == [] {
      assert InitialCell(c, w.cells[c], w.vs.hist[0]);
    } else {
      var n := |log| - 1;
      NotesOfRun(w, log[..n], c);
      NotesKept(w, log, c, Play(w, log[..n]).cells[c]);
      NoteStep(w, log, c, Play(w, log[..n]), Play(w, log));
    }
  }

  lemma NotesKept(w: World, log: seq<Step>, c: string, a: Cell)
    requires log != [] && Notes(w, log[..|log| - 1], c, a)
    ensures Notes(w, log, c, a)
  {
    var pre := log[..|log| - 1];
    if a.sawCanary.Some? {
      var i: nat :| ReadAvailable(w, pre, i, c, CanaryDep, a.sawCanary.value);
      ReadsPersist(w, log, i, c, a.sawCanary.value);
    }
    if a.sawBaseline.Some? {
      var i: nat :| ReadAvailable(w, pre, i, c, BaselineDep, a.sawBaseline.value);
      ReadsPersist(w, log, i, c, a.sawBaseline.value);
    }
    if a.passed.Some? {
      var i: nat :| ReadPassed(w, pre, i, c, a.passed.value);
      ReadsPersist(w, log, i, c, a.passed.value);
    }
    forall x | x in a.ended
      ensures HasReadEnd(w, log, c, x)
    {
      EndedKept(w, log, c, x);
    }
  }

  lemma EndedKept(w: World, log: seq<Step>, c: string, x: Ended)
    requires log != [] && HasReadEnd(w, log[..|log| - 1], c, x)
    ensures HasReadEnd(w, log, c, x)
  {
    var i: nat :| ReadEnded(w, log[..|log| - 1], i, c, x);
    assert log[..|log| - 1][..i] == log[..i];
    assert ReadEnded(w, log, i, c, x);
  }

  lemma NoteStep(w: World, log: seq<Step>, c: string, before: World, after: World)
    requires log != [] && Run(w, log) && before == Play(w, log[..|log| - 1]) && after == Play(w, log)
    requires c in before.cells && before.cells[c].round == Rounds(log[..|log| - 1], c)
    requires Notes(w, log, c, before.cells[c])
    ensures c in after.cells && after.cells[c].round == Rounds(log, c)
    ensures Notes(w, log, c, after.cells[c])
  {
    var step := log[|log| - 1];
    StepOfCell(before, step, c);
    if !step.RefreshVs? && step.c == c {
      if step.Read? {
        NoteRead(w, log, c, before.cells[c]);
      } else {
        UnnotedStep(before.cells[c], step);
      }
    }
  }

  lemma StepOfCell(w: World, step: Step, c: string)
    requires w.vs.Valid() && Enabled(w, step) && c in w.cells
    ensures c in Next(w, step).cells
    ensures step.RefreshVs? || step.c != c ==> Next(w, step).cells[c] == w.cells[c]
    ensures !step.RefreshVs? && step.c == c ==>
              && w.cells[c].Valid() && (step.Read? ==> CanRead(w.cells[c], step.kind, step.to))
              && Next(w, step).cells[c] == CellAfter(w.cells[c], step)
  {
  }

  lemma NoteRead(w: World, log: seq<Step>, c: string, a: Cell)
    requires log != [] && log[|log| - 1].Read? && log[|log| - 1].c == c
    requires CanRead(a, log[|log| - 1].kind, log[|log| - 1].to)
    requires c in Play(w, log[..|log| - 1]).cells && a == Play(w, log[..|log| - 1]).cells[c]
    requires a.round == Rounds(log[..|log| - 1], c) && Notes(w, log, c, a)
    ensures Notes(w, log, c, Noted(a, log[|log| - 1].kind, log[|log| - 1].to))
  {
    var n := |log| - 1;
    var step, b := log[n], Noted(a, log[n].kind, log[n].to);
    if step.kind == CanaryDep && b.sawCanary.Some? {
      assert ReadAvailable(w, log, n, c, CanaryDep, a.round);
    } else if step.kind == BaselineDep && b.sawBaseline.Some? {
      assert ReadAvailable(w, log, n, c, BaselineDep, a.round);
    } else if step.kind == TestPod && b.passed != a.passed {
      assert ReadPassed(w, log, n, c, a.round);
    }
    forall x | x in b.ended
      ensures HasReadEnd(w, log, c, x)
    {
      if x !in a.ended {
        assert ReadEnded(w, log, n, c, x);
      }
    }
  }

  lemma UnnotedStep(a: Cell, step: Step)
    requires a.Valid() && !step.Read?
    ensures var b := CellAfter(a, step);
            && b.sawCanary == a.sawCanary && b.sawBaseline == a.sawBaseline && b.passed == a.passed
            && b.ended == a.ended
            && b.round == a.round + (if step.Begin? then 1 else 0)
  {
  }

  /**
   The traffic gate. A canary is given traffic only after an earlier Reconcile of it has read its test
   container as terminated with exit code 0, and only by a Reconcile that has itself read both the
   canary and the baseline deployment as available.
   */
  lemma TrafficGate(w: World, log: seq<Step>, n: nat, c: string)
    requires Initial(w) && Run(w, log) && n < |log| && log[n].SplitVs? && log[n].c == c && c in w.cells
    ensures exists i: nat, r: nat :: r < Rounds(log[..n], c) && ReadPassed(w, log[..n], i, c, r)
    ensures exists i: nat :: ReadAvailable(w, log[..n], i, c, CanaryDep, Rounds(log[..n], c))
    ensures exists i: nat :: ReadAvailable(w, log[..n], i, c, BaselineDep, Rounds(log[..n], c))
  {
    RunPrefix(w, log, n);
    NotesOfRun(w, log[..n], c);
    SplitSaw(Play(w, log[..n]), log[n]);
  }

  lemma SplitSaw(w: World, step: Step)
    requires Enabled(w, step) && step.SplitVs?
    ensures var cell := w.cells[step.c];
            && cell.sawCanary == Some(cell.round) && cell.sawBaseline == Some(cell.round)
            && cell.passed.Some? && cell.passed.value < cell.round
  {
  }

  /** No stored Progress past Testing, nor a stored success of the test, without such a read. */
  lemma TestingGate(w: World, log: seq<Step>, c: string)
    requires Initial(w) && Run(w, log) && c in w.cells
    ensures c in Play(w, log).cells && Play(w, log).cells[c].cfg.Valid()
    ensures var s := Play(w, log).cells[c].cfg.Latest();
            Rank(s.progress) > Rank(Testing) || s.testing == Success ==>
              exists i: nat, r: nat :: ReadPassed(w, log, i, c, r)
  {
    InitialInv(w);
    RunInv(w, log);
    NotesOfRun(w, log, c);
    var cell := Play(w, log).cells[c];
    assert CellInv(c, cell, Play(w, log).vs);
    if cell.passed.Some? {
      var i: nat :| ReadPassed(w, log, i, c, cell.passed.value);
    }
  }

  /** No stored verdict on a job without a read of its exit code: 0 for a success, another for a failure. */
  lemma VerdictGate(w: World, log: seq<Step>, c: string)
    requires Initial(w) && Run(w, log) && c in w.cells
    ensures c in Play(w, log).cells && Play(w, log).cells[c].cfg.Valid()
    ensures var s := Play(w, log).cells[c].cfg.Latest();
            && (s.judging == Success ==> HasReadEnd(w, log, c, Ended(true, 0)))
            && (s.judging == Failure ==> exists code :: code != 0 && HasReadEnd(w, log, c, Ended(true, code)))
            && (s.testing == Failure ==> exists code :: code != 0 && HasReadEnd(w, log, c, Ended(false, code)))
  {
    InitialInv(w);
    RunInv(w, log);
    NotesOfRun(w, log, c);
    var cell := Play(w, log).cells[c];
    assert CellInv(c, cell, Play(w, log).vs);
    var s := cell.cfg.Latest();
    if s.judging == Failure {
      var x :| x in cell.ended && x.judge && x.code != 0;
      assert HasReadEnd(w, log, c, Ended(true, x.code));
    }
    if s.testing == Failure {
      var x :| x in cell.ended && !x.judge && x.code != 0;
      assert HasReadEnd(w, log, c, Ended(false, x.code));
    }
  }

  /** No stored Progress past Canary unless its route and its judge pod have been stored. */
  lemma CanaryGate(w: World, log: seq<Step>, c: string)
    requires Initial(w) && Run(w, log) && c in w.cells
    ensures c in Play(w, log).cells && Play(w, log).cells[c].cfg.Valid()
    ensures var end := Play(w, log);
            var cell := end.cells[c];
            Rank(cell.cfg.Latest().progress) > Rank(Canary) ==>
              && (exists k :: 0 <= k < |end.vs.hist| && HasRoute(end.vs.hist[k], cell.service, c))
              && (exists k :: 0 <= k < |cell.judgePod.hist| && cell.judgePod.hist[k].Some?)
  {
    InitialInv(w);
    RunInv(w, log);
    NotesOfRun(w, log, c);
    var end := Play(w, log);
    var cell := end.cells[c];
    assert CellInv(c, cell, end.vs);
    if Rank(cell.cfg.Latest().progress) > Rank(Canary) {
      var k :| 0 <= k < |end.vs.hist| && RoutePresence(end.vs.hist, cell.service, c)[k];
      assert HasRoute(end.vs.hist[k], cell.service, c);
      var j :| 0 <= j < |cell.judgePod.hist| && Presence(cell.judgePod.hist)[j];
      assert cell.judgePod.hist[j].Some?;
    }
  }
}
