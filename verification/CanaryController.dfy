/** The canary controller's Reconcile and its stages. */
module CanaryController {
  import opened Wrappers
  import opened VirtualServiceValues
  import opened VirtualServices
  import opened Protocol
  import opened Standpoint
  import opened Clients
  import opened Stages

  /** Exit code of the first terminated container of that name. */
  method GetContainerTerminalState(job: Pod, name: string) returns (exitCode: Option<int>)
    ensures exitCode == ExitCode(job, name)
    ensures exitCode.None? <==> NotEnded(job, name)
    ensures forall code :: exitCode == Some(code) <==> EndedWith(job, name, code)
  {
    ExitCodeMeans(job, name);
    for i := 0 to |job|
      invariant ExitCode(job, name) == ExitCode(job[i..], name)
    {
      if job[i].name == name && job[i].state.Terminated? {
        return Some(job[i].state.exitCode);
      }
    }
    return None;
  }

  /** The loop asks for a terminated container and returns its running state, which a terminated one has not. */
  method GetContainerRunningState(job: Pod, name: string) returns (running: bool)
    ensures !running
  {
    for i := 0 to |job| {
      if job[i].name == name && job[i].state.Terminated? {
        return job[i].state.Running?;
      }
    }
    return false;
  }

  method JobVerdict(job: Pod, name: string) returns (status: Phase, note: Note)
    ensures (status, note) == Verdict(job, name)
  {
    status, note := Blank, NoNote;
    var running := GetContainerRunningState(job, name);
    if running {
      status, note := InProgress, JobRunning;
    }
    var exitCode := GetContainerTerminalState(job, name);
    match exitCode
    case None =>
    case Some(code) =>
      status, note := if code == 0 then Success else Failure, if code == 0 then JobSucceeded else JobFailed;
  }

  /** The view before and after part of a Reconcile: notes and facts, and status writes that keep the stage. */
  predicate Stays(a: View, b: View) {
    && b.service == a.service && b.round == a.round && a.statuses <= b.statuses && b.Progress() == a.Progress()
    && (a.passed.Some? ==> b.passed == a.passed) && Implies(a.facts, b.facts)
  }

  /** The copy is one of the stored versions. */
  predicate Copied(v: View, status: Status, version: nat) {
    version < |v.statuses| && status == v.statuses[version]
  }

  /**
   What holds between the stages of a Reconcile: a copy that is not in the Cleanup stage is the stored
   version, and this Reconcile has seen both deployments available.
   */
  predicate Holds(v: View, status: Status, version: nat) {
    && Copied(v, status, version)
    && (status.progress != Cleanup ==> version == |v.statuses| - 1 && status.init == Success && v.SawBoth())
    && (status.progress == Canary ==> v.passed.Some? && v.passed.value < v.round)
  }

  lemma MaySplit(v: View, status: Status, version: nat, c: string)
    requires Holds(v, status, version) && status.progress == Canary
    ensures EditAllowed(v, c, SplitOp(c, v.service))
  {
  }

  lemma StillHolds(a: View, b: View, status: Status, version: nat)
    requires Holds(a, status, version) && Later(a, b)
    ensures Stays(a, b) && Holds(b, status, version)
  {
  }

  lemma MayInit(f: Facts, sawBoth: bool, s: Status, t: Status)
    requires s.progress != Cleanup && f.canaryWas && t == s.(init := t.init)
    requires t.init == InProgress || (t.init == Success && sawBoth)
    ensures MayPut(f, sawBoth, s, t)
  {
  }

  /** The status with the verdict on the test job or the judge job. */
  function WithJob(s: Status, judge: bool, phase: Phase, note: Note): Status {
    if judge then s.(judging := phase, judgeNote := note) else s.(testing := phase, testNote := note)
  }

  predicate JobStage(p: Progress, judge: bool) {
    p == Testing || (judge && p == Canary)
  }

  /** A verdict must rest on a pod that was read, and on the exit code that it was read to have. */
  predicate Grounded(f: Facts, judge: bool, phase: Phase) {
    && (phase == Failure ==> HasFailed(f.ended, judge))
    && if judge then
         (phase == Success ==> Ended(true, 0) in f.ended) && (phase == Success || phase == Failure ==> f.judgeWas)
       else (phase == Success ==> f.tested)
  }

  lemma VerdictGrounded(f: Facts, judge: bool, pod: Pod)
    requires EndsOf(Some(pod), judge) <= f.ended && (judge ==> f.judgeWas)
    requires !judge && ExitCode(pod, TESTJOB) == Some(0) ==> f.tested
    ensures Grounded(f, judge, Verdict(pod, JobName(judge)).0)
  {
    var code := ExitCode(pod, JobName(judge));
    if code.Some? {
      assert Ended(judge, code.value) in f.ended;
    }
  }

  lemma MayJob(f: Facts, sawBoth: bool, s: Status, judge: bool, phase: Phase, note: Note)
    requires JobStage(s.progress, judge) && Grounded(f, judge, phase)
    ensures MayPut(f, sawBoth, s, WithJob(s, judge, phase, note))
  {
    if judge {
      assert JudgeWrite(s, WithJob(s, judge, phase, note));
    } else {
      assert TestWrite(f, s, WithJob(s, judge, phase, note));
    }
  }

  lemma MayCanary(f: Facts, sawBoth: bool, s: Status, phase: Phase)
    requires s.progress == Canary && (phase == InProgress || (phase == Success && f.routeWas))
    ensures MayPut(f, sawBoth, s, s.(canary := phase))
  {
  }

  lemma MayReport(f: Facts, sawBoth: bool, s: Status)
    requires s.progress == Reporting
    ensures MayPut(f, sawBoth, s, s.(reporting := Success))
  {
  }

  lemma MayClean(f: Facts, sawBoth: bool, s: Status)
    requires s.progress == Cleanup && s.cleanup != Success && f.testGone && f.judgeGone && f.canaryGone && f.routeGone
    ensures MayPut(f, sawBoth, s, s.(cleanup := Success))
  {
  }

  /** What holds after the report: its own write may have failed unnoticed. */
  predicate Nearly(v: View, status: Status, version: nat) {
    && version < |v.statuses|
    && (status == v.statuses[version]
        || (v.statuses[version].progress == Reporting && status == v.statuses[version].(reporting := Success)))
    && (status.progress != Cleanup ==> status.init == Success)
  }

  lemma MayAdvance(v: View, sawBoth: bool, status: Status, version: nat)
    requires Nearly(v, status, version) && NextPhase(status) != status
    ensures version == |v.statuses| - 1 ==> MayPut(v.facts, sawBoth, v.Stored(), NextPhase(status))
    ensures version == |v.statuses| - 1 ==> Rank(NextPhase(status).progress) == Rank(v.Progress()) + 1
  {
  }

  /** The view before and after a Reconcile: at most one stage forward, never back. */
  predicate Advances(a: View, b: View) {
    && b.service == a.service && a.statuses <= b.statuses
    && Rank(a.Progress()) <= Rank(b.Progress()) <= Rank(a.Progress()) + 1
  }

  /** Some of the canary's objects may be gone; nothing else has changed. */
  predicate Lost(a: Snapshot, b: Snapshot) {
    && b == a.(testPod := b.testPod, judgePod := b.judgePod, canaryDep := b.canaryDep)
    && (b.testPod == a.testPod || b.testPod.None?) && (b.judgePod == a.judgePod || b.judgePod.None?)
    && (b.canaryDep == a.canaryDep || b.canaryDep.None?)
  }

  /** The canary's route may be merged, once; nothing else has changed. */
  predicate Unrouted(c: string, svc: string, a: Snapshot, b: Snapshot) {
    b == a || (b == a.(vs := Merge(a.vs, svc, c)) && !HasRoute(b.vs, svc, c))
  }

  /** Nothing fails, nobody interferes, and the copy is the stored version. */
  predicate Undisturbed(mode: Mode, v: View, s: Snapshot, status: Status, version: nat) {
    mode == Calm && version == |v.statuses| - 1 && status == v.Stored() == s.status
  }

  /** The last call was one that may fail without notice: the write of the cleanup's own success. */
  predicate Dropped(call: Call) {
    call.what.WritingStatus? && call.what.status.progress == Cleanup && call.what.status.cleanup == Success
  }

  /** The failure at which a stage ends, by its last call. */
  function FailureOf(call: Call): Option<Error> {
    if Dropped(call) then None else call.error
  }

  /** Whether and when the request is to be processed again, and the error that is reported. */
  datatype Outcome = Outcome(requeue: bool, requeueAfter: nat, error: Option<Error>)

  /** A write that lost to another one is not reported as an error. */
  function FallbackReconcile(e: Option<Error>): Outcome {
    Outcome(true, 5, if e == Some(IsConflict) then None else e)
  }

  /**
   What a Reconcile that has read its Canary asks for: to be called again after five seconds in any case,
   at once and in turn if a stage has failed, and to have the failure reported if it is no conflict.
   */
  predicate AsksAgain(outcome: Outcome, failure: Option<Error>) {
    && outcome.requeueAfter == 5
    && (outcome.requeue <==> failure.Some?)
    && (failure == Some(IsConflict) ==> outcome.error.None?)
    && (failure != Some(IsConflict) ==> outcome.error == failure)
  }

  /** What one asks for that could not read it: nothing, or a report of the failure. */
  predicate GivesUp(outcome: Outcome, failure: Option<Error>) {
    && outcome.requeueAfter == 0 && !outcome.requeue && failure.Some?
    && (failure == Some(IsNotFound) ==> outcome.error.None?)
    && (failure != Some(IsNotFound) ==> outcome.error == failure)
  }

  /** A Reconcile that starts from this version of the Canary has nothing to write. */
  predicate Idle(v: View, version: nat) {
    && version < |v.statuses|
    && if v.statuses[version].progress != Cleanup then version < |v.statuses| - 1
       else v.statuses[version].cleanup == Success
  }

  class ReconcileCanary {
    const client: Client

    constructor (client: Client)
      ensures this.client == client
    {
      this.client := client;
    }

    // ----- the deployments

    method ReconcileCanaryAndBaseline(canary: CanaryObject) returns (e: Option<Error>)
      requires client.Valid() && Copied(client.view, canary.status, canary.version)
      requires client.view.passed.Some? ==> client.view.passed.value < client.view.round
      requires FailureOf(client.last).None?
      modifies client, canary
      ensures client.Valid() && client.mode == old(client.mode) && Stays(old(client.view), client.view)
      ensures canary.status == old(canary.status).(init := canary.status.init)
      ensures old(canary.status).progress == Cleanup ==> e.None? && unchanged(client) && unchanged(canary)
      ensures old(canary.status).progress != Cleanup && old(canary.version) < |old(client.view).statuses| - 1 ==>
                e.Some? && client.Wrote() == old(client.Wrote())
      ensures e.None? && canary.status.init != InProgress ==> Holds(client.view, canary.status, canary.version)
      ensures client.mode != Wild ==> client.snap == old(client.snap).(status := client.view.Stored())
      ensures old(Undisturbed(client.mode, client.view, client.snap, canary.status, canary.version)) ==>
                && e.None? == !Missing(old(client.snap)) && client.snap == InitStage(old(client.snap))
                && (e.None? ==> Undisturbed(client.mode, client.view, client.snap, canary.status, canary.version))
      ensures e == FailureOf(client.last)
    {
      client.SameStatus();
      if canary.status.progress == Cleanup {
        return None;
      }
      var init;
      e, init := ReadAvailability();
      if e.Some? {
        return e;
      }
      e := StoreInit(canary, init);
    }

    /** What the two deployments' replicas say about the initialization. */
    method ReadAvailability() returns (e: Option<Error>, init: Phase)
      requires client.Valid()
      modifies client
      ensures client.Valid() && client.mode == old(client.mode) && Stays(old(client.view), client.view)
      ensures client.view.statuses == old(client.view).statuses && client.Wrote() == old(client.Wrote())
      ensures e.None? ==>
                && client.view.facts.canaryWas && client.view.passed == old(client.view).passed
                && (init == InProgress || (init == Success && client.view.SawBoth()))
      ensures client.mode != Wild ==> client.snap == old(client.snap)
      ensures client.mode == Calm ==>
                && e.None? == (client.snap.canaryDep.Some? && client.snap.baselineDep.Some?)
                && (e.None? ==>
                      (init == Success <==> Available(client.snap.canaryDep) && Available(client.snap.baselineDep)))
      ensures e == FailureOf(client.last)
    {
      init := InProgress;
      var canaryDeployment := client.GetDeployment(false);
      if canaryDeployment.Failed? {
        return Some(canaryDeployment.error), init;
      }
      var baselineDeployment := client.GetDeployment(true);
      if baselineDeployment.Failed? {
        return Some(baselineDeployment.error), init;
      }
      e := None;
      init := if canaryDeployment.value <= 0 || baselineDeployment.value <= 0 then InProgress else Success;
    }

    method StoreInit(canary: CanaryObject, init: Phase) returns (e: Option<Error>)
      requires client.Valid() && Copied(client.view, canary.status, canary.version) && canary.status.progress != Cleanup
      requires client.view.passed.Some? ==> client.view.passed.value < client.view.round
      requires client.view.facts.canaryWas && (init == InProgress || (init == Success && client.view.SawBoth()))
      modifies client, canary
      ensures client.Valid() && client.mode == old(client.mode) && Stays(old(client.view), client.view)
      ensures canary.status == old(canary.status).(init := init)
      ensures old(canary.version) < |old(client.view).statuses| - 1 ==> e.Some? && client.Wrote() == old(client.Wrote())
      ensures e.None? && init != InProgress ==> Holds(client.view, canary.status, canary.version)
      ensures client.mode != Wild ==> client.snap == old(client.snap).(status := client.view.Stored())
      ensures old(Undisturbed(client.mode, client.view, client.snap, canary.status, canary.version)) ==>
                e.None? && Undisturbed(client.mode, client.view, client.snap, canary.status, canary.version)
      ensures e == FailureOf(client.last)
    {
      client.Stages(canary.version);
      if canary.version == |client.view.statuses| - 1 {
        MayInit(client.view.facts, client.view.SawBoth(), client.view.Stored(), canary.status.(init := init));
      }
      e := Store(canary, canary.status.(init := init));
    }

    /** Assignment to the status of the copy, and its write, which keeps the stage. */
    method Store(canary: CanaryObject, status: Status) returns (e: Option<Error>)
      requires client.Valid() && canary.version < |client.view.statuses|
      requires canary.version == |client.view.statuses| - 1 ==>
                 && MayPut(client.view.facts, client.view.SawBoth(), client.view.Stored(), status)
                 && status.progress == client.view.Progress()
      modifies client, canary
      ensures client.Valid() && client.mode == old(client.mode) && canary.status == status
      ensures Stored(old(client.view), client.view, old(canary.version), canary.version, status, e)
      ensures old(canary.version) < |old(client.view).statuses| - 1 ==> client.Wrote() == old(client.Wrote())
      ensures client.mode != Wild ==> client.snap == old(client.snap).(status := client.view.Stored())
      ensures client.mode == Calm && old(canary.version) == |old(client.view).statuses| - 1 ==> e.None?
      ensures client.last == Call(WritingStatus(status), e)
    {
      canary.status := status;
      e := client.UpdateStatus(canary);
    }

    // ----- the test job and the judge job

    method ReconcileTestJob(canary: CanaryObject) returns (e: Option<Error>)
      requires client.Valid() && Holds(client.view, canary.status, canary.version)
      requires FailureOf(client.last).None?
      modifies client, canary
      ensures client.Valid() && client.mode == old(client.mode) && Stays(old(client.view), client.view)
      ensures canary.status.progress == old(canary.status).progress
      ensures old(canary.status).progress != Testing ==> e.None? && unchanged(client) && unchanged(canary)
      ensures e.None? ==> Holds(client.view, canary.status, canary.version)
      ensures old(Undisturbed(client.mode, client.view, client.snap, canary.status, canary.version)) ==>
                && e.None? && client.snap == TestStage(old(client.snap))
                && Undisturbed(client.mode, client.view, client.snap, canary.status, canary.version)
      ensures e == FailureOf(client.last)
    {
      if canary.status.progress == Cleanup {
        return None;
      }
      if canary.status.progress != Testing {
        return None;
      }
      var policy := client.GetPolicy();
      if policy.Failed? {
        return Some(policy.error);
      }
      var testJob;
      e, testJob := FetchJob(canary, false);
      if e.Some? {
        return e;
      }
      e := StoreVerdict(canary, false, testJob);
    }

    method ReconcileJudgeJob(canary: CanaryObject) returns (e: Option<Error>)
      requires client.Valid() && Holds(client.view, canary.status, canary.version)
      requires FailureOf(client.last).None?
      modifies client, canary
      ensures client.Valid() && client.mode == old(client.mode) && Stays(old(client.view), client.view)
      ensures canary.status.progress == old(canary.status).progress
      ensures old(canary.status).progress != Testing && old(canary.status).progress != Canary ==>
                e.None? && unchanged(client) && unchanged(canary)
      ensures e.None? ==> Holds(client.view, canary.status, canary.version)
      ensures old(Undisturbed(client.mode, client.view, client.snap, canary.status, canary.version)) ==>
                && e.None? && client.snap == JudgeStage(old(client.snap))
                && Undisturbed(client.mode, client.view, client.snap, canary.status, canary.version)
      ensures e == FailureOf(client.last)
    {
      if canary.status.progress == Cleanup {
        return None;
      }
      if canary.status.progress != Testing && canary.status.progress != Canary {
        return None;
      }
      var policy := client.GetPolicy();
      if policy.Failed? {
        return Some(policy.error);
      }
      var judgeJob;
      e, judgeJob := FetchJob(canary, true);
      if e.Some? {
        return e;
      }
      e := StoreVerdict(canary, true, judgeJob);
    }

    /** The pod of the job, created if there is none. */
    method FetchJob(canary: CanaryObject, judge: bool) returns (e: Option<Error>, job: Pod)
      requires client.Valid() && Holds(client.view, canary.status, canary.version)
               && JobStage(canary.status.progress, judge)
      modifies client, canary
      ensures client.Valid() && client.mode == old(client.mode) && Stays(old(client.view), client.view)
      ensures canary.status.progress == old(canary.status).progress
      ensures e.None? ==>
                && Holds(client.view, canary.status, canary.version)
                && Grounded(client.view.facts, judge, Verdict(job, JobName(judge)).0)
      ensures old(Undisturbed(client.mode, client.view, client.snap, canary.status, canary.version)) ==>
                && e.None? && job == PodOrNew(old(client.snap).Pod(judge))
                && client.snap == old(client.snap).WithPod(judge, Some(job)).(status := client.view.Stored())
                && WithJob(canary.status, judge, Blank, NoNote) == WithJob(old(canary.status), judge, Blank, NoNote)
                && Undisturbed(client.mode, client.view, client.snap, canary.status, canary.version)
      ensures e == FailureOf(client.last)
    {
      var pod := client.GetPod(judge);
      match pod
      case Found(found) =>
        VerdictGrounded(client.view.facts, judge, found);
        return None, found;
      case Failed(error) =>
        if error != IsNotFound {
          return Some(error), [];
        }
        e := CreateJob(canary, judge);
        return e, [];
    }

    method CreateJob(canary: CanaryObject, judge: bool) returns (e: Option<Error>)
      requires client.Valid() && Holds(client.view, canary.status, canary.version)
               && JobStage(canary.status.progress, judge)
      modifies client, canary
      ensures client.Valid() && client.mode == old(client.mode) && Stays(old(client.view), client.view)
      ensures canary.status.progress == old(canary.status).progress
      ensures e.None? ==> Holds(client.view, canary.status, canary.version)
      ensures e.None? ==> canary.status == WithJob(old(canary.status), judge, InProgress, JobInitialized)
      ensures old(Undisturbed(client.mode, client.view, client.snap, canary.status, canary.version))
              && old(client.snap).Pod(judge).None? ==>
                && e.None? && client.snap == old(client.snap).WithPod(judge, Some([])).(status := client.view.Stored())
                && WithJob(canary.status, judge, Blank, NoNote) == WithJob(old(canary.status), judge, Blank, NoNote)
                && Undisturbed(client.mode, client.view, client.snap, canary.status, canary.version)
      ensures e == FailureOf(client.last)
    {
      e := client.CreatePod(judge);
      if e.Some? {
        return e;
      }
      MayJob(client.view.facts, client.view.SawBoth(), client.view.Stored(), judge, InProgress, JobInitialized);
      e := Store(canary, WithJob(canary.status, judge, InProgress, JobInitialized));
    }

    method StoreVerdict(canary: CanaryObject, judge: bool, job: Pod) returns (e: Option<Error>)
      requires client.Valid() && Holds(client.view, canary.status, canary.version)
               && JobStage(canary.status.progress, judge)
      requires Grounded(client.view.facts, judge, Verdict(job, JobName(judge)).0)
      requires FailureOf(client.last).None?
      modifies client, canary
      ensures client.Valid() && client.mode == old(client.mode) && Stays(old(client.view), client.view)
      ensures var v := Verdict(job, JobName(judge));
              canary.status == WithJob(old(canary.status), judge, v.0, v.1)
      ensures e.None? ==> Holds(client.view, canary.status, canary.version)
      ensures old(Undisturbed(client.mode, client.view, client.snap, canary.status, canary.version)) ==>
                && e.None? && client.snap == old(client.snap).(status := client.view.Stored())
                && Undisturbed(client.mode, client.view, client.snap, canary.status, canary.version)
      ensures e == FailureOf(client.last)
    {
      var newStatus, newMessage := JobVerdict(job, JobName(judge));
      var status := WithJob(canary.status, judge, newStatus, newMessage);
      if status == canary.status {
        return None;
      }
      MayJob(client.view.facts, client.view.SawBoth(), client.view.Stored(), judge, newStatus, newMessage);
      e := Store(canary, status);
    }

    // ----- the traffic

    method ReconcileVirtualService(canary: CanaryObject) returns (e: Option<Error>)
      requires client.Valid() && Holds(client.view, canary.status, canary.version)
      requires FailureOf(client.last).None?
      modifies client, canary
      ensures client.Valid() && client.mode == old(client.mode) && Stays(old(client.view), client.view)
      ensures canary.status.progress == old(canary.status).progress
      ensures old(canary.status).progress != Canary ==> e.None? && unchanged(client) && unchanged(canary)
      ensures e.None? ==> Holds(client.view, canary.status, canary.version)
      ensures old(Undisturbed(client.mode, client.view, client.snap, canary.status, canary.version)) ==>
                && e.None? && client.snap == TrafficStage(client.name, old(client.view).service, old(client.snap))
                && Undisturbed(client.mode, client.view, client.snap, canary.status, canary.version)
      ensures e == FailureOf(client.last)
    {
      if canary.status.progress != Canary {
        return None;
      }
      if canary.status.canary == Queued {
        e := StoreCanary(canary, InProgress);
        if e.Some? {
          return e;
        }
      }
      var policy := client.GetPolicy();
      if policy.Failed? {
        return Some(policy.error);
      }
      e := RouteTraffic(canary, policy.value);
    }

    method StoreCanary(canary: CanaryObject, phase: Phase) returns (e: Option<Error>)
      requires client.Valid() && Holds(client.view, canary.status, canary.version) && canary.status.progress == Canary
      requires phase == InProgress || (phase == Success && client.view.facts.routeWas)
      modifies client, canary
      ensures client.Valid() && client.mode == old(client.mode) && Stays(old(client.view), client.view)
      ensures canary.status == old(canary.status).(canary := phase)
      ensures e.None? ==> Holds(client.view, canary.status, canary.version)
      ensures old(Undisturbed(client.mode, client.view, client.snap, canary.status, canary.version)) ==>
                && e.None? && client.snap == old(client.snap).(status := canary.status)
                && Undisturbed(client.mode, client.view, client.snap, canary.status, canary.version)
      ensures e == FailureOf(client.last)
    {
      MayCanary(client.view.facts, client.view.SawBoth(), client.view.Stored(), phase);
      e := Store(canary, canary.status.(canary := phase));
    }

    method RouteTraffic(canary: CanaryObject, service: string) returns (e: Option<Error>)
      requires client.Valid() && Holds(client.view, canary.status, canary.version) && canary.status.progress == Canary
      requires service == client.view.service && canary.status.canary != Queued
      modifies client, canary
      ensures client.Valid() && client.mode == old(client.mode) && Stays(old(client.view), client.view)
      ensures canary.status.progress == Canary
      ensures e.None? ==> Holds(client.view, canary.status, canary.version)
      ensures old(Undisturbed(client.mode, client.view, client.snap, canary.status, canary.version)) ==>
                && e.None? && client.snap == TrafficStage(client.name, service, old(client.snap))
                && Undisturbed(client.mode, client.view, client.snap, canary.status, canary.version)
      ensures e == FailureOf(client.last)
    {
      var got, version := client.GetVirtualService();
      if got.Failed? {
        return Some(got.error);
      }
      e := ActOnRoutes(canary, got.value, version, service);
    }

    method ActOnRoutes(canary: CanaryObject, vs: VirtualServiceSpec, version: nat, service: string)
      returns (e: Option<Error>)
      requires client.Valid() && Holds(client.view, canary.status, canary.version) && canary.status.progress == Canary
      requires service == client.view.service && canary.status.canary != Queued
      requires vs.Valid() && vs.Unshared() && Readable(vs.Value(), service) && client !in vs.Repr && canary !in vs.Repr
      requires version < |client.w.vs.hist| && client.w.vs.hist[version] == vs.Value()
      requires HasRoute(vs.Value(), service, client.name) ==> client.view.facts.routeWas
      requires FailureOf(client.last).None?
      modifies client, canary, vs.Repr
      ensures client.Valid() && client.mode == old(client.mode) && Stays(old(client.view), client.view)
      ensures canary.status.progress == Canary
      ensures e.None? ==> Holds(client.view, canary.status, canary.version)
      ensures old(Undisturbed(client.mode, client.view, client.snap, canary.status, canary.version))
              && version == |old(client.w).vs.hist| - 1 && old(vs.Value()) == old(client.snap).vs ==>
                && e.None? && client.snap == TrafficStage(client.name, service, old(client.snap))
                && Undisturbed(client.mode, client.view, client.snap, canary.status, canary.version)
      ensures e == FailureOf(client.last)
    {
      var httpIndex, routeIndex, canaryRoute := FindRoutes(vs, service);
      if httpIndex == -1 || routeIndex == -1 {
        return None;
      }
      if canaryRoute != -1 {
        e := ConfirmRoute(canary);
      } else {
        e := AddRoute(canary, vs, version, service, httpIndex, routeIndex);
      }
    }

    method ConfirmRoute(canary: CanaryObject) returns (e: Option<Error>)
      requires client.Valid() && Holds(client.view, canary.status, canary.version) && canary.status.progress == Canary
      requires client.view.facts.routeWas
      requires FailureOf(client.last).None?
      modifies client, canary
      ensures client.Valid() && client.mode == old(client.mode) && Stays(old(client.view), client.view)
      ensures canary.status.progress == Canary
      ensures e.None? ==> Holds(client.view, canary.status, canary.version)
      ensures old(Undisturbed(client.mode, client.view, client.snap, canary.status, canary.version)) ==>
                && e.None? && Undisturbed(client.mode, client.view, client.snap, canary.status, canary.version)
                && var s := old(client.snap);
                   client.snap == s.(status :=
                     s.status.(canary := if s.status.canary == InProgress then Success else s.status.canary))
      ensures e == FailureOf(client.last)
    {
      e := None;
      if canary.status.canary == InProgress {
        e := StoreCanary(canary, Success);
      }
    }

    /** The three searches: the block and the route of the service, and the canary's route beside it. */
    method FindRoutes(vs: VirtualServiceSpec, service: string)
      returns (httpIndex: int, routeIndex: int, canaryRoute: int)
      requires vs.Valid() && Readable(vs.Value(), service)
      ensures httpIndex == FindBlock(BlocksOf(vs.Value()), service)
      ensures httpIndex == -1 <==> routeIndex == -1
      ensures httpIndex == -1 ==> canaryRoute == -1
      ensures httpIndex != -1 ==>
                && routeIndex == FindRoute(RoutesOf(BlocksOf(vs.Value())[httpIndex]), service)
                && canaryRoute == FindRoute(RoutesOf(BlocksOf(vs.Value())[httpIndex]), client.name)
      ensures canaryRoute != -1 <==> HasRoute(vs.Value(), service, client.name)
    {
      ReadableSearches(vs.Value(), service, client.name);
      httpIndex, routeIndex := vs.FindMatchingHttpAndRoute(service);
      canaryRoute := -1;
      if httpIndex != -1 && routeIndex != -1 {
        canaryRoute := vs.FindMatchingRouteInHttpRoute(client.name, httpIndex);
      }
    }

    method AddRoute(canary: CanaryObject, vs: VirtualServiceSpec, version: nat, service: string, httpIndex: nat,
                    routeIndex: nat)
      returns (e: Option<Error>)
      requires client.Valid() && Holds(client.view, canary.status, canary.version) && canary.status.progress == Canary
      requires vs.Valid() && vs.Unshared() && client !in vs.Repr && canary !in vs.Repr
      requires version < |client.w.vs.hist| && client.w.vs.hist[version] == vs.Value()
      requires httpIndex == FindBlock(BlocksOf(vs.Value()), service)
      requires routeIndex == FindRoute(RoutesOf(BlocksOf(vs.Value())[httpIndex]), service)
      requires !HasRoute(vs.Value(), service, client.name) && service == client.view.service
      modifies client, vs.Repr
      ensures client.Valid() && client.mode == old(client.mode) && Stays(old(client.view), client.view)
      ensures Holds(client.view, canary.status, canary.version)
      ensures old(Undisturbed(client.mode, client.view, client.snap, canary.status, canary.version))
              && version == |old(client.w).vs.hist| - 1 ==>
                && e.None? && Undisturbed(client.mode, client.view, client.snap, canary.status, canary.version)
                && client.snap == old(client.snap).(vs := Split(old(vs.Value()), service, client.name))
      ensures e == FailureOf(client.last)
    {
      ghost var before := client.view;
      MaySplit(before, canary.status, canary.version, client.name);
      e := SplitAndUpdate(vs, version, service, httpIndex, routeIndex);
      StillHolds(before, client.view, canary.status, canary.version);
    }

    method SplitAndUpdate(vs: VirtualServiceSpec, version: nat, service: string, httpIndex: nat, routeIndex: nat)
      returns (e: Option<Error>)
      requires client.Valid() && vs.Valid() && vs.Unshared() && client !in vs.Repr
      requires version < |client.w.vs.hist| && client.w.vs.hist[version] == vs.Value()
      requires httpIndex == FindBlock(BlocksOf(vs.Value()), service)
      requires routeIndex == FindRoute(RoutesOf(BlocksOf(vs.Value())[httpIndex]), service)
      requires !HasRoute(vs.Value(), service, client.name)
      requires EditAllowed(client.view, client.name, SplitOp(client.name, service))
      modifies client, vs.Repr
      ensures client.Valid() && client.mode == old(client.mode) && Later(old(client.view), client.view)
      ensures client.mode == Calm && version == |old(client.w).vs.hist| - 1 ==>
                e.None? && client.snap == old(client.snap).(vs := Split(old(vs.Value()), service, client.name))
      ensures e == FailureOf(client.last)
    {
      vs.SplitInPlace(service, httpIndex, routeIndex, client.name);
      assert OpFits(client.w.vs.hist[version], SplitOp(client.name, service));
      e := client.UpdateVirtualService(vs, version, SplitOp(client.name, service));
    }

    // ----- the report

    /** The error of the status write is swallowed. */
    method ReconcileReporting(canary: CanaryObject) returns (e: Option<Error>)
      requires client.Valid() && Holds(client.view, canary.status, canary.version)
      requires FailureOf(client.last).None?
      modifies client, canary
      ensures client.Valid() && client.mode == old(client.mode) && Stays(old(client.view), client.view) && e.None?
      ensures canary.status.progress == old(canary.status).progress
      ensures old(canary.status).progress != Reporting ==> unchanged(client) && unchanged(canary)
      ensures Nearly(client.view, canary.status, canary.version)
      ensures old(Undisturbed(client.mode, client.view, client.snap, canary.status, canary.version)) ==>
                && client.snap == ReportStage(old(client.snap))
                && Undisturbed(client.mode, client.view, client.snap, canary.status, canary.version)
      ensures FailureOf(client.last).None?
              || (canary.status.progress == Reporting && canary.status.reporting == Success)
    {
      if canary.status.progress != Reporting {
        return None;
      }
      if canary.status.reporting == Success {
        return None;
      }
      MayReport(client.view.facts, client.view.SawBoth(), client.view.Stored());
      var ignored := Store(canary, canary.status.(reporting := Success));
      e := None;
    }

    // ----- the cleanup

    method ReconcileCleanup(canary: CanaryObject) returns (e: Option<Error>)
      requires client.Valid() && Nearly(client.view, canary.status, canary.version)
      requires FailureOf(client.last).None? || canary.status.progress != Cleanup
      modifies client, canary
      ensures client.Valid() && client.mode == old(client.mode) && Stays(old(client.view), client.view)
      ensures canary.status.progress == old(canary.status).progress
      ensures old(canary.status).progress != Cleanup || old(canary.status).cleanup == Success ==>
                e.None? && unchanged(client) && unchanged(canary)
      ensures e.None? ==> Nearly(client.view, canary.status, canary.version) || canary.status.progress == Cleanup
      ensures client.mode != Wild ==> SameCleanup(client.name, client.view.service, old(client.snap), client.snap)
      ensures old(Undisturbed(client.mode, client.view, client.snap, canary.status, canary.version)) ==>
                && e.None? && client.snap == CleanupStage(client.name, client.view.service, old(client.snap))
                && Undisturbed(client.mode, client.view, client.snap, canary.status, canary.version)
      ensures old(canary.status).progress == Cleanup ==> e == FailureOf(client.last)
    {
      if canary.status.progress != Cleanup {
        return None;
      }
      if canary.status.cleanup == Success {
        return None;
      }
      CleanupStands(canary.version);
      var policy := client.GetPolicy();
      if policy.Failed? {
        return Some(policy.error);
      }
      e := CleanupAll(policy.value);
      if e.Some? {
        return e;
      }
      StoreCleanup(canary);
    }

    /** All that is deleted and given back before the cleanup claims success. */
    method CleanupAll(service: string) returns (e: Option<Error>)
      requires client.Valid() && client.view.Progress() == Cleanup && service == client.view.service
      modifies client
      ensures client.Valid() && client.mode == old(client.mode) && Stays(old(client.view), client.view)
      ensures client.view.statuses == old(client.view).statuses
      ensures e.None? ==>
                var f := client.view.facts; f.testGone && f.judgeGone && f.canaryGone && f.routeGone
      ensures client.mode != Wild ==> SameCleanup(client.name, service, old(client.snap), client.snap)
      ensures client.mode == Calm ==> e.None? && client.snap == Cleaned(client.name, service, old(client.snap))
      ensures e == FailureOf(client.last)
    {
      e := CleanupObjects();
      if e.Some? {
        return e;
      }
      e := CleanupRoute(service);
    }

    /** A copy in the Cleanup stage, outdated or not, tells the stage that is stored. */
    lemma CleanupStands(version: nat)
      requires client.Valid() && version < |client.view.statuses| && client.view.statuses[version].progress == Cleanup
      ensures client.view.Progress() == Cleanup
    {
      client.Stages(version);
    }

    method CleanupObjects() returns (e: Option<Error>)
      requires client.Valid() && client.view.Progress() == Cleanup
      modifies client
      ensures client.Valid() && client.mode == old(client.mode) && Stays(old(client.view), client.view)
      ensures client.view.statuses == old(client.view).statuses
      ensures e.None? ==> client.view.facts.testGone && client.view.facts.judgeGone && client.view.facts.canaryGone
      ensures client.mode != Wild ==> Lost(old(client.snap), client.snap)
      ensures client.mode == Calm ==>
                e.None? && client.snap == old(client.snap).(testPod := None, judgePod := None, canaryDep := None)
      ensures e.Some? ==> e == FailureOf(client.last)
    {
      e := CleanupPod(false);
      if e.Some? {
        return e;
      }
      e := CleanupPod(true);
      if e.Some? {
        return e;
      }
      e := CleanupDeployment();
    }

    method CleanupPod(judge: bool) returns (e: Option<Error>)
      requires client.Valid() && client.view.Progress() == Cleanup
      modifies client
      ensures client.Valid() && client.mode == old(client.mode) && Stays(old(client.view), client.view)
      ensures client.view.statuses == old(client.view).statuses
      ensures e.None? ==> if judge then client.view.facts.judgeGone else client.view.facts.testGone
      ensures client.mode != Wild ==>
                client.snap == old(client.snap) || client.snap == old(client.snap).WithPod(judge, None)
      ensures client.mode == Calm ==> e.None? && client.snap == old(client.snap).WithPod(judge, None)
      ensures e.Some? ==> e == FailureOf(client.last)
    {
      var pod := client.GetPod(judge);
      if pod.Failed? {
        return if pod.error == IsNotFound then None else Some(pod.error);
      }
      e := client.DeletePod(judge);
    }

    method CleanupDeployment() returns (e: Option<Error>)
      requires client.Valid() && client.view.Progress() == Cleanup
      modifies client
      ensures client.Valid() && client.mode == old(client.mode) && Stays(old(client.view), client.view)
      ensures client.view.statuses == old(client.view).statuses
      ensures e.None? ==> client.view.facts.canaryGone
      ensures client.mode != Wild ==>
                client.snap == old(client.snap) || client.snap == old(client.snap).(canaryDep := None)
      ensures client.mode == Calm ==> e.None? && client.snap == old(client.snap).(canaryDep := None)
      ensures e.Some? ==> e == FailureOf(client.last)
    {
      var app := client.GetDeployment(false);
      if app.Failed? {
        return if app.error == IsNotFound then None else Some(app.error);
      }
      e := client.DeleteDeployment();
    }

    /** Gives the canary's weight back and drops its route, if it has one. */
    method CleanupRoute(service: string) returns (e: Option<Error>)
      requires client.Valid() && client.view.Progress() == Cleanup && service == client.view.service
      modifies client
      ensures client.Valid() && client.mode == old(client.mode) && Later(old(client.view), client.view)
      ensures e.None? ==> client.view.facts.routeGone
      ensures client.mode != Wild ==> Unrouted(client.name, service, old(client.snap), client.snap)
      ensures client.mode == Calm ==>
                e.None? && client.snap == old(client.snap).(vs := Merge(old(client.snap).vs, service, client.name))
      ensures e == FailureOf(client.last)
    {
      var got, version := client.GetVirtualService();
      if got.Failed? {
        return Some(got.error);
      }
      e := MergeRoute(got.value, version, service);
    }

    method MergeRoute(vs: VirtualServiceSpec, version: nat, service: string) returns (e: Option<Error>)
      requires client.Valid() && client.view.Progress() == Cleanup && service == client.view.service
      requires vs.Valid() && vs.Unshared() && Readable(vs.Value(), service) && client !in vs.Repr
      requires version < |client.w.vs.hist| && client.w.vs.hist[version] == vs.Value()
      requires !HasRoute(vs.Value(), service, client.name) ==> client.view.facts.routeGone
      requires FailureOf(client.last).None?
      modifies client, vs.Repr
      ensures client.Valid() && client.mode == old(client.mode) && Later(old(client.view), client.view)
      ensures e.None? ==> client.view.facts.routeGone
      ensures client.mode != Wild ==> Unrouted(client.name, service, old(client.snap), client.snap)
      ensures client.mode == Calm && version == |old(client.w).vs.hist| - 1
              && old(vs.Value()) == old(client.snap).vs ==>
                e.None? && client.snap == old(client.snap).(vs := Merge(old(client.snap).vs, service, client.name))
      ensures e == FailureOf(client.last)
    {
      var httpIndex, routeIndex, canaryRoute := FindRoutes(vs, service);
      if httpIndex != -1 && routeIndex != -1 && canaryRoute != -1 {
        e := MergeAndUpdate(vs, version, service, httpIndex, routeIndex, canaryRoute);
      } else {
        MergeIdle(vs.Value(), service, client.name);
        e := None;
      }
    }

    method MergeAndUpdate(vs: VirtualServiceSpec, version: nat, service: string, httpIndex: nat, routeIndex: nat,
                          canaryRoute: nat)
      returns (e: Option<Error>)
      requires client.Valid() && vs.Valid() && vs.Unshared() && client !in vs.Repr
      requires version < |client.w.vs.hist| && client.w.vs.hist[version] == vs.Value()
      requires httpIndex == FindBlock(BlocksOf(vs.Value()), service)
      requires routeIndex == FindRoute(RoutesOf(BlocksOf(vs.Value())[httpIndex]), service)
      requires canaryRoute == FindRoute(RoutesOf(BlocksOf(vs.Value())[httpIndex]), client.name)
      requires HasRoute(vs.Value(), service, client.name)
      requires EditAllowed(client.view, client.name, MergeOp(client.name, service))
      modifies client, vs.Repr
      ensures client.Valid() && client.mode == old(client.mode) && Later(old(client.view), client.view)
      ensures e.None? ==> client.view.facts.routeGone
      ensures client.mode != Wild ==> Unrouted(client.name, service, old(client.snap), client.snap)
      ensures client.mode == Calm && version == |old(client.w).vs.hist| - 1 ==>
                e.None? && client.snap == old(client.snap).(vs := Merge(old(vs.Value()), service, client.name))
      ensures e == FailureOf(client.last)
    {
      if HasRoute(client.snap.vs, service, client.name) {
        client.MergedOnce();
      }
      vs.MergeInPlace(service, client.name, httpIndex, routeIndex, canaryRoute);
      e := client.UpdateVirtualService(vs, version, MergeOp(client.name, service));
    }

    /** The last write of the cleanup, whose error is swallowed. */
    method StoreCleanup(canary: CanaryObject)
      requires client.Valid() && Copied(client.view, canary.status, canary.version)
      requires canary.status.progress == Cleanup && canary.status.cleanup != Success
      requires var f := client.view.facts; f.testGone && f.judgeGone && f.canaryGone && f.routeGone
      modifies client, canary
      ensures client.Valid() && client.mode == old(client.mode) && Stays(old(client.view), client.view)
      ensures canary.status == old(canary.status).(cleanup := Success)
      ensures client.mode != Wild ==> client.snap == old(client.snap).(status := client.view.Stored())
      ensures old(Undisturbed(client.mode, client.view, client.snap, canary.status, canary.version)) ==>
                Undisturbed(client.mode, client.view, client.snap, canary.status, canary.version)
      ensures FailureOf(client.last).None?
    {
      MayClean(client.view.facts, client.view.SawBoth(), canary.status);
      var ignored := Store(canary, canary.status.(cleanup := Success));
    }

    // ----- the phases

    method ReconcilePhaseStatus(canary: CanaryObject) returns (e: Option<Error>)
      requires client.Valid()
               && (canary.status.progress == Cleanup || Nearly(client.view, canary.status, canary.version))
      requires FailureOf(client.last).None?
               || (canary.status.progress == Reporting && canary.status.reporting == Success)
      modifies client, canary
      ensures client.Valid() && client.mode == old(client.mode) && Advances(old(client.view), client.view)
      ensures old(canary.status).progress == Cleanup ==> e.None? && unchanged(client)
      ensures old(Undisturbed(client.mode, client.view, client.snap, canary.status, canary.version)) ==>
                e.None? && client.snap == PhaseStage(old(client.snap))
      ensures e == FailureOf(client.last)
    {
      client.SameStatus();
      var newStage := canary.status.progress;
      var status := canary.status;
      match status.progress {
        case Initializing =>
          if status.init == Success {
            newStage := Testing;
            status := status.(testing := Queued);
          }
        case Testing =>
          if status.testing == Success {
            newStage := Canary;
            status := status.(canary := Queued);
          }
        case Canary =>
          if status.canary == Success && (status.judging == Success || status.judging == Failure) {
            newStage := Reporting;
            status := status.(reporting := Queued);
          }
        case Reporting =>
          if status.reporting == Success {
            newStage := Cleanup;
            status := status.(cleanup := Queued);
          }
        case _ =>
      }
      if status.progress == Unset {
        newStage := Initializing;
      }
      if status.progress == newStage {
        return None;
      }
      e := StorePhase(canary, status.(progress := newStage));
    }

    method StorePhase(canary: CanaryObject, status: Status) returns (e: Option<Error>)
      requires client.Valid() && Nearly(client.view, canary.status, canary.version)
      requires status == NextPhase(canary.status) != canary.status
      modifies client, canary
      ensures client.Valid() && client.mode == old(client.mode) && Advances(old(client.view), client.view)
      ensures client.mode == Calm && old(canary.version) == |old(client.view).statuses| - 1 ==>
                e.None? && client.snap == old(client.snap).(status := status)
      ensures e == FailureOf(client.last)
    {
      MayAdvance(client.view, client.view.SawBoth(), canary.status, canary.version);
      canary.status := status;
      e := client.UpdateStatus(canary);
    }

    // ----- the whole

    method ReconcileStages(canary: CanaryObject) returns (e: Option<Error>)
      requires client.Valid() && Holds(client.view, canary.status, canary.version)
      requires FailureOf(client.last).None?
      modifies client, canary
      ensures client.Valid() && client.mode == old(client.mode) && Advances(old(client.view), client.view)
      ensures old(canary.status).progress == Cleanup && old(canary.status).cleanup == Success ==>
                e.None? && unchanged(client)
      ensures client.mode != Wild && old(canary.status).progress == Cleanup ==>
                SameCleanup(client.name, client.view.service, old(client.snap), client.snap)
      ensures old(Undisturbed(client.mode, client.view, client.snap, canary.status, canary.version)) ==>
                e.None? && client.snap == AfterInit(client.name, client.view.service, old(client.snap))
      ensures e == FailureOf(client.last)
    {
      e := ReconcileTestJob(canary);
      if e.Some? {
        return e;
      }
      e := ReconcileJudgeJob(canary);
      if e.Some? {
        return e;
      }
      e := ReconcileVirtualService(canary);
      if e.Some? {
        return e;
      }
      e := ReconcileReporting(canary);
      if e.Some? {
        return e;
      }
      e := ReconcileCleanup(canary);
      if e.Some? {
        return e;
      }
      e := ReconcilePhaseStatus(canary);
    }

    /** From the copy on. */
    method ReconcileCopy(canary: CanaryObject) returns (outcome: Outcome)
      requires client.Valid() && Copied(client.view, canary.status, canary.version)
      requires client.view.passed.Some? ==> client.view.passed.value < client.view.round
      requires FailureOf(client.last).None?
      modifies client, canary
      ensures client.Valid() && client.mode == old(client.mode) && Advances(old(client.view), client.view)
      ensures AsksAgain(outcome, FailureOf(client.last))
      ensures Idle(old(client.view), old(canary.version)) ==> client.Wrote() == old(client.Wrote())
      ensures client.mode != Wild && old(client.view).Progress() == Cleanup ==>
                SameCleanup(client.name, client.view.service, old(client.snap), client.snap)
      ensures old(Undisturbed(client.mode, client.view, client.snap, canary.status, canary.version)) ==>
                client.snap == Round(client.name, client.view.service, old(client.snap))
    {
      client.SameStatus();
      var e := ReconcileCanaryAndBaseline(canary);
      if e.Some? {
        return FallbackReconcile(e);
      }
      if canary.status.init == InProgress {
        return Outcome(false, 5, None);
      }
      e := ReconcileStages(canary);
      outcome := if e.Some? then FallbackReconcile(e) else Outcome(false, 5, None);
    }

    /**
     One Reconcile. It keeps to the protocol's steps (Valid) and moves the stored Progress forward by at
     most one stage. It writes nothing when its copy is an outdated one from before the Cleanup stage,
     or one of a finished cleanup. While nobody else acts, cutting it off anywhere does not change what
     a full cleanup will leave; undisturbed, it does exactly what Round says.
     */
    method Reconcile() returns (outcome: Outcome, ghost copy: Option<nat>)
      requires client.Valid()
      modifies client
      ensures client.Valid() && client.mode == old(client.mode) && Advances(old(client.view), client.view)
      ensures outcome.error != Some(IsConflict)
      ensures if copy.None? then GivesUp(outcome, client.last.error) else AsksAgain(outcome, FailureOf(client.last))
      ensures client.mode == Calm ==> copy.Some?
      ensures copy.None? || Idle(old(client.view), copy.value) ==> client.Wrote() == old(client.Wrote())
      ensures client.mode != Wild && old(client.view).Progress() == Cleanup ==>
                SameCleanup(client.name, client.view.service, old(client.snap), client.snap)
      ensures client.mode == Calm ==> client.snap == Round(client.name, client.view.service, old(client.snap))
    {
      client.Begin();
      var got := client.GetCanary();
      if got.Failed? {
        return Outcome(false, 0, if got.error == IsNotFound then None else Some(got.error)), None;
      }
      client.SameStatus();
      copy := Some(got.value.version);
      outcome := ReconcileCopy(got.value);
    }
  }

  /** The view before and after a status write within a stage. */
  predicate Stored(a: View, b: View, version: nat, version': nat, t: Status, e: Option<Error>) {
    && b == a.(statuses := b.statuses, facts := b.facts) && Stays(a, b)
    && (e.None? ==>
       version == |a.statuses| - 1 && Copied(b, t, version') && version' == |b.statuses| - 1 && b.Stored() == t)
    && (e.Some? ==> version' == version)
  }
}
