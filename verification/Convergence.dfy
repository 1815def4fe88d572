/**
 Where undisturbed Reconciles lead: from any reachable state to a finished cleanup in at most eight
 rounds, and to the same end however many attempts at the cleanup were cut off before.
 */
module Convergence {
  import opened Wrappers
  import opened VirtualServiceValues
  import opened Protocol
  import opened Invariant
  import opened Standpoint
  import opened Stages
  import opened Clients
  import opened CanaryController

  // ----- the measure

  /** Rounds that are left. */
  function Measure(c: string, svc: string, s: Snapshot): nat {
    match s.status.progress
    case Unset => 8
    case Initializing => 7
    case Testing => if s.testPod.None? then 6 else 5
    case Canary => if !HasRoute(s.vs, svc, c) || s.judgePod.None? then 4 else 3
    case Reporting => 2
    case Cleanup => if s.status.cleanup == Success then 0 else 1
  }

  /** The deployments are available while they are needed, and the service has its route. */
  ghost predicate Ready(c: string, svc: string, s: Snapshot) {
    && c != svc && Configured(s.vs, svc) && StatusInv(s.status)
    && (s.status.progress != Cleanup ==> Available(s.canaryDep) && Available(s.baselineDep))
  }

  /** The pods that exist are finished: the test passed, the judge has decided. */
  predicate Finished(s: Snapshot) {
    && (s.testPod.Some? ==> ExitCode(s.testPod.value, TESTJOB) == Some(0))
    && (s.judgePod.Some? ==> ExitCode(s.judgePod.value, JUDGE).Some?)
  }

  lemma EarlyRound(c: string, svc: string, s: Snapshot)
    requires Ready(c, svc, s) && Finished(s)
    requires s.status.progress == Unset || s.status.progress == Initializing || s.status.progress == Testing
    ensures Ready(c, svc, Round(c, svc, s)) && Measure(c, svc, Round(c, svc, s)) < Measure(c, svc, s)
  {
  }

  lemma TrafficRound(c: string, svc: string, s: Snapshot, t: Snapshot)
    requires c != svc && Configured(s.vs, svc) && StatusInv(s.status) && s.status.progress == Canary
    requires t == TrafficStage(c, svc, s)
    ensures t == s.(status := s.status.(canary := t.status.canary), vs := t.vs)
    ensures Configured(t.vs, svc) && HasRoute(t.vs, svc, c)
    ensures t.status.canary == InProgress || t.status.canary == Success
    ensures HasRoute(s.vs, svc, c) ==> t.status.canary == Success
  {
    if !HasRoute(s.vs, svc, c) {
      SplitRoutesIt(s.vs, svc, c);
    }
  }

  lemma CanaryRound(c: string, svc: string, s: Snapshot)
    requires Ready(c, svc, s) && Finished(s) && s.status.progress == Canary
    ensures Ready(c, svc, Round(c, svc, s)) && Measure(c, svc, Round(c, svc, s)) < Measure(c, svc, s)
  {
    var s1 := JudgeStage(TestStage(InitStage(s)));
    var s2 := TrafficStage(c, svc, s1);
    TrafficRound(c, svc, s1, s2);
    assert Round(c, svc, s) == PhaseStage(s2);
    assert HasRoute(s1.vs, svc, c) == HasRoute(s.vs, svc, c);
    CanaryAdvances(c, svc, s, s2);
  }

  lemma CanaryAdvances(c: string, svc: string, s: Snapshot, t: Snapshot)
    requires Ready(c, svc, s) && s.status.progress == Canary && t.status.progress == Canary
    requires t.judgePod.Some? && t.canaryDep == s.canaryDep && t.baselineDep == s.baselineDep
             && t.status.init == Success
    requires t.status.cleanup == s.status.cleanup
    requires Configured(t.vs, svc) && HasRoute(t.vs, svc, c)
    requires t.status.canary == InProgress || t.status.canary == Success
    requires HasRoute(s.vs, svc, c) && s.judgePod.Some? ==> t.status.canary == Success && Judged(t.status)
    ensures Ready(c, svc, PhaseStage(t)) && Measure(c, svc, PhaseStage(t)) < Measure(c, svc, s)
  {
  }

  lemma SplitRoutesIt(v: SpecValue, svc: string, c: string)
    requires c != svc && Configured(v, svc) && !HasRoute(v, svc, c)
    ensures Configured(Split(v, svc, c), svc) && HasRoute(Split(v, svc, c), svc, c)
  {
    UnroutedAtMostOne(ServiceRoutes(v, svc), c);
    OpEffect(v, SplitOp(c, svc), svc, c);
  }

  lemma MergeKeepsService(v: SpecValue, svc: string, c: string)
    requires c != svc && Configured(v, svc)
    ensures Configured(Merge(v, svc, c), svc)
  {
    if HasRoute(v, svc, c) {
      OpBlocks(v, MergeOp(c, svc), svc);
    }
  }

  lemma ReportRound(c: string, svc: string, s: Snapshot)
    requires Ready(c, svc, s) && s.status.progress == Reporting
    ensures Ready(c, svc, Round(c, svc, s)) && Measure(c, svc, Round(c, svc, s)) < Measure(c, svc, s)
  {
  }

  lemma CleanupRound(c: string, svc: string, s: Snapshot)
    requires Ready(c, svc, s) && s.status.progress == Cleanup
    ensures Ready(c, svc, Round(c, svc, s))
    ensures Measure(c, svc, s) > 0 ==> Measure(c, svc, Round(c, svc, s)) < Measure(c, svc, s)
    ensures Measure(c, svc, s) == 0 ==> Round(c, svc, s) == s
  {
    MergeKeepsService(s.vs, svc, c);
  }

  /**
   Every undisturbed round whose pods are finished comes strictly nearer to the end; at the end it changes
   nothing.
   */
  lemma RoundDescends(c: string, svc: string, s: Snapshot)
    requires Ready(c, svc, s) && Finished(s)
    ensures Ready(c, svc, Round(c, svc, s))
    ensures Measure(c, svc, s) > 0 ==> Measure(c, svc, Round(c, svc, s)) < Measure(c, svc, s)
    ensures Measure(c, svc, s) == 0 ==> Round(c, svc, s) == s
  {
    match s.status.progress
    case Canary => CanaryRound(c, svc, s);
    case Reporting => ReportRound(c, svc, s);
    case Cleanup => CleanupRound(c, svc, s);
    case _ => EarlyRound(c, svc, s);
  }

  // ----- the gates between the stages

  /** A round leaves the Testing stage exactly when the test pod has ended with exit code 0. */
  lemma TestingGate(c: string, svc: string, s: Snapshot)
    requires s.status.progress == Testing && Available(s.canaryDep) && Available(s.baselineDep)
    ensures var t := Round(c, svc, s).status.progress;
            && (t == Canary || t == Testing)
            && (t == Canary <==> s.testPod.Some? && ExitCode(s.testPod.value, TESTJOB) == Some(0))
    ensures Round(c, svc, s).vs == s.vs
  {
  }

  /**
   A round leaves the Canary stage exactly when the route is there and the judge pod has ended, whatever its
   verdict.
   */
  lemma CanaryGate(c: string, svc: string, s: Snapshot)
    requires Ready(c, svc, s) && s.status.progress == Canary
    ensures var t := Round(c, svc, s).status.progress;
            && (t == Reporting || t == Canary)
            && (t == Reporting <==>
                  (HasRoute(s.vs, svc, c) || s.status.canary == Success) && s.judgePod.Some?
                  && ExitCode(s.judgePod.value, JUDGE).Some?)
  {
    var s1 := JudgeStage(TestStage(InitStage(s)));
    var s2 := TrafficStage(c, svc, s1);
    JudgeJudges(s);
    TrafficRound(c, svc, s1, s2);
    assert Round(c, svc, s) == PhaseStage(s2);
    assert s2.status.canary == Success <==> HasRoute(s.vs, svc, c) || s.status.canary == Success;
  }

  lemma JudgeJudges(s: Snapshot)
    requires s.status.progress == Canary
    ensures Judged(JudgeStage(s).status) <==> s.judgePod.Some? && ExitCode(s.judgePod.value, JUDGE).Some?
  {
  }

  // ----- runs of whole Reconciles

  /** The kubelet ends the pods that exist: the test passes, the judge decides either way. */
  method FinishPods(client: Client, testPod: Pod, judgePod: Pod)
    requires client.Valid() && ExitCode(testPod, TESTJOB) == Some(0) && ExitCode(judgePod, JUDGE).Some?
    modifies client
    ensures client.Valid() && client.mode == old(client.mode) && Later(old(client.view), client.view)
    ensures Finished(client.snap)
    ensures client.snap == old(client.snap).(testPod := client.snap.testPod, judgePod := client.snap.judgePod)
    ensures client.snap.testPod.Some? == old(client.snap).testPod.Some?
    ensures client.snap.judgePod.Some? == old(client.snap).judgePod.Some?
  {
    client.Open();
    if client.Mine().testPod.Latest().Some? {
      client.PodReports(false, testPod);
    }
    client.Open();
    if client.Mine().judgePod.Latest().Some? {
      client.PodReports(true, judgePod);
    }
  }

  /**
   Progress: from any reachable state, eight undisturbed Reconciles, each of which finds the pods of
   the one before finished, end in a stored Cleanup success.
   */
  method EightRounds(controller: ReconcileCanary, testPods: seq<Pod>, judgePods: seq<Pod>)
    requires controller.client.Valid() && controller.client.mode == Calm
    requires |testPods| == |judgePods| == 8
    requires forall i :: 0 <= i < 8 ==> ExitCode(testPods[i], TESTJOB) == Some(0) && ExitCode(judgePods[i], JUDGE).Some?
    requires var s := controller.client.snap;
             && Configured(s.vs, controller.client.view.service)
             && (s.status.progress != Cleanup ==> Available(s.canaryDep) && Available(s.baselineDep))
    modifies controller.client
    ensures controller.client.Valid() && controller.client.snap.status.progress == Cleanup
    ensures controller.client.snap.status.cleanup == Success
  {
    var client := controller.client;
    ghost var svc := client.view.service;
    StartsReady(client);
    for i := 0 to 8
      invariant client.Valid() && client.mode == Calm && client.view.service == svc
      invariant Ready(client.name, svc, client.snap) && Measure(client.name, svc, client.snap) <= 8 - i
    {
      OneRound(controller, testPods[i], judgePods[i]);
    }
  }

  lemma StartsReady(client: Client)
    requires client.Valid() && Configured(client.snap.vs, client.view.service)
    requires client.snap.status.progress != Cleanup ==>
               Available(client.snap.canaryDep) && Available(client.snap.baselineDep)
    ensures Ready(client.name, client.view.service, client.snap)
  {
    client.SameStatus();
    client.Stages(0);
    client.NameIsNoService();
  }

  method OneRound(controller: ReconcileCanary, testPod: Pod, judgePod: Pod)
    requires var client := controller.client;
             client.Valid() && client.mode == Calm && Ready(client.name, client.view.service, client.snap)
    requires ExitCode(testPod, TESTJOB) == Some(0) && ExitCode(judgePod, JUDGE).Some?
    modifies controller.client
    ensures var client, svc := controller.client, old(controller.client.view).service;
            && client.Valid() && client.mode == Calm && client.view.service == svc
            && Ready(client.name, svc, client.snap)
            && var m := Measure(client.name, svc, old(client.snap));
               Measure(client.name, svc, client.snap) <= if m > 0 then m - 1 else 0
  {
    var client := controller.client;
    FinishPods(client, testPod, judgePod);
    RoundDescends(client.name, client.view.service, client.snap);
    var outcome, copy := controller.Reconcile();
  }

  /**
   Retry-safe cleanup. Any number of Reconciles cut off at any call, some of whose failed writes may
   have been applied, and then one undisturbed Reconcile, leave what a single undisturbed one leaves:
   the pods and the deployment gone, and the canary's weight returned exactly once.
   */
  method CleanupWithRetries(controller: ReconcileCanary, attempts: nat)
    requires controller.client.Valid() && controller.client.view.Progress() == Cleanup
    modifies controller.client
    ensures var client := controller.client;
            && client.Valid() && client.snap.status.cleanup == Success
            && client.snap ==
                 Cleaned(client.name, old(client.view).service, old(client.snap)).(status := client.snap.status)
  {
    var client := controller.client;
    ghost var svc := client.view.service;
    ghost var first := client.snap;
    client.mode := Alone;
    for i := 0 to attempts
      invariant client.Valid() && client.mode == Alone && client.view.service == svc
                && client.view.Progress() == Cleanup
      invariant SameCleanup(client.name, svc, first, client.snap)
    {
      var outcome, copy := controller.Reconcile();
    }
    client.mode := Calm;
    LastAttempt(client);
    var outcome, copy := controller.Reconcile();
  }

  lemma LastAttempt(client: Client)
    requires client.Valid() && client.view.Progress() == Cleanup
    ensures var t := Round(client.name, client.view.service, client.snap);
            t == Cleaned(client.name, client.view.service, client.snap).(status := t.status)
            && t.status.cleanup == Success
  {
    client.SameStatus();
    client.Stages(0);
    if client.snap.status.cleanup == Success {
      client.CleanedIsGone();
      MergeIdle(client.snap.vs, client.view.service, client.name);
    }
  }
}
