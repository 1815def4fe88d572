/**
 What one undisturbed Reconcile does, for each stage it may find: the stored objects after it, in terms of
 those before it and of nothing else. Stages composes the same from the stages of the code.
 */
module Rounds {
  import opened Wrappers
  import opened VirtualServiceValues
  import opened Protocol
  import opened Standpoint
  import opened Stages

  predicate Up(d: Option<int>) {
    d.Some? && d.value > 0
  }

  /** Both deployments have available replicas. */
  predicate BothUp(s: Snapshot) {
    Up(s.canaryDep) && Up(s.baselineDep)
  }

  /** The pod of a job after the round: a new one, whose containers have no state yet, where there was none. */
  predicate Fetched(before: Option<Pod>, after: Option<Pod>) {
    after == if before.None? then Some([]) else before
  }

  /** Phase and message say how the job's own container has ended, whatever other containers have. */
  ghost predicate Tells(pod: Pod, name: string, phase: Phase, note: Note) {
    && (phase == Success <==> EndedWith(pod, name, 0))
    && (phase == Failure <==> exists code :: code != 0 && EndedWith(pod, name, code))
    && (phase == Blank <==> NotEnded(pod, name))
    && (phase == Success || phase == Failure || phase == Blank)
    && note == (if phase == Success then JobSucceeded else if phase == Failure then JobFailed else NoNote)
  }

  lemma VerdictTells(pod: Pod, name: string)
    ensures Tells(pod, name, Verdict(pod, name).0, Verdict(pod, name).1)
  {
    ExitCodeMeans(pod, name);
    var code := ExitCode(pod, name);
    if code.Some? {
      assert EndedWith(pod, name, code.value);
    }
  }

  /** An istio-proxy that has ended well does not make a failed test pass. */
  lemma ProxyIsSkipped()
    ensures var pod := [Container("istio-proxy", Terminated(0)), Container("testjob", Terminated(1))];
            && !Passed(Some(pod)) && Verdict(pod, "testjob") == (Failure, JobFailed)
            && Verdict([Container("judge", Terminated(1))], "judge") == (Failure, JobFailed)
  {
    var pod := [Container("istio-proxy", Terminated(0)), Container("testjob", Terminated(1))];
    assert pod[1..] == [Container("testjob", Terminated(1))];
    assert |"istio-proxy"| != |"testjob"|;
  }

  /** A Reconcile waits for the two deployments: it changes nothing while one is missing, and says so else. */
  lemma WaitingRound(c: string, svc: string, s: Snapshot)
    requires s.status.progress != Cleanup && !BothUp(s)
    ensures s.canaryDep.None? || s.baselineDep.None? ==> Round(c, svc, s) == s
    ensures s.canaryDep.Some? && s.baselineDep.Some? ==>
              Round(c, svc, s) == s.(status := s.status.(init := InProgress))
  {
  }

  lemma UnsetRound(c: string, svc: string, s: Snapshot)
    requires s.status.progress == Unset && BothUp(s)
    ensures Round(c, svc, s) == s.(status := s.status.(init := Success, progress := Initializing))
  {
  }

  lemma InitializingRound(c: string, svc: string, s: Snapshot)
    requires s.status.progress == Initializing && BothUp(s)
    ensures Round(c, svc, s) == s.(status := s.status.(init := Success, progress := Testing, testing := Queued))
  {
  }

  /** Testing: both pods are there afterwards, both verdicts told, and the stage is left exactly on exit code 0. */
  lemma TestingRound(c: string, svc: string, s: Snapshot)
    requires s.status.progress == Testing && BothUp(s)
    ensures var t, was := Round(c, svc, s), s.status;
            && Fetched(s.testPod, t.testPod) && Fetched(s.judgePod, t.judgePod)
            && t == s.(testPod := t.testPod, judgePod := t.judgePod, status := t.status)
            && Tells(t.testPod.value, "testjob", t.status.testing, t.status.testNote)
            && Tells(t.judgePod.value, "judge", t.status.judging, t.status.judgeNote)
            && var passed := EndedWith(t.testPod.value, "testjob", 0);
               t.status == was.(init := Success, testing := t.status.testing, testNote := t.status.testNote,
                 judging := t.status.judging, judgeNote := t.status.judgeNote,
                 progress := if passed then Canary else Testing, canary := if passed then Queued else was.canary)
  {
    VerdictTells(PodOrNew(s.testPod), "testjob");
    VerdictTells(PodOrNew(s.judgePod), "judge");
  }

  /** The phase of the traffic after a round that finds the canary's route, or does not. */
  function Rerouted(before: Phase, routed: bool): Phase {
    if routed && (before == Queued || before == InProgress) then Success
    else if before == Queued then InProgress
    else before
  }

  /**
   Canary: the judge's pod is there afterwards and its verdict told, a missing route is added where there is
   a service to share with, a route that was there is confirmed, and the stage is left with a confirmed route
   and any verdict.
   */
  lemma CanaryRound(c: string, svc: string, s: Snapshot)
    requires s.status.progress == Canary && BothUp(s)
    ensures var t, was := Round(c, svc, s), s.status;
            && Fetched(s.judgePod, t.judgePod)
            && t == s.(judgePod := t.judgePod, status := t.status, vs := t.vs)
            && t.vs == (if Configured(s.vs, svc) && !HasRoute(s.vs, svc, c) then Split(s.vs, svc, c) else s.vs)
            && Tells(t.judgePod.value, "judge", t.status.judging, t.status.judgeNote)
            && var phase := Rerouted(was.canary, Configured(s.vs, svc) && HasRoute(s.vs, svc, c));
               var leaves := phase == Success && !NotEnded(t.judgePod.value, "judge");
               t.status == was.(init := Success, canary := phase,
                 judging := t.status.judging, judgeNote := t.status.judgeNote,
                 progress := if leaves then Reporting else Canary,
                 reporting := if leaves then Queued else was.reporting)
  {
    VerdictTells(PodOrNew(s.judgePod), "judge");
  }

  lemma ReportingRound(c: string, svc: string, s: Snapshot)
    requires s.status.progress == Reporting && BothUp(s)
    ensures Round(c, svc, s) ==
            s.(status := s.status.(init := Success, reporting := Success, progress := Cleanup, cleanup := Queued))
  {
  }

  /** Cleanup: the pods and the canary's deployment go, not the baseline's, and the weight is given back, once. */
  lemma CleanupRound(c: string, svc: string, s: Snapshot)
    requires s.status.progress == Cleanup && s.status.init != InProgress
    ensures Round(c, svc, s) ==
            if s.status.cleanup == Success then s
            else Snapshot(s.status.(cleanup := Success), None, None, None, s.baselineDep, Merge(s.vs, svc, c))
  {
  }
}
