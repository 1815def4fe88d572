/** What each stage of a Reconcile does to the stored objects when it runs undisturbed to its end. */
module Stages {
  import opened Wrappers
  import opened VirtualServiceValues
  import opened Protocol
  import opened Standpoint

  /** The phase and the message that a job's pod stands for. */
  function Verdict(pod: Pod, name: string): (Phase, Note) {
    match ExitCode(pod, name)
    case None => (Blank, NoNote)
    case Some(code) => if code == 0 then (Success, JobSucceeded) else (Failure, JobFailed)
  }

  predicate Missing(s: Snapshot) {
    s.status.progress != Cleanup && (s.canaryDep.None? || s.baselineDep.None?)
  }

  function InitStage(s: Snapshot): Snapshot {
    if s.status.progress == Cleanup || Missing(s) then s
    else
      s.(status :=
           s.status.(init := if Available(s.canaryDep) && Available(s.baselineDep) then Success else InProgress))
  }

  /** A missing pod is created, and in the same round its containers have no state yet. */
  function PodOrNew(pod: Option<Pod>): Pod {
    pod.GetOr([])
  }

  function TestStage(s: Snapshot): Snapshot {
    if s.status.progress != Testing then s
    else
      var pod := PodOrNew(s.testPod);
      s.(testPod := Some(pod),
        status := s.status.(testing := Verdict(pod, TESTJOB).0, testNote := Verdict(pod, TESTJOB).1))
  }

  function JudgeStage(s: Snapshot): Snapshot {
    if s.status.progress != Testing && s.status.progress != Canary then s
    else
      var pod := PodOrNew(s.judgePod);
      s.(judgePod := Some(pod),
        status := s.status.(judging := Verdict(pod, JUDGE).0, judgeNote := Verdict(pod, JUDGE).1))
  }

  function TrafficStage(c: string, svc: string, s: Snapshot): Snapshot {
    if s.status.progress != Canary then s
    else
      var phase := if s.status.canary == Queued then InProgress else s.status.canary;
      if !Configured(s.vs, svc) then s.(status := s.status.(canary := phase))
      else if HasRoute(s.vs, svc, c) then
        s.(status := s.status.(canary := if phase == InProgress then Success else phase))
      else s.(status := s.status.(canary := phase), vs := Split(s.vs, svc, c))
  }

  function ReportStage(s: Snapshot): Snapshot {
    if s.status.progress != Reporting then s else s.(status := s.status.(reporting := Success))
  }

  /** What a full cleanup leaves of the canary's objects and of the VirtualService. */
  function Cleaned(c: string, svc: string, s: Snapshot): Snapshot {
    s.(testPod := None, judgePod := None, canaryDep := None, vs := Merge(s.vs, svc, c))
  }

  /** A full cleanup would leave the same, whichever of the two it starts from. */
  predicate SameCleanup(c: string, svc: string, a: Snapshot, b: Snapshot) {
    Cleaned(c, svc, a).(status := b.status) == Cleaned(c, svc, b)
  }

  function CleanupStage(c: string, svc: string, s: Snapshot): Snapshot {
    if s.status.progress != Cleanup || s.status.cleanup == Success then s
    else Cleaned(c, svc, s).(status := s.status.(cleanup := Success))
  }

  function PhaseStage(s: Snapshot): Snapshot {
    s.(status := NextPhase(s.status))
  }

  function NextPhase(s: Status): Status {
    match s.progress
    case Unset => s.(progress := Initializing)
    case Initializing => if s.init == Success then s.(progress := Testing, testing := Queued) else s
    case Testing => if s.testing == Success then s.(progress := Canary, canary := Queued) else s
    case Canary => if s.canary == Success && Judged(s) then s.(progress := Reporting, reporting := Queued) else s
    case Reporting => if s.reporting == Success then s.(progress := Cleanup, cleanup := Queued) else s
    case Cleanup => s
  }

  /** A whole Reconcile. */
  function Round(c: string, svc: string, s: Snapshot): Snapshot {
    if Missing(s) then s
    else
      var s1 := InitStage(s);
      if s1.status.init == InProgress then s1
      else AfterInit(c, svc, s1)
  }

  /** What a Reconcile does once both deployments are available. */
  function AfterInit(c: string, svc: string, s: Snapshot): Snapshot {
    PhaseStage(CleanupStage(c, svc, ReportStage(TrafficStage(c, svc, JudgeStage(TestStage(s))))))
  }
}
