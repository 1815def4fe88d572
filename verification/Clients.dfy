/**
 The API client in the hands of one canary's Reconcile: cached reads, checked writes, failures, and
 everybody else.
 */
module Clients {
  import opened Wrappers
  import opened VirtualServiceValues
  import opened VirtualServiceObjects
  import opened VirtualServices
  import opened Decoding
  import opened Protocol
  import opened Invariant
  import opened Safety
  import opened Standpoint

  datatype Error = IsNotFound | IsConflict | Other

  datatype Got<+T> = Found(value: T) | Failed(error: Error)

  function ErrorOf<T>(r: Got<T>): Option<Error> {
    if r.Failed? then Some(r.error) else None
  }

  /** A call to the API server: what was asked, and the error it was answered with, if any. */
  datatype Call = Call(what: What, error: Option<Error>)

  datatype What = Reading | Writing | WritingStatus(status: Status)

  /**
   Wild: others act between any two calls, reads lag behind, any call may fail, and a failed write may
   have been applied. Alone: nobody else acts. Calm: besides, reads are current and nothing fails.
   */
  datatype Mode = Wild | Alone | Calm

  /** The Canary object that a Reconcile works on. */
  class CanaryObject {
    var status: Status
    var version: nat

    constructor (status: Status, version: nat)
      ensures this.status == status && this.version == version
    {
      this.status, this.version := status, version;
    }
  }

  class Client {
    const name: string
    var w: World
    var mode: Mode
    ghost var worlds: seq<World>
    ghost var log: seq<Step>
    ghost var view: View     // what the Reconcile may rely on
    ghost var snap: Snapshot // what is stored
    ghost var last: Call     // the last call

    /** A client at the start of a run, for one of the cluster's canaries. */
    constructor (name: string, w: World, mode: Mode)
      requires Initial(w) && name in w.cells
      ensures Valid() && this.name == name && this.w == w && this.mode == mode && log == []
    {
      ReachedStart(w, name);
      this.name, this.w, this.mode := name, w, mode;
      worlds, log, last := [w], [], Call(Reading, None);
      view, snap := ViewOf(name, w.cells[name], w.vs), SnapshotOf(w.cells[name], w.vs);
    }

    /** The cluster is in a state that a run from its start has reached. */
    ghost predicate Valid()
      reads this
    {
      Reached(worlds, log, w, name, view, snap)
    }

    lemma Open()
      requires Valid()
      ensures Shows(w, name, view, snap)
    {
      ReachedLast(worlds, log, w, name, view, snap);
    }

    function Mine(): Cell
      requires name in w.cells
      reads this
    {
      w.cells[name]
    }

    ghost function Wrote(): nat
      reads this
    {
      Written(log, name)
    }

    /** Whatever the others do until the next call. */
    method Interfere()
      requires Valid()
      modifies this`w, this`worlds, this`log, this`view, this`snap
      ensures Valid() && Shows(w, name, view, snap)
      ensures Later(old(view), view) && Wrote() == old(Wrote())
      ensures mode != Wild ==> w == old(w) && snap == old(snap)
      ensures old(w).vs.hist <= w.vs.hist
    {
      Open();
      if mode == Wild {
        assert Trace([w], []) && Others([], name);
        var more: seq<World>, steps: seq<Step> :|
          |more| == |steps| + 1 && more[0] == w && Trace(more, steps) && Others(steps, name);
        ReachedOthers(w, name, view, snap, more, steps, more[|steps|]);
        OthersWrite(name, log, steps);
        Move(more, steps);
      }
    }

    method Move(more: seq<World>, ghost steps: seq<Step>)
      requires Valid() && Trace(more, steps) && more[0] == w
      requires var end := more[|steps|]; name in end.cells && end.cells[name].Valid() && end.vs.Valid()
      modifies this`w, this`worlds, this`log, this`view, this`snap
      ensures Valid() && w == more[|steps|] && log == old(log) + steps && Shows(w, name, view, snap)
    {
      ghost var end := more[|steps|];
      ghost var view', snap' := ViewOf(name, end.cells[name], end.vs), SnapshotOf(end.cells[name], end.vs);
      ReachedMore(worlds, log, w, name, view, snap, more, steps, end, view', snap');
      worlds, log, view, snap := worlds[..|log|] + more, log + steps, view', snap';
      w := more[|more| - 1];
    }

    /** A step of the Reconcile. */
    method Take(step: Step)
      requires Valid() && Enabled(w, step) && Own(step, name)
      modifies this`w, this`worlds, this`log, this`view, this`snap
      ensures Valid() && Took(name, old(w), step, w) && Shows(w, name, view, snap)
      ensures Wrote() == old(Wrote()) + (if Writes(step) then 1 else 0)
    {
      Open();
      OwnStep(name, w, step);
      assert Moves([w, Next(w, step)], [step], 0);
      WrittenExtend(name, log, step);
      Move([w, Next(w, step)], [step]);
    }

    // ----- reads

    method TakeRead(kind: Kind, to: nat)
      requires Valid() && Shows(w, name, view, snap) && CanRead(Mine(), kind, to)
      modifies this`w, this`worlds, this`log, this`view, this`snap
      ensures Valid() && Shows(w, name, view, snap)
      ensures AfterRead(old(view), view, Mine(), kind) && Wrote() == old(Wrote())
      ensures snap == old(snap)
      ensures SeenVersion(Mine(), kind) == to && LastVersion(Mine(), kind) == old(LastVersion(Mine(), kind))
    {
      Take(Read(name, kind, to));
      ReadView(old(view), view, old(Mine()), kind, to);
      ReadVersions(old(Mine()), w.vs, kind, to);
    }

    /** A read of one of the canary's objects, at a version not before the cached one. */
    method Look(kind: Kind)
      requires Valid()
      modifies this`w, this`worlds, this`log, this`view, this`snap
      ensures Valid() && Shows(w, name, view, snap)
      ensures AfterRead(old(view), view, Mine(), kind) && Wrote() == old(Wrote())
      ensures mode != Wild ==> snap == old(snap)
      ensures mode == Calm ==> SeenVersion(Mine(), kind) == LastVersion(Mine(), kind)
    {
      Interfere();
      ReadableLast(Mine(), kind);
      var to: nat :| CanRead(Mine(), kind, to) && (mode == Calm ==> to == LastVersion(Mine(), kind));
      TakeRead(kind, to);
    }

    lemma MyCell()
      requires Valid()
      ensures Shows(w, name, view, snap) && CellInv(name, Mine(), w.vs)
    {
      MyInv();
    }

    lemma MyInv()
      requires Valid()
      ensures Shows(w, name, view, snap) && CellInv(name, Mine(), w.vs) && Inv(w)
    {
      ReachedInv(worlds, log, w, name, view, snap);
      Open();
    }

    lemma PodAnswer(a: View, judge: bool)
      requires Valid() && Shows(w, name, view, snap) && AfterRead(a, view, Mine(), if judge then JudgePod else TestPod)
      ensures var o := Mine().Pod(judge); o.Valid() && PodRead(a, view, judge, Answer(o.hist[o.seen]))
    {
      MyCell();
      PodReadHolds(name, a, Mine(), w.vs, judge);
    }

    lemma DepAnswer(a: View, baseline: bool)
      requires Valid() && Shows(w, name, view, snap)
               && AfterRead(a, view, Mine(), if baseline then BaselineDep else CanaryDep)
      ensures var o := Mine().Dep(baseline); o.Valid() && DepRead(a, view, baseline, Answer(o.hist[o.seen]))
    {
      MyCell();
      DepReadHolds(name, a, Mine(), w.vs, baseline);
    }

    method GetPod(judge: bool) returns (r: Got<Pod>)
      requires Valid()
      modifies this`w, this`worlds, this`log, this`view, this`snap, this`last
      ensures Valid() && Wrote() == old(Wrote()) && (mode != Wild ==> snap == old(snap))
      ensures PodRead(old(view), view, judge, r)
      ensures mode == Calm ==> r == Answer(snap.Pod(judge))
      ensures last == Call(Reading, ErrorOf(r))
    {
      var fails: bool := *;
      if fails && mode != Calm {
        Interfere();
        last := Call(Reading, Some(Other));
        return Failed(Other);
      }
      Look(if judge then JudgePod else TestPod);
      PodAnswer(old(view), judge);
      r := Answer(Mine().Pod(judge).hist[Mine().Pod(judge).seen]);
      last := Call(Reading, ErrorOf(r));
    }

    /** The number of available replicas. */
    method GetDeployment(baseline: bool) returns (r: Got<int>)
      requires Valid()
      modifies this`w, this`worlds, this`log, this`view, this`snap, this`last
      ensures Valid() && Wrote() == old(Wrote()) && (mode != Wild ==> snap == old(snap))
      ensures DepRead(old(view), view, baseline, r)
      ensures mode == Calm ==> r == Answer(snap.Dep(baseline))
      ensures last == Call(Reading, ErrorOf(r))
    {
      var fails: bool := *;
      if fails && mode != Calm {
        Interfere();
        last := Call(Reading, Some(Other));
        return Failed(Other);
      }
      Look(if baseline then BaselineDep else CanaryDep);
      DepAnswer(old(view), baseline);
      r := Answer(Mine().Dep(baseline).hist[Mine().Dep(baseline).seen]);
      last := Call(Reading, ErrorOf(r));
    }

    /** The canary's policy, which never changes: the service. */
    method GetPolicy() returns (r: Got<string>)
      requires Valid()
      modifies this`w, this`worlds, this`log, this`view, this`snap, this`last
      ensures Valid() && Wrote() == old(Wrote()) && (mode != Wild ==> snap == old(snap))
      ensures Later(old(view), view)
      ensures r.Found? ==> r.value == view.service
      ensures mode == Calm ==> r.Found?
      ensures last == Call(Reading, ErrorOf(r))
    {
      Interfere();
      var fails: bool := *;
      r := if fails && mode != Calm then Failed(Other) else Found(Mine().service);
      last := Call(Reading, ErrorOf(r));
    }

    /** The Canary object, from the cache. */
    method GetCanary() returns (r: Got<CanaryObject>)
      requires Valid()
      modifies this`w, this`worlds, this`log, this`view, this`snap, this`last
      ensures Valid() && Wrote() == old(Wrote()) && (mode != Wild ==> snap == old(snap))
      ensures Later(old(view), view)
      ensures r.Found? ==>
                fresh(r.value) && r.value.version < |view.statuses|
                && r.value.status == view.statuses[r.value.version]
      ensures r.Failed? ==> r.error != IsConflict
      ensures mode == Calm ==> r.Found? && r.value.version == |view.statuses| - 1
      ensures last == Call(Reading, ErrorOf(r))
    {
      var fails: bool := *;
      if fails && mode != Calm {
        Interfere();
        last := Call(Reading, Some(Other));
        return Failed(Other);
      }
      Look(Config);
      var seen := Mine().cfg.seen;
      var canary := new CanaryObject(Mine().cfg.hist[seen], seen);
      r := Found(canary);
      last := Call(Reading, ErrorOf(r));
    }

    /** A Reconcile starts. */
    method Begin()
      requires Valid()
      modifies this`w, this`worlds, this`log, this`view, this`snap
      ensures Valid() && Wrote() == old(Wrote()) && snap == old(snap)
      ensures Implies(old(view).facts, view.facts)
      ensures view == old(view).(facts := view.facts, round := old(view).round + 1)
      ensures view.passed.Some? ==> view.passed.value < view.round
    {
      PassedEarlier();
      Open();
      Take(Step.Begin(name));
    }

    lemma PassedEarlier()
      requires Valid()
      ensures view.passed.Some? ==> view.passed.value <= view.round
    {
      MyCell();
    }

    /** What every stored status, outdated or not, says about the stored one. */
    lemma Stages(k: nat)
      requires Valid() && k < |view.statuses|
      ensures Rank(view.statuses[k].progress) <= Rank(view.Progress())
      ensures StatusInv(view.Stored())
      ensures Rank(view.Progress()) >= 3 ==> view.passed.Some?
    {
      MyCell();
      StageFacts(Mine(), k);
    }

    lemma SameStatus()
      requires Valid()
      ensures view.statuses != [] && snap.status == view.Stored()
    {
      Open();
    }

    /** A cleanup that is stored as successful has left nothing. */
    lemma CleanedIsGone()
      requires Valid() && snap.status.cleanup == Success
      ensures snap.testPod.None? && snap.judgePod.None? && snap.canaryDep.None?
              && !HasRoute(snap.vs, view.service, name)
    {
      MyCell();
      ObjectsAreGone(Mine());
      RouteIsGone(name, Mine(), w.vs);
    }

    lemma NameIsNoService()
      requires Valid()
      ensures name != view.service
    {
      MyInv();
      NamesDiffer(w, name);
    }

    /** The kubelet reports on one of the two pods. */
    method PodReports(judge: bool, pod: Pod)
      requires Valid() && snap.Pod(judge).Some?
      modifies this`w, this`worlds, this`log, this`view, this`snap
      ensures Valid() && Later(old(view), view) && snap == old(snap).WithPod(judge, Some(pod))
    {
      Open();
      var step := PodChange(name, judge, pod);
      PodReported(name, w, judge, pod);
      assert Moves([w, Next(w, step)], [step], 0);
      Move([w, Next(w, step)], [step]);
    }

    // ----- writes

    /** A write that may be refused, or applied and yet reported as failed. */
    method Attempt(step: Step) returns (e: Option<Error>, ghost applied: bool)
      requires Valid() && Shows(w, name, view, snap) && Enabled(w, step) && Own(step, name) && Writes(step)
      modifies this`w, this`worlds, this`log, this`view, this`snap
      ensures Valid() && Shows(w, name, view, snap) && (e.None? ==> applied) && (mode == Calm ==> e.None?)
      ensures if applied then Took(name, old(w), step, w) else w == old(w) && view == old(view) && snap == old(snap)
      ensures Wrote() == old(Wrote()) + (if applied then 1 else 0)
    {
      var refused: bool, lost: bool := *, *;
      if refused && mode != Calm {
        return Some(Other), false;
      }
      Take(step);
      e, applied := if lost && mode != Calm then Some(Other) else None, true;
    }

    method AttemptCreate(judge: bool) returns (e: Option<Error>, ghost applied: bool)
      requires Valid() && Shows(w, name, view, snap) && Enabled(w, Step.CreatePod(name, judge))
      modifies this`w, this`worlds, this`log, this`view, this`snap
      ensures Valid() && (e.None? ==> applied) && (mode == Calm ==> e.None?)
      ensures Later(old(view), view)
      ensures snap == if applied then old(snap).WithPod(judge, Some([])) else old(snap)
    {
      e, applied := Attempt(Step.CreatePod(name, judge));
    }

    method AttemptDelete(judge: bool) returns (e: Option<Error>, ghost applied: bool)
      requires Valid() && Shows(w, name, view, snap) && Enabled(w, Step.DeletePod(name, judge))
      modifies this`w, this`worlds, this`log, this`view, this`snap
      ensures Valid() && (e.None? ==> applied) && (mode == Calm ==> e.None?)
      ensures Later(old(view), view) && (applied ==> if judge then view.facts.judgeGone else view.facts.testGone)
      ensures snap == if applied then old(snap).WithPod(judge, None) else old(snap)
    {
      PodGoes(judge);
      e, applied := Attempt(Step.DeletePod(name, judge));
    }

    lemma PodGoes(judge: bool)
      requires Valid() && Shows(w, name, view, snap) && view.Progress() == Cleanup
      ensures var f := FactsOf(name, Mine().WithPod(judge, Mine().Pod(judge).Put(None)), w.vs);
              if judge then f.judgeGone else f.testGone
    {
      MyCell();
      PodDeleted(name, Mine(), w.vs, judge);
    }

    method CreatePod(judge: bool) returns (e: Option<Error>)
      requires Valid() && (view.Progress() == Testing || (judge && view.Progress() == Canary))
      modifies this`w, this`worlds, this`log, this`view, this`snap, this`last
      ensures Valid() && Later(old(view), view)
      ensures mode == Calm && old(snap).Pod(judge).None? ==> e.None? && snap == old(snap).WithPod(judge, Some([]))
      ensures last == Call(Writing, e)
    {
      Interfere();
      if Mine().Pod(judge).Latest().Some? {
        last := Call(Writing, Some(Other));
        return Some(Other);
      }
      ghost var applied;
      e, applied := AttemptCreate(judge);
      last := Call(Writing, e);
    }

    method DeletePod(judge: bool) returns (e: Option<Error>)
      requires Valid() && view.Progress() == Cleanup
      modifies this`w, this`worlds, this`log, this`view, this`snap, this`last
      ensures Valid() && Later(old(view), view)
      ensures e.None? ==> if judge then view.facts.judgeGone else view.facts.testGone
      ensures mode != Wild ==> snap == old(snap) || snap == old(snap).WithPod(judge, None)
      ensures mode == Calm && old(snap).Pod(judge).Some? ==> e.None? && snap == old(snap).WithPod(judge, None)
      ensures last == Call(Writing, e)
    {
      Interfere();
      if Mine().Pod(judge).Latest().None? {
        last := Call(Writing, Some(IsNotFound));
        return Some(IsNotFound);
      }
      ghost var applied;
      e, applied := AttemptDelete(judge);
      last := Call(Writing, e);
    }

    method AttemptDeployment() returns (e: Option<Error>, ghost applied: bool)
      requires Valid() && Shows(w, name, view, snap) && Enabled(w, DeleteCanaryDep(name))
      modifies this`w, this`worlds, this`log, this`view, this`snap
      ensures Valid() && (e.None? ==> applied) && (mode == Calm ==> e.None?)
      ensures Later(old(view), view) && (applied ==> view.facts.canaryGone)
      ensures snap == if applied then old(snap).(canaryDep := None) else old(snap)
    {
      CanaryGoes();
      e, applied := Attempt(DeleteCanaryDep(name));
    }

    lemma CanaryGoes()
      requires Valid() && Shows(w, name, view, snap) && view.Progress() == Cleanup
      ensures var cell := Mine().(canaryDep := Mine().canaryDep.Put(None));
              && FactsOf(name, cell, w.vs).canaryGone
              && SnapshotOf(cell, w.vs) == snap.(canaryDep := None)
    {
      MyCell();
      CanaryDeleted(name, Mine(), w.vs);
    }

    method DeleteDeployment() returns (e: Option<Error>)
      requires Valid() && view.Progress() == Cleanup
      modifies this`w, this`worlds, this`log, this`view, this`snap, this`last
      ensures Valid() && Later(old(view), view)
      ensures e.None? ==> view.facts.canaryGone
      ensures mode != Wild ==> snap == old(snap) || snap == old(snap).(canaryDep := None)
      ensures mode == Calm && old(snap).canaryDep.Some? ==> e.None? && snap == old(snap).(canaryDep := None)
      ensures last == Call(Writing, e)
    {
      Interfere();
      if Mine().canaryDep.Latest().None? {
        last := Call(Writing, Some(IsNotFound));
        return Some(IsNotFound);
      }
      ghost var applied;
      e, applied := AttemptDeployment();
      last := Call(Writing, e);
    }

    method AttemptStatus(version: nat, t: Status) returns (e: Option<Error>, ghost applied: bool)
      requires Valid() && Shows(w, name, view, snap) && version == |view.statuses| - 1
      requires MayPut(view.facts, view.SawBoth(), view.Stored(), t)
      modifies this`w, this`worlds, this`log, this`view, this`snap
      ensures Valid() && (e.None? ==> applied) && (mode == Calm ==> e.None?)
      ensures Implies(old(view).facts, view.facts)
      ensures view == old(view).(facts := view.facts, statuses := old(view).statuses + if applied then [t] else [])
      ensures snap == old(snap).(status := view.Stored())
    {
      e, applied := Attempt(PutStatus(name, version, t));
    }

    /** A status write: it succeeds only if it presents the stored version. */
    method UpdateStatus(canary: CanaryObject) returns (e: Option<Error>)
      requires Valid() && canary.version < |view.statuses|
      requires canary.version == |view.statuses| - 1 ==>
                 MayPut(view.facts, view.SawBoth(), view.Stored(), canary.status)
      modifies this`w, this`worlds, this`log, this`view, this`snap, this`last, canary`version
      ensures Valid()
      ensures Put(old(view), view, old(canary.version), canary.version, canary.status, e)
      ensures old(canary.version) < |old(view).statuses| - 1 ==> Wrote() == old(Wrote())
      ensures mode != Wild ==> snap == old(snap).(status := view.Stored())
      ensures mode == Calm && old(canary.version) == |old(view).statuses| - 1 ==> e.None?
      ensures last == Call(WritingStatus(canary.status), e)
    {
      Interfere();
      if canary.version != Mine().cfg.Version() {
        last := Call(WritingStatus(canary.status), Some(IsConflict));
        return Some(IsConflict);
      }
      ghost var applied;
      e, applied := AttemptStatus(canary.version, canary.status);
      if e.None? {
        canary.version := canary.version + 1;
      }
      last := Call(WritingStatus(canary.status), e);
    }

    // ----- the VirtualService

    /** The caller gets a deep copy of the cached object. */
    method GetVirtualService() returns (r: Got<VirtualServiceSpec>, version: nat)
      requires Valid()
      modifies this`w, this`worlds, this`log, this`view, this`snap, this`last
      ensures Valid() && Wrote() == old(Wrote()) && (mode != Wild ==> snap == old(snap))
      ensures Later(old(view), view)
      ensures r.Found? ==>
                && r.value.Valid() && r.value.Unshared() && fresh(r.value.Repr)
                && Readable(r.value.Value(), view.service)
                && version < |w.vs.hist| && w.vs.hist[version] == r.value.Value()
                && RouteRead(view, name, r.value.Value())
      ensures mode == Calm ==> r.Found? && version == |w.vs.hist| - 1 && r.value.Value() == snap.vs
      ensures last == Call(Reading, ErrorOf(r))
    {
      r, version := FetchVirtualService();
      last := Call(Reading, ErrorOf(r));
    }

    method FetchVirtualService() returns (r: Got<VirtualServiceSpec>, version: nat)
      requires Valid()
      modifies this`w, this`worlds, this`log, this`view, this`snap
      ensures Valid() && Wrote() == old(Wrote()) && (mode != Wild ==> snap == old(snap))
      ensures Later(old(view), view)
      ensures r.Found? ==>
                && r.value.Valid() && r.value.Unshared() && fresh(r.value.Repr)
                && Readable(r.value.Value(), view.service)
                && version < |w.vs.hist| && w.vs.hist[version] == r.value.Value()
                && RouteRead(view, name, r.value.Value())
      ensures mode == Calm ==> r.Found? && version == |w.vs.hist| - 1 && r.value.Value() == snap.vs
    {
      var fails: bool := *;
      if fails && mode != Calm {
        Interfere();
        return Failed(Other), 0;
      }
      version := LookVs();
      var cached := Decode(w.vs.hist[version]);
      var vs := cached.DeepCopy();
      r := Found(vs);
    }

    method LookVs() returns (version: nat)
      requires Valid()
      modifies this`w, this`worlds, this`log, this`view, this`snap
      ensures Valid() && Wrote() == old(Wrote()) && (mode != Wild ==> snap == old(snap))
      ensures Later(old(view), view)
      ensures version < |w.vs.hist| && RouteRead(view, name, w.vs.hist[version])
              && Readable(w.vs.hist[version], view.service)
      ensures mode == Calm ==> version == |w.vs.hist| - 1 && w.vs.hist[version] == snap.vs
    {
      Interfere();
      version :| w.vs.seen <= version < |w.vs.hist| && (mode == Calm ==> version == |w.vs.hist| - 1);
      TakeReadVs(version);
      RouteAnswer();
      NothingNil(version);
    }

    method TakeReadVs(version: nat)
      requires Valid() && Shows(w, name, view, snap) && w.vs.seen <= version < |w.vs.hist|
      modifies this`w, this`worlds, this`log, this`view, this`snap
      ensures Valid() && Wrote() == old(Wrote()) && snap == old(snap)
      ensures Shows(w, name, view, snap) && Later(old(view), view) && w.vs == old(w).vs.(seen := version)
    {
      Take(ReadVs(name, version));
    }

    lemma RouteAnswer()
      requires Valid() && Shows(w, name, view, snap)
      ensures RouteRead(view, name, w.vs.hist[w.vs.seen])
    {
      MyCell();
      RouteFacts(name, Mine(), w.vs);
    }

    lemma NothingNil(version: nat)
      requires Valid() && Shows(w, name, view, snap) && version < |w.vs.hist|
      ensures Readable(w.vs.hist[version], view.service)
    {
      MyInv();
      VersionsFit(w, version, name);
    }

    /** An attempt to store the VirtualService with one more edit. */
    method AttemptEdit(edit: Op) returns (e: Option<Error>, ghost applied: bool)
      requires Valid() && Shows(w, name, view, snap) && OpFits(w.vs.Latest(), edit) && EditAllowed(view, name, edit)
      modifies this`w, this`worlds, this`log, this`view, this`snap
      ensures Valid() && Shows(w, name, view, snap) && (e.None? ==> applied) && (mode == Calm ==> e.None?)
      ensures Later(old(view), view) && (applied && edit.MergeOp? ==> view.facts.routeGone)
      ensures w.vs.hist == old(w).vs.hist + if applied then [ApplyOp(old(snap).vs, edit)] else []
      ensures snap == old(snap).(vs := w.vs.Latest())
    {
      RouteGoes(edit);
      e, applied := Attempt(if edit.SplitOp? then SplitVs(name, w.vs.Version()) else MergeVs(name, w.vs.Version()));
    }

    lemma RouteGoes(edit: Op)
      requires Valid() && Shows(w, name, view, snap) && OpFits(w.vs.Latest(), edit) && EditAllowed(view, name, edit)
      ensures edit.MergeOp? ==> FactsOf(name, Mine(), w.vs.Put(ApplyOp(w.vs.Latest(), edit))).routeGone
    {
      MyInv();
      if edit.MergeOp? {
        MergeGone(w, name);
      }
    }

    lemma MergedOnce()
      requires Valid() && HasRoute(snap.vs, view.service, name)
      ensures !HasRoute(Merge(snap.vs, view.service, name), view.service, name)
    {
      MyInv();
      MergeGone(w, name);
    }

    method IsCurrent(version: nat) returns (current: bool)
      requires Valid() && version < |w.vs.hist|
      modifies this`w, this`worlds, this`log, this`view, this`snap
      ensures Valid() && Shows(w, name, view, snap) && Later(old(view), view)
              && (mode != Wild ==> w == old(w) && snap == old(snap))
      ensures current ==> w.vs.Latest() == old(w).vs.hist[version] && w.vs.Version() == version
      ensures mode == Calm ==> current == (version == |old(w).vs.hist| - 1)
    {
      Interfere();
      current := version == w.vs.Version();
    }

    /** The check of the version, and the write. */
    method StoreEdit(version: nat, edit: Op, ghost v: SpecValue) returns (e: Option<Error>)
      requires Valid() && version < |w.vs.hist|
      requires OpFits(w.vs.hist[version], edit) && v == ApplyOp(w.vs.hist[version], edit)
      requires EditAllowed(view, name, edit)
      modifies this`w, this`worlds, this`log, this`view, this`snap
      ensures Valid() && Later(old(view), view)
      ensures e.None? ==> snap.vs == v && (edit.MergeOp? ==> view.facts.routeGone)
      ensures mode != Wild ==> Edited(old(snap), snap, edit)
      ensures mode == Calm && version == |old(w).vs.hist| - 1 ==> e.None? && snap == old(snap).(vs := v)
    {
      var current := IsCurrent(version);
      if !current {
        return Some(IsConflict);
      }
      ghost var applied;
      e, applied := AttemptEdit(edit);
    }

    /**
     The write of an edited VirtualService. `edit` names the edit by which `vs` comes from version
     `version`; the run keeps it as history.
     */
    method UpdateVirtualService(vs: VirtualServiceSpec, version: nat, edit: Op) returns (e: Option<Error>)
      requires Valid() && vs.Valid() && version < |w.vs.hist|
      requires OpFits(w.vs.hist[version], edit) && vs.Value() == ApplyOp(w.vs.hist[version], edit)
      requires EditAllowed(view, name, edit)
      modifies this`w, this`worlds, this`log, this`view, this`snap, this`last
      ensures Valid() && Later(old(view), view)
      ensures e.None? ==> snap.vs == old(vs.Value()) && (edit.MergeOp? ==> view.facts.routeGone)
      ensures mode != Wild ==> Edited(old(snap), snap, edit)
      ensures mode == Calm && version == |old(w).vs.hist| - 1 ==> e.None? && snap == old(snap).(vs := old(vs.Value()))
      ensures last == Call(Writing, e)
    {
      e := StoreEdit(version, edit, vs.Value());
      last := Call(Writing, e);
    }
  }

  function Answer<T>(o: Option<T>): Got<T> {
    match o
    case Some(x) => Found(x)
    case None => Failed(IsNotFound)
  }

  /** The view before and after a read of a pod. */
  predicate PodRead(a: View, b: View, judge: bool, r: Got<Pod>) {
    && b == a.(facts := b.facts, passed := b.passed) && Implies(a.facts, b.facts)
    && (a.passed.Some? ==> b.passed == a.passed)
    && (r.Found? && judge ==> b.facts.judgeWas)
    && (r.Found? ==> EndsOf(Some(r.value), judge) <= b.facts.ended)
    && (r.Found? && !judge && ExitCode(r.value, TESTJOB) == Some(0) ==> b.facts.tested)
    && (r == Failed(IsNotFound) && a.Progress() == Cleanup ==> if judge then b.facts.judgeGone else b.facts.testGone)
  }

  /** The view before and after a read of a deployment. */
  predicate DepRead(a: View, b: View, baseline: bool, r: Got<int>) {
    && b == a.(facts := b.facts, sawCanary := b.sawCanary, sawBaseline := b.sawBaseline) && Implies(a.facts, b.facts)
    && (baseline ==> b.sawCanary == a.sawCanary)
    && (r.Found? && r.value > 0 ==> (if baseline then b.sawBaseline else b.sawCanary) == Some(a.round))
    && (r.Found? && !baseline ==> b.facts.canaryWas)
    && (r == Failed(IsNotFound) && !baseline && a.Progress() == Cleanup ==> b.facts.canaryGone)
  }

  lemma PodReadHolds(c: string, a: View, cell: Cell, vs: Obj<SpecValue>, judge: bool)
    requires CellInv(c, cell, vs) && AfterRead(a, ViewOf(c, cell, vs), cell, if judge then JudgePod else TestPod)
    ensures PodRead(a, ViewOf(c, cell, vs), judge, Answer(cell.Pod(judge).hist[cell.Pod(judge).seen]))
  {
    PodFacts(c, cell, vs, judge);
  }

  lemma DepReadHolds(c: string, a: View, cell: Cell, vs: Obj<SpecValue>, baseline: bool)
    requires CellInv(c, cell, vs)
             && AfterRead(a, ViewOf(c, cell, vs), cell, if baseline then BaselineDep else CanaryDep)
    ensures DepRead(a, ViewOf(c, cell, vs), baseline, Answer(cell.Dep(baseline).hist[cell.Dep(baseline).seen]))
  {
    DepFacts(c, cell, vs);
  }

  /** The view before and after a status write. */
  predicate Put(a: View, b: View, version: nat, version': nat, t: Status, e: Option<Error>) {
    && b == a.(statuses := b.statuses, facts := b.facts) && Implies(a.facts, b.facts)
    && (b.statuses == a.statuses || (b.statuses == a.statuses + [t] && version == |a.statuses| - 1))
    && (e.None? ==> b.statuses == a.statuses + [t] && version' == |a.statuses|)
    && (e.Some? ==> version' == version)
  }

  /** What a version of the VirtualService just read says about the canary's route. */
  predicate RouteRead(b: View, c: string, v: SpecValue) {
    && (HasRoute(v, b.service, c) ==> b.facts.routeWas)
    && (!HasRoute(v, b.service, c) && b.Progress() == Cleanup ==> b.facts.routeGone)
  }

  /** The edits that the canary's Reconcile may make. */
  predicate EditAllowed(v: View, c: string, edit: Op) {
    && edit.canary == c && edit.svc == v.service
    && if edit.MergeOp? then v.Progress() == Cleanup
       else v.Progress() == Canary && v.SawBoth() && v.passed.Some? && v.passed.value < v.round
  }

  /** Nothing stored has changed, or the edit has been made, once. */
  predicate Edited(a: Snapshot, b: Snapshot, edit: Op) {
    b == a || (OpFits(a.vs, edit) && b == a.(vs := ApplyOp(a.vs, edit)))
  }
}
