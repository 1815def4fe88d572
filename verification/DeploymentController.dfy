/**
 The deployment controller's Reconcile. Objects are mutable, with label maps that are shared or not as in
 the source.
 */
module DeploymentController {
  import opened Wrappers
  import opened DeploymentValues
  import opened DeploymentSteps

  class LabelMap {
    var entries: Labels

    constructor (entries: Labels)
      ensures this.entries == entries
    {
      this.entries := entries;
    }

    method Set(key: string, value: string)
      modifies this
      ensures entries == old(entries)[key := value]
    {
      entries := entries[key := value];
    }
  }

  /**
   A deployment's Spec: two label maps, match expressions that are never edited, and a slice of containers
   that may be shared with another Spec.
   */
  class SpecObject {
    var replicas: Option<int>
    var selector: LabelMap
    var expressions: seq<Requirement>
    var labels: LabelMap
    var containers: array<string>

    constructor (replicas: Option<int>, selector: LabelMap, expressions: seq<Requirement>, labels: LabelMap,
                 containers: array<string>)
      ensures this.replicas == replicas && this.selector == selector && this.expressions == expressions
              && this.labels == labels && this.containers == containers
    {
      this.replicas, this.selector, this.expressions := replicas, selector, expressions;
      this.labels, this.containers := labels, containers;
    }

    function Value(): Spec
      reads this, selector, labels, containers
    {
      Spec(replicas, Selector(selector.entries, expressions), labels.entries, containers[..])
    }

    method DeepCopy() returns (copy: SpecObject)
      ensures fresh(copy) && fresh(copy.selector) && fresh(copy.labels) && fresh(copy.containers)
      ensures copy.selector != copy.labels && copy.Value() == Value()
    {
      var s := new LabelMap(selector.entries);
      var l := new LabelMap(labels.entries);
      var c :=
        new string[containers.Length](i requires 0 <= i < containers.Length reads this, containers => containers[i]);
      assert c[..] == containers[..];
      copy := new SpecObject(replicas, s, expressions, l, c);
    }
  }

  class DeploymentObject {
    var name: string
    var labels: LabelMap
    var spec: SpecObject
    var owner: Option<Owner>

    constructor (name: string, labels: LabelMap, spec: SpecObject, owner: Option<Owner>)
      ensures this.name == name && this.labels == labels && this.spec == spec && this.owner == owner
    {
      this.name, this.labels, this.spec, this.owner := name, labels, spec, owner;
    }

    /** The three label maps are different objects. */
    predicate Valid()
      reads this, spec
    {
      labels != spec.labels && labels != spec.selector && spec.labels != spec.selector
    }

    function Value(): Deployment
      reads this, labels, spec, spec.selector, spec.labels, spec.containers
    {
      Deployment(name, labels.entries, spec.Value(), owner)
    }
  }

  method Decode(d: Deployment) returns (o: DeploymentObject)
    ensures o.Valid() && fresh(o) && fresh(o.labels) && fresh(o.spec) && fresh(o.spec.selector) && fresh(o.spec.labels)
    ensures o.Value() == d
  {
    var l := new LabelMap(d.labels);
    var s := new LabelMap(d.spec.selector.labels);
    var t := new LabelMap(d.spec.labels);
    var c := new string[|d.spec.containers|](i requires 0 <= i < |d.spec.containers| => d.spec.containers[i]);
    assert c[..] == d.spec.containers;
    var spec := new SpecObject(d.spec.replicas, s, d.spec.selector.expressions, t, c);
    o := new DeploymentObject(d.name, l, spec, d.owner);
  }

  /**
   The baseline is built from a deep copy, so setting its labels leaves its two sources alone: this
   method may modify nothing that existed before.
   */
  method CreateBaselineDeployment(canary: DeploymentObject, base: DeploymentObject, policy: Policy)
    returns (baseline: DeploymentObject)
    requires policy.mode != Unknown
    ensures baseline.Valid() && fresh(baseline) && fresh(baseline.spec)
    ensures fresh(baseline.labels) && fresh(baseline.spec.selector) && fresh(baseline.spec.labels)
    ensures baseline.Value() == BaselineFor(canary.Value(), base.Value(), policy)
  {
    var config, policyLabel := MakeCanaryConfigName(policy, canary.name), Label(canary.labels.entries, POLICY_LABEL);
    var labels := new LabelMap(map[TIER_LABEL := BASELINE, CONFIG_LABEL := config, POLICY_LABEL := policyLabel]);
    var spec := CopySource(canary, base, if policy.mode == Unset then New else policy.mode);
    Relabel(spec, config, policyLabel);
    baseline := new DeploymentObject(MakeBaselineName(canary.name), labels, spec, Some(DeploymentOwner(canary.name)));
  }

  /**
   A deep copy of the canary's specification with the base's containers, shared with the base, or one of the
   base's.
   */
  method CopySource(canary: DeploymentObject, base: DeploymentObject, mode: Mode) returns (spec: SpecObject)
    requires mode == New || mode == Old
    ensures fresh(spec) && fresh(spec.selector) && fresh(spec.labels) && spec.selector != spec.labels
    ensures spec.Value() == SourceSpec(canary.spec.Value(), base.spec.Value(), mode)
  {
    if mode == New {
      spec := canary.spec.DeepCopy();
      spec.containers := base.spec.containers;
    } else {
      spec := base.spec.DeepCopy();
    }
  }

  /** One replica, and the labels of the baseline, set in place. */
  method Relabel(spec: SpecObject, config: string, policyLabel: string)
    requires spec.labels != spec.selector
    modifies spec`replicas, spec.selector, spec.labels
    ensures spec.Value() == BaselineSpec(old(spec.Value()), config, policyLabel)
  {
    spec.replicas := Some(1);
    spec.selector.Set(TIER_LABEL, BASELINE);
    spec.selector.Set(VERSION_LABEL, BASELINE);
    spec.labels.Set(TIER_LABEL, BASELINE);
    spec.labels.Set(VERSION_LABEL, BASELINE);
    spec.labels.Set(CONFIG_LABEL, config);
    spec.labels.Set(POLICY_LABEL, policyLabel);
  }

  // ----- the store

  datatype Error = IsNotFound | IsConflict | Other

  /** The API server. When it is not reliable, any write may fail, applied or not: the place where a pass is cut off. */
  class Store {
    var cluster: Cluster
    var reliable: bool
    ghost var last: Option<Error> // how the last write of this pass has failed, if it has

    method Write(next: Cluster) returns (e: Option<Error>)
      modifies this`cluster, this`last
      ensures cluster == next || (e.Some? && cluster == old(cluster))
      ensures reliable ==> e.None?
      ensures last == e
    {
      var refused: bool, lost: bool, conflict: bool := *, *, *;
      e := if (refused || lost) && !reliable then Some(if conflict then IsConflict else Other) else None;
      if !refused || reliable {
        cluster := next;
      }
      last := e;
    }
  }

  /** Whether and when the request is to be processed again, and the error that is reported. */
  datatype Outcome = Outcome(requeue: bool, requeueAfter: nat, error: Option<Error>)

  function FallbackReconcile(e: Error): Outcome {
    Outcome(true, 3, if e == IsConflict then None else Some(e))
  }

  /** The error with which a step ends the pass when it cannot be taken. */
  function StopError(c: Cluster, name: string, i: nat): Error {
    if Known(c, name) && i == 3 && PolicyOf(c, name).base !in c.deployments then IsNotFound else Other
  }

  /** The error with which a pass ends at step `i` or later though no write fails. */
  function PassError(c: Cluster, name: string, i: nat): Option<Error>
    requires i <= STEPS
    decreases STEPS - i
  {
    if i == STEPS then None
    else if Blocked(c, name, i) then Some(StopError(c, name, i))
    else PassError(Step(c, name, i), name, i + 1)
  }

  /** After a failure the pass is asked for again, in three seconds, and a failure other than a conflict is reported. */
  predicate Answers(outcome: Outcome, failure: Option<Error>) {
    && (outcome.requeue <==> failure.Some?)
    && outcome.requeueAfter == (if failure.Some? then 3 else 0)
    && outcome.error == if failure == Some(IsConflict) then None else failure
  }

  class ReconcileDeployment {
    const store: Store

    constructor (store: Store)
      ensures this.store == store
    {
      this.store := store;
    }

    /** The object in hand is the stored canary. */
    predicate Holds(d: DeploymentObject, name: string)
      reads store, d, d.labels, d.spec, d.spec.selector, d.spec.labels, d.spec.containers
    {
      d.Valid() && Known(store.cluster, name) && d.Value() == Canary(store.cluster, name)
    }

    /** What a step has done: it is taken, or it has failed before or after its write. */
    ghost predicate Taking(c: Cluster, name: string, i: nat, ok: bool)
      requires i < STEPS && !Blocked(c, name, i)
      reads store
    {
      store.cluster == Step(c, name, i) || (!ok && store.cluster == c)
    }

    method UpdateCanaryConfigName(d: DeploymentObject, policy: Policy, name: string) returns (e: Option<Error>)
      requires Holds(d, name) && policy == PolicyOf(store.cluster, name)
      requires store.last.None?
      modifies store`cluster, store`last, d.labels
      ensures d.Valid() && Taking(old(store.cluster), name, 0, e.None?) && (store.reliable ==> e.None?)
      ensures e.None? ==> Holds(d, name)
      ensures store.last == e
    {
      StepExtends(store.cluster, name, 0);
      if Label(d.labels.entries, CONFIG_LABEL) != "" {
        return None;
      }
      d.labels.Set(CONFIG_LABEL, MakeCanaryConfigName(policy, d.name));
      e := store.Write(WithCanary(store.cluster, d.Value()));
    }

    method ReconcileCanaryDeployment(d: DeploymentObject, policy: Policy, name: string) returns (e: Option<Error>)
      requires Holds(d, name) && policy == PolicyOf(store.cluster, name)
      requires store.last.None?
      modifies store`cluster, store`last, d.spec.labels
      ensures d.Valid() && Taking(old(store.cluster), name, 1, e.None?) && (store.reliable ==> e.None?)
      ensures e.None? ==> Holds(d, name)
      ensures store.last == e
    {
      StepExtends(store.cluster, name, 1);
      var labels := d.spec.labels;
      if Label(labels.entries, CONFIG_LABEL) != "" && Label(labels.entries, POLICY_LABEL) != "" {
        assert store.cluster.deployments[name := d.Value()] == store.cluster.deployments;
        return None;
      }
      labels.Set(CONFIG_LABEL, MakeCanaryConfigName(policy, d.name));
      labels.Set(POLICY_LABEL, Label(d.labels.entries, POLICY_LABEL));
      e := store.Write(WithCanary(store.cluster, d.Value()));
    }

    method ReconcileCanaryService(d: DeploymentObject, policy: Policy, name: string) returns (e: Option<Error>)
      requires Holds(d, name) && policy == PolicyOf(store.cluster, name)
      requires store.last.None?
      modifies store`cluster, store`last
      ensures Taking(old(store.cluster), name, 2, e.None?) && (store.reliable ==> e.None?)
      ensures Holds(d, name)
      ensures store.last == e
    {
      StepExtends(store.cluster, name, 2);
      if MakeCanaryServiceName(policy, d.name) in store.cluster.services {
        return None;
      }
      var service := ServiceFor(d.Value(), policy);
      e := store.Write(store.cluster.(services := store.cluster.services[service.name := service]));
    }

    method ReconcileBaseline(d: DeploymentObject, policy: Policy, name: string) returns (e: Option<Error>)
      requires Holds(d, name) && policy == PolicyOf(store.cluster, name)
      requires store.last.None?
      modifies store`cluster, store`last
      ensures if old(Blocked(store.cluster, name, 3))
              then e == Some(StopError(old(store.cluster), name, 3)) && store.cluster == old(store.cluster)
                   && store.last.None?
              else Taking(old(store.cluster), name, 3, e.None?) && (store.reliable ==> e.None?)
      ensures Holds(d, name)
      ensures !old(Blocked(store.cluster, name, 3)) ==> store.last == e
    {
      var baselineName := MakeBaselineName(d.name);
      BaselineIsAnother(name);
      if baselineName in store.cluster.deployments {
        return None;
      }
      if policy.base !in store.cluster.deployments {
        return Some(IsNotFound);
      }
      if policy.mode == Unknown {
        return Some(Other);
      }
      StepExtends(store.cluster, name, 3);
      var base := Decode(store.cluster.deployments[policy.base]);
      var baseline := CreateBaselineDeployment(d, base, policy);
      e := store.Write(store.cluster.(deployments := store.cluster.deployments[baselineName := baseline.Value()]));
    }

    method ReconcileCanaryConfig(d: DeploymentObject, policy: Policy, name: string) returns (e: Option<Error>)
      requires Holds(d, name) && policy == PolicyOf(store.cluster, name)
      requires store.last.None?
      modifies store`cluster, store`last
      ensures Taking(old(store.cluster), name, 4, e.None?) && (store.reliable ==> e.None?)
      ensures Holds(d, name)
      ensures store.last == e
    {
      StepExtends(store.cluster, name, 4);
      var configName := MakeCanaryConfigName(policy, d.name);
      if configName in store.cluster.configs {
        return None;
      }
      var config := ConfigFor(d.Value(), policy);
      e := store.Write(store.cluster.(configs := store.cluster.configs[configName := config]));
    }

    /** The Canary becomes the owner of the deployment, not the other way round. */
    method OwnDeployment(d: DeploymentObject, policy: Policy, name: string) returns (e: Option<Error>)
      requires Holds(d, name) && policy == PolicyOf(store.cluster, name)
      requires MakeCanaryConfigName(policy, name) in store.cluster.configs
      requires store.last.None?
      modifies store`cluster, store`last, d`owner
      ensures if old(Blocked(store.cluster, name, 5))
              then e == Some(StopError(old(store.cluster), name, 5)) && store.cluster == old(store.cluster)
                   && store.last.None?
              else Taking(old(store.cluster), name, 5, e.None?) && (store.reliable ==> e.None?)
      ensures !old(Blocked(store.cluster, name, 5)) ==> store.last == e
    {
      var configName := MakeCanaryConfigName(policy, d.name);
      if store.cluster.configs[configName].owner.Some? {
        return None;
      }
      if d.owner.Some? && d.owner.value != CanaryOwner(configName) {
        return Some(Other);
      }
      d.owner := Some(CanaryOwner(configName));
      e := store.Write(WithCanary(store.cluster, d.Value()));
    }

    /**
     One pass. However it ends, the cluster is that of a prefix of the six steps; it is the full pass
     when no write has failed.
     */
    method Reconcile(name: string) returns (outcome: Outcome, ghost n: nat)
      requires name in store.cluster.deployments ==> store.cluster.deployments[name].name == name
      requires store.last.None?
      modifies store`cluster, store`last
      ensures n <= STEPS && store.cluster == Pass(old(store.cluster), name, 0, n)
      ensures store.last.None? || store.reliable ==> n == STEPS
      ensures store.reliable ==> store.last.None?
      ensures if old(Known(store.cluster, name))
              then Answers(outcome, if store.last.Some? then store.last else PassError(old(store.cluster), name, 0))
              else outcome == Outcome(false, 0, None)
    {
      ghost var c0 := store.cluster;
      if name !in store.cluster.deployments
        || Label(store.cluster.deployments[name].labels, POLICY_LABEL) !in store.cluster.policies {
        StopsAt(c0, c0, name, 0);
        return Outcome(false, 0, None), STEPS;
      }
      var e;
      e, n := ReconcileObjects(name);
      outcome := if e.Some? then FallbackReconcile(e.value) else Outcome(false, 0, None);
    }

    /** The error that a pass ends with, given how its last write has failed. */
    ghost predicate EndsWith(e: Option<Error>, c: Cluster, name: string, i: nat)
      requires i <= STEPS
      reads store
    {
      e == if store.last.Some? then store.last else PassError(c, name, i)
    }

    method ReconcileObjects(name: string) returns (e: Option<Error>, ghost n: nat)
      requires Known(store.cluster, name) && store.last.None?
      modifies store`cluster, store`last
      ensures n <= STEPS && store.cluster == Pass(old(store.cluster), name, 0, n)
      ensures store.last.None? || store.reliable ==> n == STEPS
      ensures store.reliable ==> store.last.None?
      ensures EndsWith(e, old(store.cluster), name, 0)
    {
      ghost var c0 := store.cluster;
      var d := Decode(store.cluster.deployments[name]);
      var policy := store.cluster.policies[Label(d.labels.entries, POLICY_LABEL)];
      StopsAt(c0, c0, name, 0);
      e := UpdateCanaryConfigName(d, policy, name);
      if e.Some? {
        return e, if store.cluster == c0 then 0 else 1;
      }
      StepExtends(c0, name, 0);
      ReachesNext(c0, c0, name, 0);
      e, n := LabelAndServe(d, policy, name, c0);
    }

    /** The pass after the name of the Canary is set. */
    method LabelAndServe(d: DeploymentObject, policy: Policy, name: string, ghost c0: Cluster)
      returns (e: Option<Error>, ghost n: nat)
      requires Holds(d, name) && policy == PolicyOf(store.cluster, name) && Reaches(c0, store.cluster, name, 1)
      requires store.last.None?
      modifies store`cluster, store`last, d`owner, d.spec.labels
      ensures n <= STEPS && store.cluster == Pass(c0, name, 0, n)
      ensures store.last.None? || store.reliable ==> n == STEPS
      ensures store.reliable ==> store.last.None?
      ensures EndsWith(e, old(store.cluster), name, 1)
    {
      ghost var c1 := store.cluster;
      StopsAt(c0, c1, name, 1);
      e := ReconcileCanaryDeployment(d, policy, name);
      if e.Some? {
        return e, if store.cluster == c1 then 1 else 2;
      }
      StepExtends(c1, name, 1);
      ReachesNext(c0, c1, name, 1);
      ghost var c2 := store.cluster;
      StopsAt(c0, c2, name, 2);
      e := ReconcileCanaryService(d, policy, name);
      if e.Some? {
        return e, if store.cluster == c2 then 2 else 3;
      }
      StepExtends(c2, name, 2);
      ReachesNext(c0, c2, name, 2);
      e, n := ReconcileBaselineAndConfig(d, policy, name, c0);
    }

    method ReconcileBaselineAndConfig(d: DeploymentObject, policy: Policy, name: string, ghost c0: Cluster)
      returns (e: Option<Error>, ghost n: nat)
      requires Holds(d, name) && policy == PolicyOf(store.cluster, name) && Reaches(c0, store.cluster, name, 3)
      requires store.last.None?
      modifies store`cluster, store`last, d`owner
      ensures n <= STEPS && store.cluster == Pass(c0, name, 0, n)
      ensures store.last.None? || store.reliable ==> n == STEPS
      ensures store.reliable ==> store.last.None?
      ensures EndsWith(e, old(store.cluster), name, 3)
    {
      ghost var c3 := store.cluster;
      StopsAt(c0, c3, name, 3);
      e := ReconcileBaseline(d, policy, name);
      if e.Some? {
        return e, if Blocked(c3, name, 3) then STEPS else if store.cluster == c3 then 3 else 4;
      }
      StepExtends(c3, name, 3);
      ReachesNext(c0, c3, name, 3);
      e, n := ConfigAndOwner(d, policy, name, c0);
    }

    method ConfigAndOwner(d: DeploymentObject, policy: Policy, name: string, ghost c0: Cluster)
      returns (e: Option<Error>, ghost n: nat)
      requires Holds(d, name) && policy == PolicyOf(store.cluster, name) && Reaches(c0, store.cluster, name, 4)
      requires store.last.None?
      modifies store`cluster, store`last, d`owner
      ensures n <= STEPS && store.cluster == Pass(c0, name, 0, n)
      ensures store.last.None? || store.reliable ==> n == STEPS
      ensures store.reliable ==> store.last.None?
      ensures EndsWith(e, old(store.cluster), name, 4)
    {
      ghost var c4 := store.cluster;
      StopsAt(c0, c4, name, 4);
      e := ReconcileCanaryConfig(d, policy, name);
      if e.Some? {
        return e, if store.cluster == c4 then 4 else 5;
      }
      StepExtends(c4, name, 4);
      ReachesNext(c0, c4, name, 4);
      ghost var c5 := store.cluster;
      StopsAt(c0, c5, name, 5);
      e := OwnDeployment(d, policy, name);
      n := if e.None? || Blocked(c5, name, 5) then STEPS else if store.cluster == c5 then 5 else STEPS;
    }
  }

  /** Any number of passes cut off anywhere, and then one that is not: the cluster of a single full pass. */
  method ReconcileAfterCrashes(controller: ReconcileDeployment, name: string, crashes: nat)
    requires name in controller.store.cluster.deployments ==> controller.store.cluster.deployments[name].name == name
    modifies controller.store
    ensures controller.store.cluster == FullPass(old(controller.store.cluster), name)
  {
    var store := controller.store;
    ghost var c0 := store.cluster;
    store.reliable := false;
    for i := 0 to crashes
      invariant FullPass(store.cluster, name) == FullPass(c0, name)
      invariant name in store.cluster.deployments ==> store.cluster.deployments[name].name == name
    {
      ghost var c := store.cluster;
      store.last := None;
      var outcome, n := controller.Reconcile(name);
      CrashConverges(c, name, n);
      PassKeepsName(c, name, 0, n);
    }
    store.reliable, store.last := true, None;
    var outcome, n := controller.Reconcile(name);
  }

  lemma {:induction false} PassKeepsName(c: Cluster, name: string, i: nat, n: nat)
    requires i <= n <= STEPS && (name in c.deployments ==> c.deployments[name].name == name)
    ensures var c' := Pass(c, name, i, n); name in c'.deployments ==> c'.deployments[name].name == name
    decreases n - i
  {
    if i < n && !Blocked(c, name, i) {
      StepExtends(c, name, i);
      PassKeepsName(Step(c, name, i), name, i + 1, n);
    }
  }
}
