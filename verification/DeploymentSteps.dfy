/** A pass of the deployment controller as six steps of one write each, and why a crash between them does no harm. */
module DeploymentSteps {
  import opened Wrappers
  import opened DeploymentValues

  datatype Cluster = Cluster(
    policies: map<string, Policy>, deployments: map<string, Deployment>,
    services: map<string, Service>, configs: map<string, CanaryConfig>)

  const STEPS: nat := 6

  /** The canary deployment and its policy are there. */
  predicate Known(c: Cluster, name: string) {
    name in c.deployments && c.deployments[name].name == name
    && Label(c.deployments[name].labels, POLICY_LABEL) in c.policies
  }

  function Canary(c: Cluster, name: string): Deployment
    requires Known(c, name)
  {
    c.deployments[name]
  }

  function PolicyOf(c: Cluster, name: string): Policy
    requires Known(c, name)
  {
    c.policies[Label(Canary(c, name).labels, POLICY_LABEL)]
  }

  function ConfigName(c: Cluster, name: string): string
    requires Known(c, name)
  {
    MakeCanaryConfigName(PolicyOf(c, name), name)
  }

  function WithCanary(c: Cluster, d: Deployment): Cluster {
    c.(deployments := c.deployments[d.name := d])
  }

  // ----- the six steps

  function NameConfig(c: Cluster, name: string): Cluster
    requires Known(c, name)
  {
    var d := Canary(c, name);
    if Label(d.labels, CONFIG_LABEL) != "" then c
    else WithCanary(c, d.(labels := d.labels[CONFIG_LABEL := ConfigName(c, name)]))
  }

  function LabelTemplate(c: Cluster, name: string): Cluster
    requires Known(c, name)
  {
    var d := Canary(c, name);
    WithCanary(c, d.(spec := d.spec.(labels := TemplateAfter(d, PolicyOf(c, name)))))
  }

  function CreateService(c: Cluster, name: string): Cluster
    requires Known(c, name)
  {
    var s := ServiceFor(Canary(c, name), PolicyOf(c, name));
    if s.name in c.services then c else c.(services := c.services[s.name := s])
  }

  /** No baseline yet, and none can be made: its base is missing or its mode is not known. */
  predicate NoBaseline(c: Cluster, name: string)
    requires Known(c, name)
  {
    var p := PolicyOf(c, name);
    MakeBaselineName(name) !in c.deployments && (p.base !in c.deployments || p.mode == Unknown)
  }

  function CreateBaseline(c: Cluster, name: string): Cluster
    requires Known(c, name) && !NoBaseline(c, name)
  {
    var b := MakeBaselineName(name);
    if b in c.deployments then c
    else c.(deployments :=
           c.deployments[b := BaselineFor(Canary(c, name), c.deployments[PolicyOf(c, name).base], PolicyOf(c, name))])
  }

  function CreateConfig(c: Cluster, name: string): Cluster
    requires Known(c, name)
  {
    var n := ConfigName(c, name);
    if n in c.configs then c else c.(configs := c.configs[n := ConfigFor(Canary(c, name), PolicyOf(c, name))])
  }

  /** The canary is another's already. */
  predicate Taken(c: Cluster, name: string)
    requires Known(c, name)
  {
    var n := ConfigName(c, name);
    && n in c.configs && c.configs[n].owner.None?
    && Canary(c, name).owner.Some? && Canary(c, name).owner.value != CanaryOwner(n)
  }

  function Own(c: Cluster, name: string): Cluster
    requires Known(c, name)
  {
    var n := ConfigName(c, name);
    if n !in c.configs || c.configs[n].owner.Some? then c
    else WithCanary(c, Canary(c, name).(owner := Some(CanaryOwner(n))))
  }

  /** Step `i` ends the pass with an error. */
  predicate Blocked(c: Cluster, name: string, i: nat) {
    !Known(c, name) || (i == 3 && NoBaseline(c, name)) || (i == 5 && Taken(c, name))
  }

  function Step(c: Cluster, name: string, i: nat): Cluster
    requires !Blocked(c, name, i) && i < STEPS
  {
    match i
    case 0 => NameConfig(c, name)
    case 1 => LabelTemplate(c, name)
    case 2 => CreateService(c, name)
    case 3 => CreateBaseline(c, name)
    case 4 => CreateConfig(c, name)
    case _ => Own(c, name)
  }

  /** Steps `i` to `n` of a pass, or up to the first that is blocked. */
  function Pass(c: Cluster, name: string, i: nat, n: nat): Cluster
    requires i <= n <= STEPS
    decreases n - i
  {
    if i == n || Blocked(c, name, i) then c else Pass(Step(c, name, i), name, i + 1, n)
  }

  function FullPass(c: Cluster, name: string): Cluster {
    Pass(c, name, 0, STEPS)
  }

  // ----- what later steps keep

  /** What one step may change: nothing that names or policies depend on. */
  predicate Extends(c: Cluster, c': Cluster, name: string)
    requires Known(c, name)
  {
    && Known(c', name) && c'.policies == c.policies
    && Label(Canary(c', name).labels, POLICY_LABEL) == Label(Canary(c, name).labels, POLICY_LABEL)
    && c.services.Keys <= c'.services.Keys && c.configs.Keys <= c'.configs.Keys
    && c.deployments.Keys <= c'.deployments.Keys
  }

  lemma StepExtends(c: Cluster, name: string, i: nat)
    requires i < STEPS && !Blocked(c, name, i)
    ensures Extends(c, Step(c, name, i), name)
  {
    LabelsDiffer();
    BaselineIsAnother(name);
  }

  /** Step `j` has nothing left to do. */
  predicate Settled(c: Cluster, name: string, j: nat) {
    j < STEPS && !Blocked(c, name, j) && Step(c, name, j) == c
  }

  lemma NameSettles(c: Cluster, name: string)
    requires Known(c, name)
    ensures Settled(NameConfig(c, name), name, 0)
  {
    LabelsDiffer();
    assert |ConfigName(c, name)| >= |"-"|;
    StepExtends(c, name, 0);
  }

  lemma LabelSettles(c: Cluster, name: string)
    requires Known(c, name)
    ensures Settled(LabelTemplate(c, name), name, 1)
  {
    var c' := LabelTemplate(c, name);
    StepExtends(c, name, 1);
    TemplateSettles(Canary(c, name), PolicyOf(c, name), Canary(c', name));
    assert c'.deployments[name := Canary(c', name)] == c'.deployments;
  }

  lemma OwnSettles(c: Cluster, name: string)
    requires !Blocked(c, name, 5)
    ensures Settled(Own(c, name), name, 5)
  {
    var c' := Own(c, name);
    StepExtends(c, name, 5);
    assert c'.deployments[name := Canary(c', name)] == c'.deployments;
  }

  /** A step that was taken has nothing left to do. */
  lemma StepSettles(c: Cluster, name: string, i: nat)
    requires i < STEPS && !Blocked(c, name, i)
    ensures Settled(Step(c, name, i), name, i)
  {
    match i
    case 0 => NameSettles(c, name);
    case 1 => LabelSettles(c, name);
    case 5 => OwnSettles(c, name);
    case _ => StepExtends(c, name, i);
  }

  lemma LaterStepsKeep(c: Cluster, name: string, i: nat, j: nat)
    requires j < i < STEPS && !Blocked(c, name, i) && Settled(c, name, j)
    ensures Settled(Step(c, name, i), name, j)
  {
    StepExtends(c, name, i);
    match j
    case 0 => LaterStepsKeepName(c, name, i);
    case 1 => LaterStepsKeepLabels(c, name, i);
    case _ =>
  }

  lemma LaterStepsKeepName(c: Cluster, name: string, i: nat)
    requires 0 < i < STEPS && !Blocked(c, name, i) && Settled(c, name, 0)
    ensures Settled(Step(c, name, i), name, 0)
  {
    LabelsDiffer();
    BaselineIsAnother(name);
    StepExtends(c, name, i);
  }

  lemma LaterStepsKeepLabels(c: Cluster, name: string, i: nat)
    requires 1 < i < STEPS && !Blocked(c, name, i) && Settled(c, name, 1)
    ensures Settled(Step(c, name, i), name, 1)
  {
    BaselineIsAnother(name);
    StepExtends(c, name, i);
  }

  // ----- crash convergence

  /** A pass over settled steps comes to the first that is not. */
  lemma {:induction false} SkipSettled(c: Cluster, name: string, i: nat, n: nat)
    requires i <= n <= STEPS && forall j :: i <= j < n ==> Settled(c, name, j)
    ensures Pass(c, name, i, STEPS) == Pass(c, name, n, STEPS)
    decreases n - i
  {
    if i < n {
      assert Settled(c, name, i);
      SkipSettled(c, name, i + 1, n);
    }
  }

  /** Where a cut-off pass stands: all its steps settled, and the full pass only has to go on from there. */
  lemma {:induction false} CutOff(c: Cluster, name: string, i: nat, n: nat) returns (m: nat)
    requires i <= n <= STEPS && forall j :: 0 <= j < i ==> Settled(c, name, j)
    ensures i <= m <= n
    ensures forall j :: 0 <= j < m ==> Settled(Pass(c, name, i, n), name, j)
    ensures Pass(Pass(c, name, i, n), name, m, STEPS) == Pass(c, name, i, STEPS)
    decreases n - i
  {
    if i == n || Blocked(c, name, i) {
      m := i;
    } else {
      var c' := Step(c, name, i);
      forall j | 0 <= j < i + 1
        ensures Settled(c', name, j)
      {
        if j < i {
          LaterStepsKeep(c, name, i, j);
        } else {
          StepSettles(c, name, i);
        }
      }
      m := CutOff(c', name, i + 1, n);
    }
  }

  /**
   Crash convergence. A pass cut off after any of its writes, and then a full one, give the same
   cluster as one full pass.
   */
  lemma CrashConverges(c: Cluster, name: string, n: nat)
    requires n <= STEPS
    ensures FullPass(Pass(c, name, 0, n), name) == FullPass(c, name)
  {
    var m := CutOff(c, name, 0, n);
    SkipSettled(Pass(c, name, 0, n), name, 0, m);
  }

  /** A further pass changes nothing. */
  lemma SecondPassIdle(c: Cluster, name: string)
    ensures FullPass(FullPass(c, name), name) == FullPass(c, name)
  {
    CrashConverges(c, name, STEPS);
  }

  // ----- a pass in progress

  /** Step `i` is next, and the steps before it have brought `c0` to `c`. */
  ghost predicate Reaches(c0: Cluster, c: Cluster, name: string, i: nat) {
    i <= STEPS && forall n :: i <= n <= STEPS ==> Pass(c0, name, 0, n) == Pass(c, name, i, n)
  }

  lemma ReachesNext(c0: Cluster, c: Cluster, name: string, i: nat)
    requires Reaches(c0, c, name, i) && i < STEPS && !Blocked(c, name, i)
    ensures Reaches(c0, Step(c, name, i), name, i + 1)
  {
  }

  /** Where a pass can be found when its step `i` has failed: it was taken or not. */
  lemma StopsAt(c0: Cluster, c: Cluster, name: string, i: nat)
    requires Reaches(c0, c, name, i)
    ensures Pass(c0, name, 0, i) == c
    ensures i < STEPS && Blocked(c, name, i) ==> Pass(c0, name, 0, STEPS) == c
    ensures i < STEPS && !Blocked(c, name, i) ==> Pass(c0, name, 0, i + 1) == Step(c, name, i)
  {
    if i < STEPS && !Blocked(c, name, i) {
      ReachesNext(c0, c, name, i);
    }
  }
}
