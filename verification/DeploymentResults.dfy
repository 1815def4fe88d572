/**
 What a full pass of the deployment controller leaves in the cluster: every object it makes, field by field,
 and that all others stay as they were.
 */
module DeploymentResults {
  import opened Wrappers
  import opened DeploymentValues
  import opened DeploymentSteps

  // ----- the objects, spelled out

  /** "app-canary" has the baseline "app-baseline", and a name without that ending just gets one. */
  predicate BaselineNamed(name: string, b: string) {
    if |name| >= 7 && name[|name| - 7..] == "-canary" then b == name[..|name| - 7] + "-baseline"
    else b == name + "-baseline"
  }

  lemma NameOfBaseline(name: string)
    ensures BaselineNamed(name, MakeBaselineName(name))
  {
    assert |CANARY_SUFFIX| == 7;
  }

  /** Both labels of the canary's template are set, to the service's values unless both were set before. */
  predicate TemplateLabelled(was: Labels, now: Labels, config: string, policy: string) {
    if Label(was, "krane.sh/canary-config") != "" && Label(was, "krane.sh/canary-policy") != "" then now == was
    else now == was["krane.sh/canary-config" := config]["krane.sh/canary-policy" := policy]
  }

  /** The canary itself is labelled with its Canary and owned by it, unless either was so; nothing else changes. */
  predicate CanaryMarked(was: Deployment, now: Deployment, config: string, policy: string, owned: bool) {
    && now.name == was.name
    && now.labels == (if Label(was.labels, "krane.sh/canary-config") == ""
                      then was.labels["krane.sh/canary-config" := config] else was.labels)
    && now.spec.replicas == was.spec.replicas && now.spec.selector == was.spec.selector
    && now.spec.containers == was.spec.containers
    && TemplateLabelled(was.spec.labels, now.spec.labels, config, policy)
    && now.owner == if owned then Some(CanaryOwner(config)) else was.owner
  }

  predicate ServiceMade(s: Service, name: string, config: string, policy: string, ports: seq<Port>) {
    && s.name == config && s.owner == Some(DeploymentOwner(name))
    && s.labels == map["krane.sh/canary-config" := config, "krane.sh/canary-policy" := policy]
    && s.selector == map["krane.sh/canary-config" := config, "krane.sh/canary-policy" := policy]
    && s.ports == if ports == [] then [Port(80, "http")] else ports
  }

  /**
   The baseline is a deployment of the baseline tier with one replica. It runs the base's containers in both
   modes, and is otherwise made like the canary, or like the base in mode Old.
   */
  predicate BaselineMade(
    b: Deployment, name: string, config: string, policy: string, mode: Mode, canary: Spec, base: Spec)
  {
    && BaselineNamed(name, b.name) && b.owner == Some(DeploymentOwner(name))
    && b.labels ==
       map["krane.sh/tier" := "baseline", "krane.sh/canary-config" := config, "krane.sh/canary-policy" := policy]
    && b.spec.replicas == Some(1) && b.spec.containers == base.containers
    && var source := if mode == Old then base else canary;
       && b.spec.selector.labels == source.selector.labels["krane.sh/tier" := "baseline"]["version" := "baseline"]
       && b.spec.selector.expressions == source.selector.expressions
       && b.spec.labels == source.labels["krane.sh/tier" := "baseline"]["version" := "baseline"]
            ["krane.sh/canary-config" := config]["krane.sh/canary-policy" := policy]
  }

  /** The Canary names its policy, its deployment, the baseline and the base. */
  predicate ConfigMade(k: CanaryConfig, name: string, config: string, p: Policy) {
    && k.name == config && k.policy == p.name && k.canary == name && k.base == p.base && k.owner.None?
    && BaselineNamed(name, k.baseline)
  }

  // ----- the pass

  /** A pass comes to its end: the baseline is there or can be made, and the canary is not another's. */
  predicate Completes(c: Cluster, name: string) {
    && Known(c, name) && !NoBaseline(c, name)
    && var n := ConfigName(c, name);
       || (n in c.configs && c.configs[n].owner.Some?)
       || Canary(c, name).owner.None? || Canary(c, name).owner.value == CanaryOwner(n)
  }

  ghost predicate Keeps<T>(was: map<string, T>, now: map<string, T>, but: set<string>) {
    forall k :: k in was && k !in but ==> k in now && now[k] == was[k]
  }

  /** The service and the Canary are there, made where they were not. */
  ghost predicate OthersThere(c: Cluster, c': Cluster, name: string)
    requires Known(c, name)
  {
    var policy := Label(c.deployments[name].labels, "krane.sh/canary-policy");
    var p := c.policies[policy];
    var n := p.name + "-" + name;
    && c'.policies == c.policies
    && c'.services.Keys == c.services.Keys + {n} && Keeps(c.services, c'.services, {})
    && (n !in c.services ==> ServiceMade(c'.services[n], name, n, policy, p.ports))
    && c'.configs.Keys == c.configs.Keys + {n} && Keeps(c.configs, c'.configs, {})
    && (n !in c.configs ==> ConfigMade(c'.configs[n], name, n, p))
  }

  /** The canary is marked, and the baseline is there, made where it was not. */
  ghost predicate DeploymentsThere(c: Cluster, c': Cluster, name: string)
    requires Known(c, name)
  {
    var d, b := c.deployments[name], MakeBaselineName(name);
    var policy := Label(d.labels, "krane.sh/canary-policy");
    var p := c.policies[policy];
    var n := p.name + "-" + name;
    && c'.deployments.Keys == c.deployments.Keys + {b} && Keeps(c.deployments, c'.deployments, {name})
    && n in c'.configs && CanaryMarked(d, c'.deployments[name], n, policy, c'.configs[n].owner.None?)
    && (b !in c.deployments ==>
          && p.base in c'.deployments
          && BaselineMade(c'.deployments[b], name, n, policy, p.mode,
                          c'.deployments[name].spec, c'.deployments[p.base].spec))
  }

  // ----- step by step

  lemma PassInOrder(c: Cluster, name: string, c1: Cluster, c2: Cluster, c3: Cluster, c4: Cluster, c5: Cluster)
    requires Known(c, name) && c1 == NameConfig(c, name)
    requires Known(c1, name) && c2 == LabelTemplate(c1, name)
    requires Known(c2, name) && c3 == CreateService(c2, name)
    requires Known(c3, name) && !NoBaseline(c3, name) && c4 == CreateBaseline(c3, name)
    requires Known(c4, name) && c5 == CreateConfig(c4, name)
    requires Known(c5, name) && !Taken(c5, name)
    ensures FullPass(c, name) == Own(c5, name)
  {
    assert Pass(c5, name, 5, STEPS) == Own(c5, name);
    assert Pass(c4, name, 4, STEPS) == Pass(c5, name, 5, STEPS);
    assert Pass(c3, name, 3, STEPS) == Pass(c4, name, 4, STEPS);
    assert Pass(c2, name, 2, STEPS) == Pass(c3, name, 3, STEPS);
    assert Pass(c1, name, 1, STEPS) == Pass(c2, name, 2, STEPS);
  }

  /** The two updates of the canary. */
  lemma Marks(c: Cluster, name: string)
    requires Known(c, name)
    ensures Known(NameConfig(c, name), name) && Marked(c, LabelTemplate(NameConfig(c, name), name), name)
  {
    LabelsDiffer();
    var c1 := NameConfig(c, name);
    var c2 := LabelTemplate(c1, name);
    assert c2.deployments == c.deployments[name := c2.deployments[name]];
  }

  /** The baseline that is made, with the canary as it is by then. */
  lemma BaselineIsMade(d: Deployment, base: Deployment, p: Policy)
    ensures BaselineMade(BaselineFor(d, base, p), d.name, p.name + "-" + d.name, Label(d.labels, POLICY_LABEL), p.mode,
                         d.spec, base.spec)
  {
    NameOfBaseline(d.name);
  }

  lemma Objects(d: Deployment, p: Policy)
    ensures ServiceMade(ServiceFor(d, p), d.name, p.name + "-" + d.name, Label(d.labels, POLICY_LABEL), p.ports)
    ensures ConfigMade(ConfigFor(d, p), d.name, p.name + "-" + d.name, p)
  {
    NameOfBaseline(d.name);
  }

  /** What the creation of the baseline makes of the deployments. */
  ghost predicate BaselineThere(c: Cluster, c': Cluster, name: string)
    requires Known(c, name)
  {
    var d, p, b := Canary(c, name), PolicyOf(c, name), MakeBaselineName(name);
    && c'.deployments.Keys == c.deployments.Keys + {b} && Keeps(c.deployments, c'.deployments, {})
    && (b !in c.deployments ==>
          && p.base in c.deployments
          && BaselineMade(c'.deployments[b], name, ConfigName(c, name), Label(d.labels, POLICY_LABEL), p.mode,
                          d.spec, c.deployments[p.base].spec))
  }

  lemma CreatesBaseline(c: Cluster, name: string)
    requires Known(c, name) && !NoBaseline(c, name)
    ensures BaselineThere(c, CreateBaseline(c, name), name)
    ensures var c' := CreateBaseline(c, name); Known(c', name) && c' == c.(deployments := c'.deployments)
    ensures Canary(CreateBaseline(c, name), name) == Canary(c, name)
  {
    BaselineIsAnother(name);
    if MakeBaselineName(name) !in c.deployments {
      BaselineIsMade(Canary(c, name), c.deployments[PolicyOf(c, name).base], PolicyOf(c, name));
    }
  }

  lemma CreatesOthers(c: Cluster, name: string, c': Cluster)
    requires Known(c, name) && c'.policies == c.policies
    requires c'.services == CreateService(c, name).services && c'.configs == CreateConfig(c, name).configs
    ensures OthersThere(c, c', name)
  {
    Objects(Canary(c, name), PolicyOf(c, name));
  }

  lemma Creates(c: Cluster, name: string)
    requires Known(c, name) && !NoBaseline(c, name)
    ensures var c3 := CreateService(c, name);
            && Known(c3, name) && !NoBaseline(c3, name)
            && var c4 := CreateBaseline(c3, name);
               && Known(c4, name)
               && BaselineThere(c, CreateConfig(c4, name), name) && OthersThere(c, CreateConfig(c4, name), name)
  {
    var c3 := CreateService(c, name);
    assert Known(c3, name) && c3.deployments == c.deployments && c3.policies == c.policies;
    var c4 := CreateBaseline(c3, name);
    CreatesBaseline(c3, name);
    assert BaselineThere(c, c4, name);
    CreatesOthers(c, name, CreateConfig(c4, name));
  }

  /**
   A full pass that comes to its end makes the service, the baseline and the Canary, each under its name and
   as it should be, marks the canary deployment, and changes nothing else.
   */
  lemma PassMakes(c: Cluster, name: string)
    requires Completes(c, name)
    ensures OthersThere(c, FullPass(c, name), name) && DeploymentsThere(c, FullPass(c, name), name)
  {
    var c1 := NameConfig(c, name);
    var c2 := LabelTemplate(c1, name);
    Marks(c, name);
    assert !NoBaseline(c2, name);
    Creates(c2, name);
    var c3 := CreateService(c2, name);
    var c4 := CreateBaseline(c3, name);
    var c5 := CreateConfig(c4, name);
    Stands(c, name, c2, c5);
    PassInOrder(c, name, c1, c2, c3, c4, c5);
    OwnsOthers(c, name, c2, c5);
    Owns(c, name, c2, c5);
  }

  /** The cluster after the two updates of the canary. */
  ghost predicate Marked(c: Cluster, c2: Cluster, name: string)
    requires Known(c, name)
  {
    && Known(c2, name) && c2 == c.(deployments := c.deployments[name := c2.deployments[name]])
    && PolicyOf(c2, name) == PolicyOf(c, name) && ConfigName(c2, name) == ConfigName(c, name)
    && CanaryMarked(Canary(c, name), Canary(c2, name), ConfigName(c, name),
                    Label(Canary(c, name).labels, POLICY_LABEL), false)
    && Label(Canary(c2, name).labels, POLICY_LABEL) == Label(Canary(c, name).labels, POLICY_LABEL)
  }

  /** The creations leave the canary as it is, and nobody else's. */
  lemma Stands(c: Cluster, name: string, c2: Cluster, c5: Cluster)
    requires Completes(c, name) && Marked(c, c2, name)
    requires BaselineThere(c2, c5, name) && OthersThere(c2, c5, name)
    ensures Known(c5, name) && !Taken(c5, name) && Canary(c5, name) == Canary(c2, name)
    ensures ConfigName(c5, name) == ConfigName(c, name)
  {
  }

  lemma OwnsOthers(c: Cluster, name: string, c2: Cluster, c5: Cluster)
    requires Known(c, name) && Marked(c, c2, name) && Known(c5, name) && OthersThere(c2, c5, name)
    ensures OthersThere(c, Own(c5, name), name)
  {
  }

  lemma OwnsCanary(c: Cluster, name: string, c2: Cluster, c5: Cluster)
    requires Known(c, name) && Marked(c, c2, name) && Known(c5, name) && OthersThere(c2, c5, name)
    requires Canary(c5, name) == Canary(c2, name) && ConfigName(c5, name) == ConfigName(c, name)
    ensures var c6, n := Own(c5, name), ConfigName(c, name);
            && name in c6.deployments && n in c6.configs
            && c6 == c5.(deployments := c5.deployments[name := c6.deployments[name]])
            && c6.deployments[name].spec == c2.deployments[name].spec
            && CanaryMarked(Canary(c, name), c6.deployments[name], n, Label(Canary(c, name).labels, POLICY_LABEL),
                            c6.configs[n].owner.None?)
  {
    assert c5.deployments[name := c5.deployments[name]] == c5.deployments;
  }

  lemma Owns(c: Cluster, name: string, c2: Cluster, c5: Cluster)
    requires Known(c, name) && Marked(c, c2, name) && BaselineThere(c2, c5, name) && OthersThere(c2, c5, name)
    requires Known(c5, name) && Canary(c5, name) == Canary(c2, name) && ConfigName(c5, name) == ConfigName(c, name)
    ensures DeploymentsThere(c, Own(c5, name), name)
  {
    var b, p := MakeBaselineName(name), PolicyOf(c, name);
    BaselineIsAnother(name);
    OwnsCanary(c, name, c2, c5);
    var ds := c5.deployments[name := Own(c5, name).deployments[name]];
    assert ds.Keys == c.deployments.Keys + {b};
    if b !in c.deployments {
      assert ds[p.base].spec == c2.deployments[p.base].spec && ds[b] == c5.deployments[b];
    }
  }

  /** A pass that finds no baseline, and nothing to make one of, has made the service, and no Canary. */
  lemma PassStops(c: Cluster, name: string)
    requires Known(c, name) && NoBaseline(c, name)
    ensures var c', n := FullPass(c, name), ConfigName(c, name);
            && c'.deployments.Keys == c.deployments.Keys && Keeps(c.deployments, c'.deployments, {name})
            && c'.configs == c.configs && n in c'.services && Keeps(c.services, c'.services, {})
            && c'.services.Keys == c.services.Keys + {n}
  {
    var c1 := NameConfig(c, name);
    var c2 := LabelTemplate(c1, name);
    Marks(c, name);
    assert NoBaseline(c2, name);
    var c3 := CreateService(c2, name);
    assert Known(c3, name) && NoBaseline(c3, name);
    assert Pass(c3, name, 3, STEPS) == c3;
    assert Pass(c2, name, 2, STEPS) == c3 && Pass(c1, name, 1, STEPS) == c3;
    Objects(Canary(c2, name), PolicyOf(c2, name));
  }
}
