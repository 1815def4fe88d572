/** The objects the deployment controller creates, as values, and how their names and labels fit together. */
module DeploymentValues {
  import opened Wrappers
  import Values = VirtualServiceValues

  type Labels = map<string, string>

  const POLICY_LABEL := "krane.sh/canary-policy"
  const CONFIG_LABEL := "krane.sh/canary-config"
  const TIER_LABEL := "krane.sh/tier"
  const VERSION_LABEL := "version"
  const BASELINE := "baseline"
  const CANARY_SUFFIX := "-canary"
  const BASELINE_SUFFIX := "-baseline"

  lemma LabelsDiffer()
    ensures POLICY_LABEL != CONFIG_LABEL && POLICY_LABEL != TIER_LABEL && CONFIG_LABEL != TIER_LABEL
    ensures VERSION_LABEL != POLICY_LABEL && VERSION_LABEL != CONFIG_LABEL && VERSION_LABEL != TIER_LABEL
  {
    assert POLICY_LABEL[16] == 'p' && CONFIG_LABEL[16] == 'c';
    assert |TIER_LABEL| == 13 && |POLICY_LABEL| == 22 && |CONFIG_LABEL| == 22 && |VERSION_LABEL| == 7;
  }

  /** Reading a label that is not there gives the empty string. */
  function Label(labels: Labels, key: string): string {
    if key in labels then labels[key] else ""
  }

  /** A set of labels selects a template that carries them all. */
  predicate Selects(selector: Labels, labels: Labels) {
    forall k :: k in selector ==> k in labels && labels[k] == selector[k]
  }

  datatype Operator = In | NotIn | Exists | DoesNotExist

  /** A match expression. A label that is not there is in no set of values. */
  datatype Requirement = Requirement(key: string, operator: Operator, values: seq<string>) {
    predicate Matches(labels: Labels) {
      match operator
      case In => key in labels && labels[key] in values
      case NotIn => key in labels ==> labels[key] !in values
      case Exists => key in labels
      case DoesNotExist => key !in labels
    }
  }

  /** A deployment's selector asks for labels and for match expressions. */
  datatype Selector = Selector(labels: Labels, expressions: seq<Requirement>) {
    predicate Matches(template: Labels) {
      Selects(labels, template) && forall e :: e in expressions ==> e.Matches(template)
    }

    function With(key: string, value: string): Selector {
      this.(labels := labels[key := value])
    }
  }

  datatype Spec = Spec(replicas: Option<int>, selector: Selector, labels: Labels, containers: seq<string>)

  /** A controlling owner, by kind and name. */
  datatype Owner = DeploymentOwner(name: string) | CanaryOwner(name: string) | OtherOwner(name: string)

  datatype Deployment = Deployment(name: string, labels: Labels, spec: Spec, owner: Option<Owner>)

  datatype Port = Port(number: nat, name: string)

  datatype Service = Service(name: string, labels: Labels, selector: Labels, ports: seq<Port>, owner: Option<Owner>)

  datatype CanaryConfig = CanaryConfig(
    name: string, policy: string, canary: string, baseline: string, base: string, owner: Option<Owner>)

  datatype Mode = Unset | New | Old | Unknown

  datatype Policy = Policy(name: string, base: string, mode: Mode, ports: seq<Port>)

  // ----- names

  function TrimSuffix(s: string, suffix: string): string {
    if |suffix| <= |s| && s[|s| - |suffix|..] == suffix then s[..|s| - |suffix|] else s
  }

  function MakeCanaryConfigName(p: Policy, c: string): string {
    p.name + "-" + c
  }

  function MakeCanaryServiceName(p: Policy, c: string): string {
    p.name + "-" + c
  }

  function MakeBaselineName(c: string): string {
    TrimSuffix(c, CANARY_SUFFIX) + BASELINE_SUFFIX
  }

  /** The baseline is never the canary itself. */
  lemma BaselineIsAnother(c: string)
    ensures MakeBaselineName(c) != c
  {
    var t := TrimSuffix(c, CANARY_SUFFIX);
    if t != c {
      assert c == t + CANARY_SUFFIX;
      assert |CANARY_SUFFIX| == 7 && |BASELINE_SUFFIX| == 9;
    }
  }

  // ----- the objects

  /** The canary with the two labels its service selects by. */
  function LabelledTemplate(labels: Labels, config: string, policyLabel: string): Labels {
    labels[CONFIG_LABEL := config][POLICY_LABEL := policyLabel]
  }

  function ServiceFor(d: Deployment, p: Policy): Service {
    var config, policyLabel := MakeCanaryConfigName(p, d.name), Label(d.labels, POLICY_LABEL);
    Service(
      MakeCanaryServiceName(p, d.name),
      map[CONFIG_LABEL := config, POLICY_LABEL := policyLabel],
      map[CONFIG_LABEL := config, POLICY_LABEL := policyLabel],
      if p.ports == [] then [Port(80, "http")] else p.ports,
      Some(DeploymentOwner(d.name)))
  }

  function ConfigFor(d: Deployment, p: Policy): CanaryConfig {
    CanaryConfig(MakeCanaryConfigName(p, d.name), p.name, d.name, MakeBaselineName(d.name), p.base, None)
  }

  /** Where the baseline's specification comes from. */
  function SourceSpec(canary: Spec, base: Spec, mode: Mode): Spec {
    if mode == Old then base else canary.(containers := base.containers)
  }

  function BaselineSpec(source: Spec, config: string, policyLabel: string): Spec {
    Spec(
      Some(1),
      source.selector.With(TIER_LABEL, BASELINE).With(VERSION_LABEL, BASELINE),
      LabelledTemplate(source.labels[TIER_LABEL := BASELINE][VERSION_LABEL := BASELINE], config, policyLabel),
      source.containers)
  }

  function BaselineFor(d: Deployment, base: Deployment, p: Policy): Deployment {
    var config, policyLabel := MakeCanaryConfigName(p, d.name), Label(d.labels, POLICY_LABEL);
    Deployment(
      MakeBaselineName(d.name),
      map[TIER_LABEL := BASELINE, CONFIG_LABEL := config, POLICY_LABEL := policyLabel],
      BaselineSpec(SourceSpec(d.spec, base.spec, p.mode), config, policyLabel),
      Some(DeploymentOwner(d.name)))
  }

  // ----- the controller's own predicate

  predicate HasCanaryPolicyLabel(labels: Labels) {
    POLICY_LABEL in labels
  }

  predicate IsCanaryTier(labels: Labels) {
    Label(labels, TIER_LABEL) == "canary"
  }

  /** The deployments whose creations and updates the controller takes up. */
  predicate Watched(labels: Labels) {
    HasCanaryPolicyLabel(labels) && IsCanaryTier(labels)
  }

  /** The controller takes up what names a policy and is of the canary tier. */
  lemma CanaryTierIsWatched(labels: Labels)
    ensures Watched(labels) <==>
              && "krane.sh/canary-policy" in labels
              && "krane.sh/tier" in labels && labels["krane.sh/tier"] == "canary"
  {
  }

  // ----- label agreement

  /** The service is named like the Canary, and so like the host of the route that the canary controller adds. */
  lemma ServiceIsRouteHost(d: Deployment, p: Policy)
    ensures var route := Values.CanaryRoute(ConfigFor(d, p).name);
            Values.HostIs(route, ServiceFor(d, p).name)
  {
  }

  /** The canary's template after the controller has passed over it. */
  function TemplateAfter(d: Deployment, p: Policy): Labels {
    if Label(d.spec.labels, CONFIG_LABEL) != "" && Label(d.spec.labels, POLICY_LABEL) != "" then d.spec.labels
    else LabelledTemplate(d.spec.labels, MakeCanaryConfigName(p, d.name), Label(d.labels, POLICY_LABEL))
  }

  lemma TemplateSettles(d: Deployment, p: Policy, d': Deployment)
    requires d'.name == d.name && d'.spec.labels == TemplateAfter(d, p)
    requires Label(d'.labels, POLICY_LABEL) == Label(d.labels, POLICY_LABEL)
    ensures TemplateAfter(d', p) == d'.spec.labels
  {
    LabelsDiffer();
    var x, y := MakeCanaryConfigName(p, d.name), Label(d.labels, POLICY_LABEL);
    assert LabelledTemplate(LabelledTemplate(d.spec.labels, x, y), x, y) == LabelledTemplate(d.spec.labels, x, y);
  }

  /**
   The service selects the canary's pods if and only if the template had lacked one of the two labels,
   or had carried both with the values that the service asks for.
   */
  lemma ServiceSelectsCanary(d: Deployment, p: Policy)
    ensures Selects(ServiceFor(d, p).selector, TemplateAfter(d, p)) <==>
            || Label(d.spec.labels, CONFIG_LABEL) == "" || Label(d.spec.labels, POLICY_LABEL) == ""
            || (Label(d.spec.labels, CONFIG_LABEL) == MakeCanaryConfigName(p, d.name)
                && Label(d.spec.labels, POLICY_LABEL) == Label(d.labels, POLICY_LABEL))
  {
    LabelsDiffer();
    assert CONFIG_LABEL in ServiceFor(d, p).selector && POLICY_LABEL in ServiceFor(d, p).selector;
  }

  /** The failing side: a template that carries both labels, one of them with another config's name. */
  lemma LabelledForAnother()
    ensures var p := Policy("policy", "base", New, []);
            var labels := map[CONFIG_LABEL := "another", POLICY_LABEL := "policy"];
            var spec := Spec(None, Selector(map[], []), labels, []);
            var d := Deployment("app-canary", map[POLICY_LABEL := "policy"], spec, None);
            !Selects(ServiceFor(d, p).selector, TemplateAfter(d, p))
  {
    LabelsDiffer();
    var p := Policy("policy", "base", New, []);
    var labels := map[CONFIG_LABEL := "another", POLICY_LABEL := "policy"];
    var spec := Spec(None, Selector(map[], []), labels, []);
    var d := Deployment("app-canary", map[POLICY_LABEL := "policy"], spec, None);
    ServiceSelectsCanary(d, p);
    assert |MakeCanaryConfigName(p, d.name)| == |"policy"| + |"-"| + |"app-canary"|;
  }

  /** The service always selects the baseline's pods, in both modes. */
  lemma ServiceSelectsBaseline(d: Deployment, base: Deployment, p: Policy)
    ensures Selects(ServiceFor(d, p).selector, BaselineFor(d, base, p).spec.labels)
  {
    LabelsDiffer();
  }

  /** The baseline's selector selects nothing outside the baseline tier. */
  lemma BaselineSelectsItsTier(d: Deployment, base: Deployment, p: Policy, labels: Labels)
    requires BaselineFor(d, base, p).spec.selector.Matches(labels)
    ensures Label(labels, TIER_LABEL) == BASELINE
  {
    LabelsDiffer();
    assert TIER_LABEL in BaselineFor(d, base, p).spec.selector.labels;
  }

  /** The baseline is not itself taken for a canary. */
  lemma BaselineIsNotWatched(d: Deployment, base: Deployment, p: Policy)
    ensures !Watched(BaselineFor(d, base, p).labels)
  {
    LabelsDiffer();
    assert |BASELINE| != |"canary"|;
  }

  /** The four labels that the baseline's template gets, whatever the source's had. */
  function Overwritten(config: string, policyLabel: string): Labels {
    map[TIER_LABEL := BASELINE, VERSION_LABEL := BASELINE, CONFIG_LABEL := config, POLICY_LABEL := policyLabel]
  }

  /** The match expressions about labels in `given` hold of their values there. */
  predicate Allows(expressions: seq<Requirement>, given: Labels) {
    forall e :: e in expressions && e.key in given ==> e.Matches(given)
  }

  /**
   What a selector asks of the labels that the baseline gets, it asks rightly: their values in it are the
   new ones (tier and version are set in the selector as well), and its match expressions allow them.
   */
  predicate AsksRight(selector: Selector, config: string, policyLabel: string) {
    && (CONFIG_LABEL in selector.labels ==> selector.labels[CONFIG_LABEL] == config)
    && (POLICY_LABEL in selector.labels ==> selector.labels[POLICY_LABEL] == policyLabel)
    && Allows(selector.expressions, Overwritten(config, policyLabel))
  }

  /** The two templates differ in the overwritten labels only. */
  ghost predicate AgreeBeside(labels: Labels, labels': Labels, given: Labels) {
    forall k :: k !in given ==> (k in labels' <==> k in labels) && (k in labels ==> labels'[k] == labels[k])
  }

  lemma ExpressionsAfter(expressions: seq<Requirement>, labels: Labels, labels': Labels, given: Labels)
    requires forall e :: e in expressions ==> e.Matches(labels)
    requires AgreeBeside(labels, labels', given) && Selects(given, labels')
    ensures (forall e :: e in expressions ==> e.Matches(labels')) <==> Allows(expressions, given)
  {
    forall e | e in expressions
      ensures e.Matches(labels') <==> (e.key in given ==> e.Matches(given))
    {
      assert e.Matches(labels);
    }
  }

  /** A source whose selector selected its template, but for labels that are overwritten. */
  lemma BaselineSelects(source: Spec, labels: Labels, config: string, policyLabel: string)
    requires source.selector.Matches(labels)
    requires AgreeBeside(labels, source.labels, Overwritten(config, policyLabel))
    ensures var b := BaselineSpec(source, config, policyLabel);
            b.selector.Matches(b.labels) <==> AsksRight(source.selector, config, policyLabel)
  {
    LabelsDiffer();
    var b, asked := BaselineSpec(source, config, policyLabel), source.selector.labels;
    ExpressionsAfter(source.selector.expressions, labels, b.labels, Overwritten(config, policyLabel));
    if Selects(b.selector.labels, b.labels) {
      assert CONFIG_LABEL in asked ==> CONFIG_LABEL in b.selector.labels;
      assert POLICY_LABEL in asked ==> POLICY_LABEL in b.selector.labels;
    } else {
      var k :| k in b.selector.labels && !(k in b.labels && b.labels[k] == b.selector.labels[k]);
      assert k == CONFIG_LABEL || k == POLICY_LABEL;
    }
  }

  /**
   Where the source's selector selects its own template, the baseline's does so too if and only if the
   source's selector, match expressions included, asks for nothing else of the overwritten labels.
   */
  lemma BaselineSelectsItself(d: Deployment, base: Deployment, p: Policy)
    requires var source := SourceSpec(d.spec, base.spec, p.mode); source.selector.Matches(source.labels)
    ensures var source, b := SourceSpec(d.spec, base.spec, p.mode), BaselineFor(d, base, p).spec;
            b.selector.Matches(b.labels) <==>
              AsksRight(source.selector, MakeCanaryConfigName(p, d.name), Label(d.labels, POLICY_LABEL))
  {
    var source := SourceSpec(d.spec, base.spec, p.mode);
    BaselineSelects(source, source.labels, MakeCanaryConfigName(p, d.name), Label(d.labels, POLICY_LABEL));
  }

  /**
   From templates that started without the two labels, and were selected, it does so if and only if the
   match expressions allow the baseline's labels: always, where there are none about them.
   */
  lemma UnlabelledSourceAgrees(d: Deployment, base: Deployment, p: Policy)
    requires Unlabelled(d.spec) && d.spec.selector.Matches(d.spec.labels)
    requires Unlabelled(base.spec) && base.spec.selector.Matches(base.spec.labels)
    ensures var b := BaselineFor(d.(spec := d.spec.(labels := TemplateAfter(d, p))), base, p).spec;
            var given := Overwritten(MakeCanaryConfigName(p, d.name), Label(d.labels, POLICY_LABEL));
            b.selector.Matches(b.labels) <==> Allows(SourceSpec(d.spec, base.spec, p.mode).selector.expressions, given)
  {
    LabelsDiffer();
    var before := SourceSpec(d.spec, base.spec, p.mode);
    var after := SourceSpec(d.spec.(labels := TemplateAfter(d, p)), base.spec, p.mode);
    BaselineSelects(after, before.labels, MakeCanaryConfigName(p, d.name), Label(d.labels, POLICY_LABEL));
  }

  predicate Unlabelled(spec: Spec) {
    CONFIG_LABEL !in spec.labels && POLICY_LABEL !in spec.labels
  }

  /** The failing side: an expression that wants the version label absent lets the source be, but not its baseline. */
  lemma ExpressionForbids()
    ensures var p := Policy("policy", "base", Old, []);
            var selector := Selector(map[], [Requirement(VERSION_LABEL, DoesNotExist, [])]);
            var d := Deployment("app-canary", map[], Spec(None, Selector(map[], []), map[], []), None);
            var base := Deployment("base", map[], Spec(None, selector, map[], []), None);
            && base.spec.selector.Matches(base.spec.labels)
            && !BaselineFor(d, base, p).spec.selector.Matches(BaselineFor(d, base, p).spec.labels)
  {
    var e := Requirement(VERSION_LABEL, DoesNotExist, []);
    var p, selector := Policy("policy", "base", Old, []), Selector(map[], [e]);
    var d := Deployment("app-canary", map[], Spec(None, Selector(map[], []), map[], []), None);
    var base := Deployment("base", map[], Spec(None, selector, map[], []), None);
    BaselineSelectsItself(d, base, p);
    assert e in selector.expressions && !e.Matches(Overwritten(MakeCanaryConfigName(p, d.name), ""));
  }
}
