/**
 The script's first part takes back what its second part has set up: when exactly, and what stays behind
 otherwise.
 */
module SidecarTeardown {
  import opened Wrappers
  import opened PacketFilter
  import opened SidecarRules

  /** Tables as they are before the script has ever run. */
  predicate CleanNat(t: Table) {
    && Linked(t) && PREROUTING in t && OUTPUT in t
    && ISTIO_REDIRECT !in t && ISTIO_IN_REDIRECT !in t && ISTIO_OUTPUT !in t && ISTIO_INBOUND !in t
  }

  predicate CleanMangle(t: Table) {
    && Linked(t) && PREROUTING in t
    && ISTIO_INBOUND !in t && ISTIO_DIVERT !in t && ISTIO_TPROXY !in t
  }

  /** Rules that jump nowhere but to `chain`. */
  predicate OnlyTo(rules: seq<Rule>, chains: set<string>) {
    forall i :: 0 <= i < |rules| && rules[i].target.Jump? ==> rules[i].target.chain in chains
  }

  // ----- references

  lemma Unlinked(t: Table, c: string)
    requires Linked(t) && c !in t
    ensures !Referenced(t, c)
  {
  }

  lemma ReferencedUnion(b: Table, m: Table, c: string)
    requires b.Keys !! m.Keys
    ensures Referenced(b + m, c) <==> Referenced(b, c) || Referenced(m, c)
  {
    if Referenced(b, c) {
      var d :| d in b && JumpsTo(b[d], c);
      assert (b + m)[d] == b[d];
    }
    if Referenced(m, c) {
      var d :| d in m && JumpsTo(m[d], c);
      assert (b + m)[d] == m[d];
    }
  }

  lemma JumpsToUnion(a: seq<Rule>, b: seq<Rule>, c: string)
    ensures JumpsTo(a + b, c) <==> JumpsTo(a, c) || JumpsTo(b, c)
  {
    if JumpsTo(a, c) {
      var i :| 0 <= i < |a| && a[i].target == Jump(c);
      assert (a + b)[i].target == Jump(c);
    }
    if JumpsTo(b, c) {
      var i :| 0 <= i < |b| && b[i].target == Jump(c);
      assert (a + b)[|a| + i].target == Jump(c);
    }
  }

  lemma FlushedReferences(m: Table, c: string)
    ensures Referenced(m[c := []], c) ==> Referenced(m - {c}, c)
  {
    if Referenced(m[c := []], c) {
      var d :| d in m[c := []] && JumpsTo(m[c := []][d], c);
      assert d != c && (m - {c})[d] == m[d];
    }
  }

  // ----- removing a chain from a table `b` with some chains `m` on top

  lemma RemoveChain(b: Table, m: Table, c: string)
    requires b.Keys !! m.Keys && c !in b && !Referenced(b, c) && !Referenced(m - {c}, c)
    ensures Remove(b + m, c) == b + (m - {c})
    ensures c in m ==> !Referenced(Exec(b + m, Command.Flush(c)), c)
  {
    if c in m {
      var flushed := b + m[c := []];
      assert (b + m)[c := []] == flushed;
      assert m[c := []].Keys == m.Keys;
      ReferencedUnion(b, m[c := []], c);
      FlushedReferences(m, c);
      assert flushed - {c} == b + (m - {c});
    } else {
      assert m - {c} == m;
    }
  }

  lemma KeepReferenced(b: Table, m: Table, c: string)
    requires b.Keys !! m.Keys && c in m && Referenced(b, c)
    ensures Remove(b + m, c) == b + m[c := []]
  {
    assert (b + m)[c := []] == b + m[c := []];
    assert m[c := []].Keys == m.Keys;
    ReferencedUnion(b, m[c := []], c);
  }

  // ----- the jumps of the generated chains

  lemma {:induction false} ListedPortsJumps(cfg: Config, ports: seq<nat>)
    ensures OnlyTo(ListedPorts(cfg, ports), if cfg.tproxy then {ISTIO_DIVERT, ISTIO_TPROXY} else {ISTIO_IN_REDIRECT})
  {
    if ports != [] {
      ListedPortsJumps(cfg, ports[..|ports| - 1]);
    }
  }

  lemma InboundJumps(cfg: Config)
    ensures OnlyTo(InboundChain(cfg), if cfg.tproxy then {ISTIO_DIVERT, ISTIO_TPROXY} else {ISTIO_IN_REDIRECT})
  {
    match cfg.inPorts
    case Only(ports) => ListedPortsJumps(cfg, ports);
    case Everything =>
  }

  lemma OutputJumps(cfg: Config)
    ensures OnlyTo(OutputChain(cfg), {ISTIO_REDIRECT})
  {
    assert OnlyTo(Exemptions(cfg), {});
  }

  lemma {:induction false} ReturnFromJumps(interfaces: seq<string>)
    ensures OnlyTo(ReturnFrom(interfaces), {}) && |ReturnFrom(interfaces)| == |interfaces|
  {
    if interfaces != [] {
      ReturnFromJumps(interfaces[..|interfaces| - 1]);
    }
  }

  lemma {:induction false} RedirectFromJumps(interfaces: seq<string>)
    ensures OnlyTo(RedirectFrom(interfaces), {ISTIO_REDIRECT})
    ensures interfaces != [] ==> JumpsTo(RedirectFrom(interfaces), ISTIO_REDIRECT)
  {
    if interfaces != [] {
      RedirectFromJumps(interfaces[..|interfaces| - 1]);
      assert RedirectFrom(interfaces)[0].target == Jump(ISTIO_REDIRECT);
    }
  }

  lemma {:induction false} RedirectRangeFromJumps(range: string, interfaces: seq<string>)
    ensures OnlyTo(RedirectRangeFrom(range, interfaces), {ISTIO_REDIRECT})
    ensures interfaces != [] ==> JumpsTo(RedirectRangeFrom(range, interfaces), ISTIO_REDIRECT)
    ensures interfaces == [] ==> RedirectRangeFrom(range, interfaces) == []
  {
    if interfaces != [] {
      RedirectRangeFromJumps(range, interfaces[..|interfaces| - 1]);
      assert RedirectRangeFrom(range, interfaces)[0].target == Jump(ISTIO_REDIRECT);
    }
  }

  lemma {:induction false} RedirectRangesFromJumps(ranges: seq<string>, interfaces: seq<string>)
    ensures OnlyTo(RedirectRangesFrom(ranges, interfaces), {ISTIO_REDIRECT})
    ensures ranges != [] && interfaces != [] ==> JumpsTo(RedirectRangesFrom(ranges, interfaces), ISTIO_REDIRECT)
    ensures interfaces == [] ==> RedirectRangesFrom(ranges, interfaces) == []
  {
    if ranges != [] {
      var n := |ranges| - 1;
      RedirectRangesFromJumps(ranges[..n], interfaces);
      RedirectRangeFromJumps(ranges[n], interfaces);
      JumpsToUnion(RedirectRangeFrom(ranges[n], interfaces), RedirectRangesFrom(ranges[..n], interfaces),
                   ISTIO_REDIRECT);
    }
  }

  /** A rule in PREROUTING goes on redirecting: there are virtual interfaces and something to redirect from them. */
  predicate Stuck(cfg: Config) {
    cfg.interfaces != [] && cfg.outRanges != Only([])
  }

  lemma FrontJumps(cfg: Config)
    ensures OnlyTo(Front(cfg), {ISTIO_REDIRECT})
    ensures JumpsTo(Front(cfg), ISTIO_REDIRECT) <==> Stuck(cfg)
    ensures Front(cfg) == [] <==> cfg.interfaces == []
  {
    ReturnFromJumps(cfg.interfaces);
    RedirectFromJumps(cfg.interfaces);
    var first := match cfg.outRanges
                 case Everything => RedirectFrom(cfg.interfaces)
                 case Only(ranges) => RedirectRangesFrom(ranges, cfg.interfaces);
    if cfg.outRanges.Only? {
      RedirectRangesFromJumps(cfg.outRanges.list, cfg.interfaces);
    }
    JumpsToUnion(first, ReturnFrom(cfg.interfaces), ISTIO_REDIRECT);
    assert Front(cfg) == first + ReturnFrom(cfg.interfaces);
  }

  // ----- the nat table

  /** The chains that the script has put into the nat table. */
  function NatChains(cfg: Config): Table {
    map[ISTIO_REDIRECT := RedirectChain(cfg.proxyPort), ISTIO_IN_REDIRECT := RedirectChain(cfg.capturePort),
        ISTIO_OUTPUT := OutputChain(cfg)]
    + (if InNat(cfg) then map[ISTIO_INBOUND := InboundChain(cfg)] else map[])
  }

  /** The table below them, once the jumps are deleted. */
  function NatBase(cfg: Config, t: Table): Table
    requires PREROUTING in t
  {
    t[PREROUTING := Front(cfg) + t[PREROUTING]]
  }

  lemma NoJumpInFront(cfg: Config, jump: Rule)
    requires jump.target.Jump? && jump.target.chain != ISTIO_REDIRECT
    ensures jump !in Front(cfg)
  {
    FrontJumps(cfg);
  }

  lemma NoJumpYet(t: Table, c: string, jump: Rule)
    requires Linked(t) && jump.target.Jump? && jump.target.chain !in t && c in t
    ensures jump !in t[c]
  {
  }

  lemma DeleteAppended(t: Table, c: string, rules: seq<Rule>, rule: Rule)
    requires c in t && t[c] == rules + [rule] && rule !in rules
    ensures Exec(t, Delete(c, rule)) == t[c := rules]
  {
    RemoveLast(rules, rule);
    assert rule == (rules + [rule])[|rules|];
  }

  lemma InboundJumpDeleted(cfg: Config, t: Table, t0: Table)
    requires CleanNat(t) && PREROUTING in t0
    requires t0[PREROUTING] == Front(cfg) + t[PREROUTING] + if InNat(cfg) then [INBOUND_JUMP] else []
    ensures Exec(t0, Delete(PREROUTING, INBOUND_JUMP)) == t0[PREROUTING := Front(cfg) + t[PREROUTING]]
  {
    var pre := Front(cfg) + t[PREROUTING];
    NoJumpInFront(cfg, INBOUND_JUMP);
    NoJumpYet(t, PREROUTING, INBOUND_JUMP);
    assert INBOUND_JUMP !in pre;
    if InNat(cfg) {
      DeleteAppended(t0, PREROUTING, pre, INBOUND_JUMP);
    } else {
      assert t0[PREROUTING] == pre;
      assert t0[PREROUTING := pre] == t0;
    }
  }

  lemma InstalledPrerouting(cfg: Config, t: Table)
    requires CleanNat(t)
    ensures PREROUTING in InstalledNat(cfg, t)
    ensures InstalledNat(cfg, t)[PREROUTING] == Front(cfg) + t[PREROUTING] + if InNat(cfg) then [INBOUND_JUMP] else []
  {
    assert Front(cfg) + (t[PREROUTING] + [INBOUND_JUMP]) == Front(cfg) + t[PREROUTING] + [INBOUND_JUMP];
    assert Front(cfg) + t[PREROUTING] + [] == Front(cfg) + t[PREROUTING];
  }

  lemma InstalledIs(cfg: Config, t: Table)
    requires CleanNat(t)
    ensures InstalledNat(cfg, t) ==
            (NatBase(cfg, t) + NatChains(cfg))
              [OUTPUT := t[OUTPUT] + [OUTPUT_JUMP]]
              [PREROUTING := Front(cfg) + t[PREROUTING] + if InNat(cfg) then [INBOUND_JUMP] else []]
  {
    InstalledPrerouting(cfg, t);
    assert InstalledNat(cfg, t)[OUTPUT] == t[OUTPUT] + [OUTPUT_JUMP];
  }

  lemma JumpsDeleted(cfg: Config, t: Table)
    requires CleanNat(t)
    ensures Exec(Exec(InstalledNat(cfg, t), Delete(PREROUTING, INBOUND_JUMP)), Delete(OUTPUT, OUTPUT_JUMP)) ==
            NatBase(cfg, t) + NatChains(cfg)
  {
    var b := NatBase(cfg, t) + NatChains(cfg);
    var t1 := b[OUTPUT := t[OUTPUT] + [OUTPUT_JUMP]];
    InstalledIs(cfg, t);
    InboundJumpDeleted(cfg, t, InstalledNat(cfg, t));
    BaseHolds(cfg, t);
    RestoreBoth(b, t1, InstalledNat(cfg, t), Front(cfg) + t[PREROUTING]);
    NoJumpYet(t, OUTPUT, OUTPUT_JUMP);
    DeleteAppended(t1, OUTPUT, t[OUTPUT], OUTPUT_JUMP);
    assert t1[OUTPUT := t[OUTPUT]] == b;
  }

  lemma BaseHolds(cfg: Config, t: Table)
    requires CleanNat(t)
    ensures var b := NatBase(cfg, t) + NatChains(cfg);
            && PREROUTING in b && b[PREROUTING] == Front(cfg) + t[PREROUTING]
            && OUTPUT in b && b[OUTPUT] == t[OUTPUT]
  {
  }

  lemma RestoreBoth(b: Table, t1: Table, t0: Table, pre: seq<Rule>)
    requires PREROUTING in b && b[PREROUTING] == pre && OUTPUT in b && OUTPUT in t1 && t1 == b[OUTPUT := t1[OUTPUT]]
    requires PREROUTING in t0 && t0 == t1[PREROUTING := t0[PREROUTING]]
    ensures t0[PREROUTING := pre] == t1
  {
  }

  lemma BaseReferences(cfg: Config, t: Table, c: string)
    requires CleanNat(t) && c !in t
    ensures Referenced(NatBase(cfg, t), c) <==> c == ISTIO_REDIRECT && Stuck(cfg)
  {
    FrontJumps(cfg);
    JumpsToUnion(Front(cfg), t[PREROUTING], ISTIO_REDIRECT);
    var b := NatBase(cfg, t);
    if JumpsTo(Front(cfg), ISTIO_REDIRECT) {
      assert JumpsTo(b[PREROUTING], ISTIO_REDIRECT);
    }
    if Referenced(b, c) {
      var d :| d in b && JumpsTo(b[d], c);
      JumpsToUnion(Front(cfg), t[PREROUTING], c);
      Unlinked(t, c);
      assert !JumpsTo(t[d], c);
    }
  }

  /** The chains of the script jump to the two redirecting ones only, and the inbound chain to its own alone. */
  lemma ChainReferences(cfg: Config, m: Table, c: string)
    requires m.Keys <= NatChains(cfg).Keys && forall d :: d in m ==> m[d] == NatChains(cfg)[d]
    requires c == ISTIO_REDIRECT ==> ISTIO_OUTPUT !in m
    requires c == ISTIO_IN_REDIRECT ==> ISTIO_INBOUND !in m
    ensures !Referenced(m - {c}, c)
  {
    InboundJumps(cfg);
    OutputJumps(cfg);
  }

  /** What teardown leaves in the nat table after a run. */
  function LeftInNat(cfg: Config, t: Table): Table
    requires PREROUTING in t
  {
    if Stuck(cfg) then NatBase(cfg, t)[ISTIO_REDIRECT := []] else NatBase(cfg, t)
  }

  lemma NatAfterTeardown(cfg: Config, t: Table)
    requires CleanNat(t)
    ensures TornDownNat(InstalledNat(cfg, t)) == LeftInNat(cfg, t)
  {
    JumpsDeleted(cfg, t);
    var b, m := NatBase(cfg, t), NatChains(cfg);
    assert b.Keys == t.Keys;
    BaseReferences(cfg, t, ISTIO_OUTPUT);
    ChainReferences(cfg, m, ISTIO_OUTPUT);
    RemoveChain(b, m, ISTIO_OUTPUT);
    var m1 := m - {ISTIO_OUTPUT};
    BaseReferences(cfg, t, ISTIO_INBOUND);
    ChainReferences(cfg, m1, ISTIO_INBOUND);
    RemoveChain(b, m1, ISTIO_INBOUND);
    RedirectsAreLeft(cfg);
    RedirectsRemoved(cfg, t, b, m1 - {ISTIO_INBOUND});
  }

  function RedirectChains(cfg: Config): Table {
    map[ISTIO_REDIRECT := RedirectChain(cfg.proxyPort), ISTIO_IN_REDIRECT := RedirectChain(cfg.capturePort)]
  }

  lemma RedirectsAreLeft(cfg: Config)
    ensures NatChains(cfg) - {ISTIO_OUTPUT} - {ISTIO_INBOUND} == RedirectChains(cfg)
  {
  }

  lemma RedirectsRemoved(cfg: Config, t: Table, b: Table, m: Table)
    requires CleanNat(t) && b == NatBase(cfg, t) && m == RedirectChains(cfg)
    ensures Remove(Remove(b + m, ISTIO_REDIRECT), ISTIO_IN_REDIRECT) == LeftInNat(cfg, t)
  {
    BaseReferences(cfg, t, ISTIO_REDIRECT);
    BaseReferences(cfg, t, ISTIO_IN_REDIRECT);
    assert b.Keys == t.Keys;
    TwoRedirects(b, m, RedirectChain(cfg.proxyPort), RedirectChain(cfg.capturePort));
    if Stuck(cfg) {
      assert b + map[ISTIO_REDIRECT := []] == b[ISTIO_REDIRECT := []];
    }
  }

  lemma TwoRedirects(b: Table, m: Table, r: seq<Rule>, i: seq<Rule>)
    requires m == map[ISTIO_REDIRECT := r, ISTIO_IN_REDIRECT := i] && OnlyTo(r, {}) && OnlyTo(i, {})
    requires b.Keys !! m.Keys && !Referenced(b, ISTIO_IN_REDIRECT)
    ensures Remove(Remove(b + m, ISTIO_REDIRECT), ISTIO_IN_REDIRECT) ==
            if Referenced(b, ISTIO_REDIRECT) then b + map[ISTIO_REDIRECT := []] else b
  {
    if Referenced(b, ISTIO_REDIRECT) {
      KeepReferenced(b, m, ISTIO_REDIRECT);
      OneLeft(b, map[ISTIO_REDIRECT := [], ISTIO_IN_REDIRECT := i], map[ISTIO_REDIRECT := []]);
      assert m[ISTIO_REDIRECT := []] == map[ISTIO_REDIRECT := [], ISTIO_IN_REDIRECT := i];
    } else {
      assert m - {ISTIO_REDIRECT} == map[ISTIO_IN_REDIRECT := i];
      RemoveChain(b, m, ISTIO_REDIRECT);
      OneLeft(b, map[ISTIO_IN_REDIRECT := i], map[]);
      assert b + map[] == b;
    }
  }

  lemma OneLeft(b: Table, m: Table, m': Table)
    requires b.Keys !! m.Keys && ISTIO_IN_REDIRECT !in b && !Referenced(b, ISTIO_IN_REDIRECT)
    requires m' == m - {ISTIO_IN_REDIRECT} && !Referenced(m', ISTIO_IN_REDIRECT)
    ensures Remove(b + m, ISTIO_IN_REDIRECT) == b + m'
  {
    RemoveChain(b, m, ISTIO_IN_REDIRECT);
  }

  // ----- the mangle table

  function MangleChains(cfg: Config): Table {
    map[ISTIO_DIVERT := DivertChain(cfg), ISTIO_TPROXY := TproxyChain(cfg), ISTIO_INBOUND := InboundChain(cfg)]
  }

  lemma MangleJumpDeleted(cfg: Config, t: Table)
    requires CleanMangle(t) && InMangle(cfg)
    ensures Exec(InstalledMangle(cfg, t), Delete(PREROUTING, INBOUND_JUMP)) == t + MangleChains(cfg)
  {
    var t0 := InstalledMangle(cfg, t);
    NoJumpYet(t, PREROUTING, INBOUND_JUMP);
    DeleteAppended(t0, PREROUTING, t[PREROUTING], INBOUND_JUMP);
    assert t0[PREROUTING := t[PREROUTING]] == t + MangleChains(cfg);
  }

  lemma MangleChainsRemoved(cfg: Config, t: Table, m: Table)
    requires CleanMangle(t) && m == MangleChains(cfg)
    ensures Remove(Remove(Remove(t + m, ISTIO_INBOUND), ISTIO_DIVERT), ISTIO_TPROXY) == t
  {
    Unlinked(t, ISTIO_INBOUND);
    Unlinked(t, ISTIO_DIVERT);
    Unlinked(t, ISTIO_TPROXY);
    var m1 := map[ISTIO_DIVERT := DivertChain(cfg), ISTIO_TPROXY := TproxyChain(cfg)];
    var m2 := map[ISTIO_TPROXY := TproxyChain(cfg)];
    assert m - {ISTIO_INBOUND} == m1 && m1 - {ISTIO_DIVERT} == m2 && m2 - {ISTIO_TPROXY} == map[];
    RemoveChain(t, m, ISTIO_INBOUND);
    RemoveChain(t, m1, ISTIO_DIVERT);
    RemoveChain(t, m2, ISTIO_TPROXY);
    assert t + map[] == t;
  }

  lemma MangleAfterTeardown(cfg: Config, t: Table)
    requires CleanMangle(t)
    ensures TornDownMangle(InstalledMangle(cfg, t)) == t
  {
    if InMangle(cfg) {
      MangleJumpDeleted(cfg, t);
      MangleChainsRemoved(cfg, t, MangleChains(cfg));
    } else {
      NothingToTear(t);
    }
  }

  lemma NothingToTear(t: Table)
    requires CleanMangle(t)
    ensures TornDownMangle(t) == t
  {
  }

  /** Whatever the tables, no chain is dropped while a rule still jumps to it. */
  lemma TeardownKeepsLinks(t: Table)
    requires Linked(t)
    ensures Linked(TornDownNat(t)) && Linked(TornDownMangle(t))
  {
    ExecKeepsLinks(t, Delete(PREROUTING, INBOUND_JUMP));
    var t1 := Exec(t, Delete(PREROUTING, INBOUND_JUMP));
    ExecKeepsLinks(t1, Delete(OUTPUT, OUTPUT_JUMP));
    var t2 := Exec(t1, Delete(OUTPUT, OUTPUT_JUMP));
    RemoveKeepsLinks(t2, ISTIO_OUTPUT);
    RemoveKeepsLinks(Remove(t2, ISTIO_OUTPUT), ISTIO_INBOUND);
    RemoveKeepsLinks(Remove(Remove(t2, ISTIO_OUTPUT), ISTIO_INBOUND), ISTIO_REDIRECT);
    RemoveKeepsLinks(Remove(Remove(Remove(t2, ISTIO_OUTPUT), ISTIO_INBOUND), ISTIO_REDIRECT), ISTIO_IN_REDIRECT);
    RemoveKeepsLinks(t1, ISTIO_INBOUND);
    RemoveKeepsLinks(Remove(t1, ISTIO_INBOUND), ISTIO_DIVERT);
    RemoveKeepsLinks(Remove(Remove(t1, ISTIO_INBOUND), ISTIO_DIVERT), ISTIO_TPROXY);
  }

  lemma RemoveKeepsLinks(t: Table, c: string)
    requires Linked(t)
    ensures Linked(Remove(t, c))
  {
    ExecKeepsLinks(t, Command.Flush(c));
    ExecKeepsLinks(Exec(t, Command.Flush(c)), Drop(c));
  }

  // ----- the results

  lemma LeftIsCleanIff(cfg: Config, t: Table)
    requires CleanNat(t) && (Front(cfg) == [] <==> cfg.interfaces == [])
    ensures LeftInNat(cfg, t) == t <==> cfg.interfaces == []
  {
    if cfg.interfaces == [] {
      assert Front(cfg) + t[PREROUTING] == t[PREROUTING];
      assert NatBase(cfg, t) == t;
    } else {
      assert LeftInNat(cfg, t)[PREROUTING] == Front(cfg) + t[PREROUTING];
      assert |LeftInNat(cfg, t)[PREROUTING]| > |t[PREROUTING]|;
    }
  }

  /**
   Teardown inverts setup. The delete, flush and drop commands restore both tables exactly as they were
   before the run if and only if the run had no virtual interfaces.
   */
  lemma TeardownInvertsSetup(cfg: Config, natTable: Table, mangleTable: Table)
    requires CleanNat(natTable) && CleanMangle(mangleTable)
    ensures TornDownNat(InstalledNat(cfg, natTable)) == natTable <==> cfg.interfaces == []
    ensures TornDownMangle(InstalledMangle(cfg, mangleTable)) == mangleTable
  {
    NatAfterTeardown(cfg, natTable);
    MangleAfterTeardown(cfg, mangleTable);
    FrontJumps(cfg);
    LeftIsCleanIff(cfg, natTable);
  }

  // ----- from any tables on which a run completes

  /** A chain that dropping leaves alone: it is absent, or empty and in use. */
  predicate Undroppable(t: Table, c: string) {
    c in t ==> t[c] == [] && Referenced(t, c)
  }

  /** Teardown finds nothing to do in the nat table. */
  predicate IdleNat(t: Table)
    requires PREROUTING in t && OUTPUT in t
  {
    && INBOUND_JUMP !in t[PREROUTING] && OUTPUT_JUMP !in t[OUTPUT]
    && Undroppable(t, ISTIO_OUTPUT) && Undroppable(t, ISTIO_INBOUND)
    && Undroppable(t, ISTIO_REDIRECT) && Undroppable(t, ISTIO_IN_REDIRECT)
  }

  /** Teardown finds nothing to do in the mangle table. */
  predicate IdleMangle(t: Table)
    requires PREROUTING in t
  {
    && INBOUND_JUMP !in t[PREROUTING]
    && Undroppable(t, ISTIO_INBOUND) && Undroppable(t, ISTIO_DIVERT) && Undroppable(t, ISTIO_TPROXY)
  }

  /** No chain has come or grown. */
  predicate Shrinks(t: Table, t': Table) {
    t'.Keys <= t.Keys && forall c :: c in t' ==> |t'[c]| <= |t[c]|
  }

  lemma ShrinksTwice(t: Table, t': Table, t'': Table)
    requires Shrinks(t, t') && Shrinks(t', t'')
    ensures Shrinks(t, t'')
  {
  }

  lemma {:induction false} RemoveFirstIs(rules: seq<Rule>, rule: Rule, i: nat)
    requires i < |rules| && rules[i] == rule && forall j :: 0 <= j < i ==> rules[j] != rule
    ensures RemoveFirst(rules, rule) == rules[..i] + rules[i + 1..]
  {
    if i > 0 {
      RemoveFirstIs(rules[1..], rule, i - 1);
      assert rules == [rules[0]] + rules[1..];
    }
  }

  lemma {:induction false} FirstOf(rules: seq<Rule>, rule: Rule) returns (i: nat)
    requires rule in rules
    ensures i < |rules| && rules[i] == rule && forall j :: 0 <= j < i ==> rules[j] != rule
  {
    if rules[0] == rule {
      i := 0;
    } else {
      i := FirstOf(rules[1..], rule);
      assert forall j :: 1 <= j < |rules| ==> rules[j] == rules[1..][j - 1];
      i := i + 1;
    }
  }

  /** A deletion that can be taken back by nothing but shrinking has deleted nothing. */
  lemma DeleteBack(t: Table, c: string, rule: Rule)
    requires c in t
    ensures var t' := Exec(t, Delete(c, rule));
            && Shrinks(t, t') && t'.Keys == t.Keys && (forall d :: d in t && d != c ==> t'[d] == t[d])
            && (Shrinks(t', t) <==> rule !in t[c]) && (rule !in t[c] ==> t' == t)
  {
    if rule in t[c] {
      var i := FirstOf(t[c], rule);
      RemoveFirstIs(t[c], rule, i);
      assert |Exec(t, Delete(c, rule))[c]| < |t[c]|;
    }
  }

  /** The same for the removal of a chain. */
  lemma RemoveBack(t: Table, c: string)
    ensures var t' := Remove(t, c);
            && Shrinks(t, t') && t.Keys - {c} <= t'.Keys && (forall d :: d in t && d != c ==> t'[d] == t[d])
            && (Shrinks(t', t) <==> Undroppable(t, c)) && (Undroppable(t, c) ==> t' == t)
  {
    if c in t && t[c] == [] {
      assert t[c := []] == t;
    }
  }

  /** Three removals in a row. */
  lemma RemovesBack(t: Table, c: string, d: string, e: string)
    ensures var t' := Remove(Remove(Remove(t, c), d), e);
            && Shrinks(t, t')
            && (Shrinks(t', t) <==> Undroppable(t, c) && Undroppable(t, d) && Undroppable(t, e))
            && (Shrinks(t', t) ==> t' == t)
  {
    var t1, t2, t3 := Remove(t, c), Remove(Remove(t, c), d), Remove(Remove(Remove(t, c), d), e);
    RemoveBack(t, c);
    RemoveBack(t1, d);
    RemoveBack(t2, e);
    ShrinksTwice(t, t1, t2);
    ShrinksTwice(t, t2, t3);
    if Shrinks(t3, t) {
      ShrinksTwice(t2, t3, t);
      ShrinksTwice(t1, t2, t);
    }
  }

  lemma MangleIdle(t: Table)
    requires PREROUTING in t
    ensures TornDownMangle(t) == t <==> IdleMangle(t)
  {
    var t1 := Exec(t, Delete(PREROUTING, INBOUND_JUMP));
    DeleteBack(t, PREROUTING, INBOUND_JUMP);
    RemovesBack(t1, ISTIO_INBOUND, ISTIO_DIVERT, ISTIO_TPROXY);
    if TornDownMangle(t) == t {
      assert Shrinks(t1, t);
    }
  }

  lemma NatIdle(t: Table)
    requires PREROUTING in t && OUTPUT in t
    ensures TornDownNat(t) == t <==> IdleNat(t)
  {
    var t1 := Exec(t, Delete(PREROUTING, INBOUND_JUMP));
    var t2 := Exec(t1, Delete(OUTPUT, OUTPUT_JUMP));
    var t3 := Remove(t2, ISTIO_OUTPUT);
    DeleteBack(t, PREROUTING, INBOUND_JUMP);
    DeleteBack(t1, OUTPUT, OUTPUT_JUMP);
    RemoveBack(t2, ISTIO_OUTPUT);
    RemovesBack(t3, ISTIO_INBOUND, ISTIO_REDIRECT, ISTIO_IN_REDIRECT);
    if TornDownNat(t) == t {
      ShrinksTwice(t2, t3, t);
      ShrinksTwice(t1, t2, t);
    }
  }

  // ----- a nat table in which somebody else keeps a chain of the inbound one's name

  lemma RemoveBelow(b: Table, m: Table, c: string)
    requires b.Keys !! m.Keys && c in b && !Referenced(m, c)
    ensures Remove(b + m, c) == Remove(b, c) + m
  {
    assert (b + m)[c := []] == b[c := []] + m;
    assert b[c := []].Keys == b.Keys;
    ReferencedUnion(b[c := []], m, c);
    assert (b[c := []] + m) - {c} == (b[c := []] - {c}) + m;
  }

  lemma {:induction false} RemoveBehind(front: seq<Rule>, rules: seq<Rule>, rule: Rule)
    requires rule !in front && rule in rules
    ensures RemoveFirst(front + rules, rule) == front + RemoveFirst(rules, rule)
  {
    if front == [] {
      assert front + rules == rules;
    } else {
      RemoveBehind(front[1..], rules, rule);
      assert (front + rules)[1..] == front[1..] + rules;
    }
  }

  /** The deletion of a rule behind others, and without them. */
  lemma DeleteBehind(t: Table, u: Table, front: seq<Rule>, c: string, rule: Rule)
    requires c in t && c in u && u[c] == front + t[c] && rule !in front
    ensures c in Exec(t, Delete(c, rule)) && Exec(u, Delete(c, rule)) == u[c := front + Exec(t, Delete(c, rule))[c]]
  {
    if rule in t[c] {
      RemoveBehind(front, t[c], rule);
      assert rule in front + t[c];
    } else {
      assert rule !in u[c];
      assert u[c := u[c]] == u;
    }
  }

  /** A run without an inbound chain in nat. */
  lemma InstalledOver(cfg: Config, t: Table)
    requires PREROUTING in t && OUTPUT in t && !InNat(cfg)
    ensures InstalledNat(cfg, t) == (NatBase(cfg, t) + NatChains(cfg))[OUTPUT := t[OUTPUT] + [OUTPUT_JUMP]]
  {
  }

  /** A nat table on which a run can complete. */
  ghost predicate FreeNat(cfg: Config, t: Table) {
    && Linked(t) && PREROUTING in t && OUTPUT in t && (InNat(cfg) ==> ISTIO_INBOUND !in t)
    && ISTIO_REDIRECT !in t && ISTIO_IN_REDIRECT !in t && ISTIO_OUTPUT !in t
  }

  /** After any run, the deletion of the jumps leaves the script's chains and its rules in front. */
  lemma JumpsGone(cfg: Config, t: Table)
    requires FreeNat(cfg, t)
    ensures var t1 := Exec(t, Delete(PREROUTING, INBOUND_JUMP));
            && PREROUTING in t1
            && Exec(Exec(InstalledNat(cfg, t), Delete(PREROUTING, INBOUND_JUMP)), Delete(OUTPUT, OUTPUT_JUMP)) ==
                 NatBase(cfg, t1) + NatChains(cfg)
  {
    DeleteBack(t, PREROUTING, INBOUND_JUMP);
    if InNat(cfg) {
      NoJumpYet(t, PREROUTING, INBOUND_JUMP);
      JumpsDeleted(cfg, t);
    } else {
      JumpsDeletedOver(cfg, t);
    }
  }

  lemma JumpsDeletedOver(cfg: Config, t: Table)
    requires FreeNat(cfg, t) && !InNat(cfg)
    ensures var t1 := Exec(t, Delete(PREROUTING, INBOUND_JUMP));
            && PREROUTING in t1
            && Exec(Exec(InstalledNat(cfg, t), Delete(PREROUTING, INBOUND_JUMP)), Delete(OUTPUT, OUTPUT_JUMP)) ==
                 NatBase(cfg, t1) + NatChains(cfg)
  {
    var u, t1 := InstalledNat(cfg, t), Exec(t, Delete(PREROUTING, INBOUND_JUMP));
    InstalledOver(cfg, t);
    NoJumpInFront(cfg, INBOUND_JUMP);
    DeleteBehind(t, u, Front(cfg), PREROUTING, INBOUND_JUMP);
    DeleteBack(t, PREROUTING, INBOUND_JUMP);
    NoJumpYet(t, OUTPUT, OUTPUT_JUMP);
    FrontOver(cfg, t, t1, t[OUTPUT] + [OUTPUT_JUMP]);
    OutputJumpDeleted(NatBase(cfg, t1) + NatChains(cfg), u[PREROUTING := Front(cfg) + t1[PREROUTING]]);
  }

  lemma FrontOver(cfg: Config, t: Table, t1: Table, output: seq<Rule>)
    requires PREROUTING in t && PREROUTING in t1 && t1 == t[PREROUTING := t1[PREROUTING]]
    ensures (NatBase(cfg, t) + NatChains(cfg))[OUTPUT := output][PREROUTING := Front(cfg) + t1[PREROUTING]] ==
            (NatBase(cfg, t1) + NatChains(cfg))[OUTPUT := output]
  {
  }

  lemma OutputJumpDeleted(b: Table, u: Table)
    requires OUTPUT in b && OUTPUT_JUMP !in b[OUTPUT] && u == b[OUTPUT := b[OUTPUT] + [OUTPUT_JUMP]]
    ensures Exec(u, Delete(OUTPUT, OUTPUT_JUMP)) == b
  {
    DeleteAppended(u, OUTPUT, b[OUTPUT], OUTPUT_JUMP);
    assert u[OUTPUT := b[OUTPUT]] == b;
  }

  lemma OthersChainsRemoved(cfg: Config, t: Table)
    requires Linked(t) && !InNat(cfg) && ISTIO_INBOUND in t
    requires ISTIO_REDIRECT !in t && ISTIO_IN_REDIRECT !in t && ISTIO_OUTPUT !in t
    ensures Remove(Remove(Remove(Remove(t + NatChains(cfg), ISTIO_OUTPUT), ISTIO_INBOUND), ISTIO_REDIRECT),
                   ISTIO_IN_REDIRECT)
         == Remove(t, ISTIO_INBOUND)
  {
    var r, i := RedirectChain(cfg.proxyPort), RedirectChain(cfg.capturePort);
    var m := map[ISTIO_REDIRECT := r, ISTIO_IN_REDIRECT := i];
    Unlinked(t, ISTIO_OUTPUT);
    ChainReferences(cfg, NatChains(cfg), ISTIO_OUTPUT);
    RemoveChain(t, NatChains(cfg), ISTIO_OUTPUT);
    assert NatChains(cfg) - {ISTIO_OUTPUT} == m;
    RemoveBelow(t, m, ISTIO_INBOUND);
    var t2 := Remove(t, ISTIO_INBOUND);
    RemoveKeepsLinks(t, ISTIO_INBOUND);
    RemoveBack(t, ISTIO_INBOUND);
    Unlinked(t2, ISTIO_REDIRECT);
    Unlinked(t2, ISTIO_IN_REDIRECT);
    TwoRedirects(t2, m, r, i);
  }

  /** After a run without virtual interfaces teardown gives what it would have given without that run. */
  lemma RunTakenBack(cfg: Config, t: Table)
    requires Linked(t) && PREROUTING in t && OUTPUT in t && !InNat(cfg) && cfg.interfaces == [] && ISTIO_INBOUND in t
    requires ISTIO_REDIRECT !in t && ISTIO_IN_REDIRECT !in t && ISTIO_OUTPUT !in t
    ensures TornDownNat(InstalledNat(cfg, t)) == TornDownNat(t)
  {
    var t1 := Exec(t, Delete(PREROUTING, INBOUND_JUMP));
    JumpsGone(cfg, t);
    FrontJumps(cfg);
    assert Front(cfg) + t1[PREROUTING] == t1[PREROUTING];
    assert NatBase(cfg, t1) == t1;
    ExecKeepsLinks(t, Delete(PREROUTING, INBOUND_JUMP));
    DeleteBack(t, PREROUTING, INBOUND_JUMP);
    OthersChainsRemoved(cfg, t1);
    NoJumpYet(t, OUTPUT, OUTPUT_JUMP);
    TornDownAlone(t, t1);
  }

  lemma TornDownAlone(t: Table, t1: Table)
    requires PREROUTING in t && OUTPUT in t && OUTPUT_JUMP !in t[OUTPUT]
             && t1 == Exec(t, Delete(PREROUTING, INBOUND_JUMP))
    requires ISTIO_REDIRECT !in t && ISTIO_IN_REDIRECT !in t && ISTIO_OUTPUT !in t
    ensures TornDownNat(t) == Remove(t1, ISTIO_INBOUND)
  {
    DeleteBack(t, PREROUTING, INBOUND_JUMP);
    RemoveBack(t1, ISTIO_INBOUND);
  }

  /** Rules in front of a chain stay there, whatever is then deleted from it. */
  lemma FrontStays(front: seq<Rule>, pre: seq<Rule>, rule: Rule)
    requires front != [] && rule !in front
    ensures (if rule in front + pre then RemoveFirst(front + pre, rule) else front + pre) != pre
  {
    var all := front + pre;
    if rule in all {
      assert rule in pre;
      var k := FirstOf(pre, rule);
      assert forall j :: 0 <= j < |front| + k ==> all[j] != rule;
      assert all[|front| + k] == rule;
      RemoveFirstIs(all, rule, |front| + k);
      assert RemoveFirst(all, rule)[k] == all[k] != pre[k];
    } else {
      assert |all| > |pre|;
    }
  }

  lemma TornDownPrerouting(u: Table)
    requires PREROUTING in u && OUTPUT in u
    ensures PREROUTING in TornDownNat(u)
    ensures TornDownNat(u)[PREROUTING] == Exec(u, Delete(PREROUTING, INBOUND_JUMP))[PREROUTING]
  {
    var t1 := Exec(u, Delete(PREROUTING, INBOUND_JUMP));
    var t2 := Exec(t1, Delete(OUTPUT, OUTPUT_JUMP));
    DeleteBack(u, PREROUTING, INBOUND_JUMP);
    DeleteBack(t1, OUTPUT, OUTPUT_JUMP);
    RemoveBack(t2, ISTIO_OUTPUT);
    RemoveBack(Remove(t2, ISTIO_OUTPUT), ISTIO_INBOUND);
    RemoveBack(Remove(Remove(t2, ISTIO_OUTPUT), ISTIO_INBOUND), ISTIO_REDIRECT);
    RemoveBack(Remove(Remove(Remove(t2, ISTIO_OUTPUT), ISTIO_INBOUND), ISTIO_REDIRECT), ISTIO_IN_REDIRECT);
  }

  lemma InterfacesStay(cfg: Config, t: Table)
    requires PREROUTING in t && OUTPUT in t && !InNat(cfg) && cfg.interfaces != []
    ensures TornDownNat(InstalledNat(cfg, t)) != t
  {
    FrontJumps(cfg);
    NoJumpInFront(cfg, INBOUND_JUMP);
    assert InstalledNat(cfg, t)[PREROUTING] == Front(cfg) + t[PREROUTING];
    FrontStays(Front(cfg), t[PREROUTING], INBOUND_JUMP);
    TornDownPrerouting(InstalledNat(cfg, t));
  }

  lemma CleanIsIdle(t: Table)
    requires CleanNat(t)
    ensures IdleNat(t)
  {
    NoJumpYet(t, PREROUTING, INBOUND_JUMP);
    NoJumpYet(t, OUTPUT, OUTPUT_JUMP);
  }

  /**
   Which tables a run and the next teardown give back, of all on which the run completes: the nat table if
   and only if there are no virtual interfaces and teardown alone would find nothing to do in it, and the
   mangle table if and only if the run has used it or teardown alone would find nothing to do in it.
   */
  lemma TeardownRestores(cfg: Config, natTable: Table, mangleTable: Table)
    requires BuiltIn(natTable, mangleTable) && Vacant(cfg, natTable, mangleTable) && Linked(natTable)
             && Linked(mangleTable)
    ensures TornDownNat(InstalledNat(cfg, natTable)) == natTable <==> cfg.interfaces == [] && IdleNat(natTable)
    ensures TornDownMangle(InstalledMangle(cfg, mangleTable)) == mangleTable <==>
              InMangle(cfg) || IdleMangle(mangleTable)
  {
    NatRestores(cfg, natTable);
    if InMangle(cfg) {
      MangleAfterTeardown(cfg, mangleTable);
    } else {
      MangleIdle(mangleTable);
    }
  }

  lemma NatRestores(cfg: Config, t: Table)
    requires FreeNat(cfg, t)
    ensures TornDownNat(InstalledNat(cfg, t)) == t <==> cfg.interfaces == [] && IdleNat(t)
  {
    if ISTIO_INBOUND !in t {
      NatAfterTeardown(cfg, t);
      FrontJumps(cfg);
      LeftIsCleanIff(cfg, t);
      CleanIsIdle(t);
    } else if cfg.interfaces == [] {
      RunTakenBack(cfg, t);
      NatIdle(t);
    } else {
      InterfacesStay(cfg, t);
    }
  }
}
