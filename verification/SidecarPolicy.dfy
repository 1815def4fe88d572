/** What the generated rules decide: for every configuration and packet, exactly the documented policy. */
module SidecarPolicy {
  import opened Wrappers
  import opened PacketFilter
  import opened SidecarRules

  // ----- lists of rules

  lemma AnyOfTwo(a: seq<Rule>, b: seq<Rule>, p: Packet)
    ensures AnyMatches(a + b, p) <==> AnyMatches(a, p) || AnyMatches(b, p)
  {
    if AnyMatches(a, p) {
      var i :| 0 <= i < |a| && Matches(a[i], p);
      assert Matches((a + b)[i], p);
    }
    if AnyMatches(b, p) {
      var i :| 0 <= i < |b| && Matches(b[i], p);
      assert Matches((a + b)[|a| + i], p);
    }
  }

  lemma AnyOfOne(rule: Rule, p: Packet)
    ensures AnyMatches([rule], p) <==> Matches(rule, p)
  {
    assert [rule][0] == rule;
  }

  lemma MatchesOne(c: Condition, target: Target, p: Packet)
    ensures Matches(Rule([c], target), p) <==> Holds(c, p)
  {
    assert Rule([c], target).conditions[0] == c;
  }

  lemma MatchesTwo(c: Condition, d: Condition, target: Target, p: Packet)
    ensures Matches(Rule([c, d], target), p) <==> Holds(c, p) && Holds(d, p)
  {
    var rule := Rule([c, d], target);
    assert rule.conditions[0] == c && rule.conditions[1] == d;
  }

  lemma MatchesThree(c: Condition, d: Condition, e: Condition, target: Target, p: Packet)
    ensures Matches(Rule([c, d, e], target), p) <==> Holds(c, p) && Holds(d, p) && Holds(e, p)
  {
    var rule := Rule([c, d, e], target);
    assert rule.conditions[0] == c && rule.conditions[1] == d && rule.conditions[2] == e;
  }

  /** A chain that redirects every tcp packet. */
  lemma RedirectHit(t: Table, c: string, port: nat, p: Packet, mark: nat, depth: nat)
    requires c in t && t[c] == RedirectChain(port) && p.tcp && depth > 0
    ensures Walk(t, [Rule([], Jump(c))], p, mark, depth) == Redirected(port)
  {
    MatchesOne(Tcp, Redirect(port), p);
    var one := [Rule([], Jump(c))];
    assert Matches(one[0], p);
    assert Walk(t, t[c], p, mark, depth - 1) == Redirected(port);
  }

  lemma ReturnHit(t: Table, p: Packet, mark: nat, depth: nat)
    ensures Walk(t, [Rule([], Return)], p, mark, depth) == Returned(mark)
  {
    var one := [Rule([], Return)];
    assert Matches(one[0], p);
  }

  // ----- outbound

  predicate Listed(ids: seq<nat>, id: Option<nat>) {
    id.Some? && id.value in ids
  }

  predicate InAny(ranges: seq<string>, p: Packet) {
    exists r :: r in ranges && r in p.ranges
  }

  predicate Wanted(cfg: Config, p: Packet) {
    cfg.outRanges.Everything? || InAny(cfg.outRanges.list, p)
  }

  predicate Exempt(cfg: Config, p: Packet) {
    Listed(cfg.uids, p.uid) || Listed(cfg.gids, p.gid) || LOOPBACK in p.ranges || InAny(cfg.exRanges, p)
  }

  /** The documented policy for locally generated packets. */
  predicate CapturesOutbound(cfg: Config, p: Packet) {
    || (cfg.redirectLoopback && p.outInterface == "lo" && LOOPBACK !in p.ranges)
    || (!Exempt(cfg, p) && Wanted(cfg, p))
  }

  lemma UidsMatch(ids: seq<nat>, p: Packet)
    ensures AnyMatches(UidReturns(ids), p) <==> Listed(ids, p.uid)
  {
    forall i | 0 <= i < |ids|
      ensures Matches(UidReturns(ids)[i], p) <==> p.uid == Some(ids[i])
    {
      MatchesOne(Uid(ids[i]), Return, p);
    }
    if Listed(ids, p.uid) {
      var i :| 0 <= i < |ids| && ids[i] == p.uid.value;
      assert Matches(UidReturns(ids)[i], p);
    }
  }

  lemma GidsMatch(ids: seq<nat>, p: Packet)
    ensures AnyMatches(GidReturns(ids), p) <==> Listed(ids, p.gid)
  {
    forall i | 0 <= i < |ids|
      ensures Matches(GidReturns(ids)[i], p) <==> p.gid == Some(ids[i])
    {
      MatchesOne(Gid(ids[i]), Return, p);
    }
    if Listed(ids, p.gid) {
      var i :| 0 <= i < |ids| && ids[i] == p.gid.value;
      assert Matches(GidReturns(ids)[i], p);
    }
  }

  lemma RangesMatch(ranges: seq<string>, target: Target, p: Packet)
    ensures AnyMatches(RangeRules(ranges, target), p) <==> InAny(ranges, p)
  {
    forall i | 0 <= i < |ranges|
      ensures Matches(RangeRules(ranges, target)[i], p) <==> ranges[i] in p.ranges
    {
      MatchesOne(DestinationIn(ranges[i]), target, p);
    }
    if InAny(ranges, p) {
      var r :| r in ranges && r in p.ranges;
      var i :| 0 <= i < |ranges| && ranges[i] == r;
      assert Matches(RangeRules(ranges, target)[i], p);
    }
  }

  lemma ExemptionsMatch(cfg: Config, p: Packet)
    ensures AnyMatches(Exemptions(cfg), p) <==> Exempt(cfg, p)
  {
    var a, b, c, d :=
      UidReturns(cfg.uids), GidReturns(cfg.gids), [Rule([DestinationIn(LOOPBACK)], Return)],
      RangeRules(cfg.exRanges, Return);
    AnyOfTwo(a + b + c, d, p);
    AnyOfTwo(a + b, c, p);
    AnyOfTwo(a, b, p);
    AnyOfOne(c[0], p);
    MatchesOne(DestinationIn(LOOPBACK), Return, p);
    UidsMatch(cfg.uids, p);
    GidsMatch(cfg.gids, p);
    RangesMatch(cfg.exRanges, Return, p);
  }

  lemma WalkExemptions(t: Table, cfg: Config, p: Packet, mark: nat, depth: nat)
    ensures Walk(t, Exemptions(cfg), p, mark, depth) == if Exempt(cfg, p) then Returned(mark) else Fell(mark)
  {
    ReturnHit(t, p, mark, depth);
    WalkUniform(t, Exemptions(cfg), Return, p, mark, depth, Returned(mark));
    ExemptionsMatch(cfg, p);
  }

  lemma WalkLoopback(t: Table, cfg: Config, p: Packet, mark: nat, depth: nat)
    requires ISTIO_REDIRECT in t && t[ISTIO_REDIRECT] == RedirectChain(cfg.proxyPort) && p.tcp && depth > 0
    ensures Walk(t, LoopbackRules(cfg), p, mark, depth) ==
            if cfg.redirectLoopback && p.outInterface == "lo" && LOOPBACK !in p.ranges
            then Redirected(cfg.proxyPort) else Fell(mark)
  {
    var rules, target := LoopbackRules(cfg), Jump(ISTIO_REDIRECT);
    RedirectHit(t, ISTIO_REDIRECT, cfg.proxyPort, p, mark, depth);
    WalkUniform(t, rules, target, p, mark, depth, Redirected(cfg.proxyPort));
    if rules != [] {
      AnyOfOne(rules[0], p);
      MatchesTwo(OutInterface("lo"), DestinationNotIn(LOOPBACK), target, p);
    }
  }

  lemma WalkInclusions(t: Table, cfg: Config, p: Packet, mark: nat, depth: nat)
    requires ISTIO_REDIRECT in t && t[ISTIO_REDIRECT] == RedirectChain(cfg.proxyPort) && p.tcp && depth > 0
    ensures var o := Walk(t, Inclusions(cfg), p, mark, depth);
            if Wanted(cfg, p) then o == Redirected(cfg.proxyPort) else o == Fell(mark) || o == Returned(mark)
  {
    RedirectHit(t, ISTIO_REDIRECT, cfg.proxyPort, p, mark, depth);
    match cfg.outRanges
    case Everything =>
    case Only(ranges) =>
      if ranges != [] {
        var listed := RangeRules(ranges, Jump(ISTIO_REDIRECT));
        WalkConcat(t, listed, [Rule([], Return)], p, mark, depth);
        WalkUniform(t, listed, Jump(ISTIO_REDIRECT), p, mark, depth, Redirected(cfg.proxyPort));
        RangesMatch(ranges, Jump(ISTIO_REDIRECT), p);
        ReturnHit(t, p, mark, depth);
      }
  }

  /** The outbound chain redirects a tcp packet exactly when the policy captures it, and else lets it pass. */
  lemma OutboundChain(t: Table, cfg: Config, p: Packet, mark: nat, depth: nat)
    requires ISTIO_REDIRECT in t && t[ISTIO_REDIRECT] == RedirectChain(cfg.proxyPort) && p.tcp && depth > 0
    ensures var o := Walk(t, OutputChain(cfg), p, mark, depth);
            if CapturesOutbound(cfg, p) then o == Redirected(cfg.proxyPort) else o == Fell(mark) || o == Returned(mark)
  {
    WalkConcat(t, LoopbackRules(cfg) + Exemptions(cfg), Inclusions(cfg), p, mark, depth);
    WalkConcat(t, LoopbackRules(cfg), Exemptions(cfg), p, mark, depth);
    WalkLoopback(t, cfg, p, mark, depth);
    WalkExemptions(t, cfg, p, mark, depth);
    WalkInclusions(t, cfg, p, mark, depth);
  }

  /** A jump for tcp packets to a chain that decides or comes back. */
  lemma WalkJump(t: Table, c: string, p: Packet, mark: nat, depth: nat)
    requires c in t && p.tcp && depth > 0
    ensures var o := Walk(t, t[c], p, mark, depth - 1);
            Walk(t, [Rule([Tcp], Jump(c))], p, mark, depth) == if o.Fell? || o.Returned? then Fell(o.mark) else o
  {
    var one := [Rule([Tcp], Jump(c))];
    MatchesOne(Tcp, Jump(c), p);
    assert one[1..] == [];
  }

  /**
   Outbound rules mean the policy. In the tables that a run of the script leaves, a locally generated
   tcp packet that the earlier rules of OUTPUT let pass is redirected to the proxy if and only if the
   policy captures it.
   */
  lemma OutboundPolicy(cfg: Config, t0: Table, t: Table, p: Packet, mark: nat, depth: nat)
    requires PREROUTING in t0 && OUTPUT in t0 && t == InstalledNat(cfg, t0) && p.tcp && depth > 1
    requires Walk(t, t0[OUTPUT], p, mark, depth).Fell?
    ensures var before := Walk(t, t0[OUTPUT], p, mark, depth);
            Walk(t, t[OUTPUT], p, mark, depth) == if CapturesOutbound(cfg, p) then Redirected(cfg.proxyPort) else before
  {
    InstalledChains(cfg, t0, t);
    var before := Walk(t, t0[OUTPUT], p, mark, depth);
    WalkConcat(t, t0[OUTPUT], [OUTPUT_JUMP], p, mark, depth);
    OutboundChain(t, cfg, p, before.mark, depth - 1);
    WalkJump(t, ISTIO_OUTPUT, p, before.mark, depth);
  }

  lemma InstalledChains(cfg: Config, t0: Table, t: Table)
    requires PREROUTING in t0 && OUTPUT in t0 && t == InstalledNat(cfg, t0)
    ensures ISTIO_REDIRECT in t && t[ISTIO_REDIRECT] == RedirectChain(cfg.proxyPort)
    ensures ISTIO_IN_REDIRECT in t && t[ISTIO_IN_REDIRECT] == RedirectChain(cfg.capturePort)
    ensures ISTIO_OUTPUT in t && t[ISTIO_OUTPUT] == OutputChain(cfg)
    ensures InNat(cfg) ==> ISTIO_INBOUND in t && t[ISTIO_INBOUND] == InboundChain(cfg)
    ensures OUTPUT in t && t[OUTPUT] == t0[OUTPUT] + [OUTPUT_JUMP]
    ensures PREROUTING in t
            && t[PREROUTING] == Front(cfg) + (t0[PREROUTING] + if InNat(cfg) then [INBOUND_JUMP] else [])
  {
  }

  // ----- packets from virtual interfaces

  lemma {:induction false} ReturnFromMatch(interfaces: seq<string>, p: Packet)
    ensures AnyMatches(ReturnFrom(interfaces), p) <==> p.inInterface in interfaces
    ensures forall i :: 0 <= i < |ReturnFrom(interfaces)| ==> ReturnFrom(interfaces)[i].target == Return
  {
    if interfaces != [] {
      var n := |interfaces| - 1;
      ReturnFromMatch(interfaces[..n], p);
      var first := Rule([InInterface(interfaces[n])], Return);
      AnyOfTwo([first], ReturnFrom(interfaces[..n]), p);
      AnyOfOne(first, p);
      MatchesOne(InInterface(interfaces[n]), Return, p);
    }
  }

  lemma {:induction false} RedirectFromMatch(interfaces: seq<string>, p: Packet)
    ensures AnyMatches(RedirectFrom(interfaces), p) <==> p.inInterface in interfaces
    ensures forall i :: 0 <= i < |RedirectFrom(interfaces)| ==>
              RedirectFrom(interfaces)[i].target == Jump(ISTIO_REDIRECT)
  {
    if interfaces != [] {
      var n := |interfaces| - 1;
      RedirectFromMatch(interfaces[..n], p);
      var first := Rule([InInterface(interfaces[n])], Jump(ISTIO_REDIRECT));
      AnyOfTwo([first], RedirectFrom(interfaces[..n]), p);
      AnyOfOne(first, p);
      MatchesOne(InInterface(interfaces[n]), Jump(ISTIO_REDIRECT), p);
    }
  }

  lemma {:induction false} RedirectRangeFromMatch(range: string, interfaces: seq<string>, p: Packet)
    ensures AnyMatches(RedirectRangeFrom(range, interfaces), p) <==> p.inInterface in interfaces && range in p.ranges
    ensures forall i :: 0 <= i < |RedirectRangeFrom(range, interfaces)| ==>
                          RedirectRangeFrom(range, interfaces)[i].target == Jump(ISTIO_REDIRECT)
  {
    if interfaces != [] {
      var n := |interfaces| - 1;
      RedirectRangeFromMatch(range, interfaces[..n], p);
      assert interfaces == interfaces[..n] + [interfaces[n]];
      var first := Rule([InInterface(interfaces[n]), DestinationIn(range)], Jump(ISTIO_REDIRECT));
      AnyOfTwo([first], RedirectRangeFrom(range, interfaces[..n]), p);
      AnyOfOne(first, p);
      MatchesTwo(InInterface(interfaces[n]), DestinationIn(range), Jump(ISTIO_REDIRECT), p);
    }
  }

  lemma {:induction false} RedirectRangesFromMatch(ranges: seq<string>, interfaces: seq<string>, p: Packet)
    ensures AnyMatches(RedirectRangesFrom(ranges, interfaces), p) <==> p.inInterface in interfaces && InAny(ranges, p)
    ensures forall i :: 0 <= i < |RedirectRangesFrom(ranges, interfaces)| ==>
                          RedirectRangesFrom(ranges, interfaces)[i].target == Jump(ISTIO_REDIRECT)
  {
    if ranges != [] {
      var n := |ranges| - 1;
      RedirectRangesFromMatch(ranges[..n], interfaces, p);
      RedirectRangeFromMatch(ranges[n], interfaces, p);
      AnyOfTwo(RedirectRangeFrom(ranges[n], interfaces), RedirectRangesFrom(ranges[..n], interfaces), p);
      assert ranges == ranges[..n] + [ranges[n]];
    }
  }

  /**
   The inserted rules: redirect from a listed interface what is wanted, return the rest of it, and ignore
   all others.
   */
  lemma WalkFront(t: Table, cfg: Config, p: Packet, mark: nat, depth: nat)
    requires ISTIO_REDIRECT in t && t[ISTIO_REDIRECT] == RedirectChain(cfg.proxyPort) && p.tcp && depth > 0
    ensures Walk(t, Front(cfg), p, mark, depth) ==
            if p.inInterface !in cfg.interfaces then Fell(mark)
            else if Wanted(cfg, p) then Redirected(cfg.proxyPort) else Returned(mark)
  {
    var first := match cfg.outRanges
                 case Everything => RedirectFrom(cfg.interfaces)
                 case Only(ranges) => RedirectRangesFrom(ranges, cfg.interfaces);
    if cfg.outRanges.Everything? {
      RedirectFromMatch(cfg.interfaces, p);
    } else {
      RedirectRangesFromMatch(cfg.outRanges.list, cfg.interfaces, p);
    }
    RedirectHit(t, ISTIO_REDIRECT, cfg.proxyPort, p, mark, depth);
    WalkUniform(t, first, Jump(ISTIO_REDIRECT), p, mark, depth, Redirected(cfg.proxyPort));
    ReturnHit(t, p, mark, depth);
    ReturnFromMatch(cfg.interfaces, p);
    WalkUniform(t, ReturnFrom(cfg.interfaces), Return, p, mark, depth, Returned(mark));
    WalkConcat(t, first, ReturnFrom(cfg.interfaces), p, mark, depth);
  }

  /**
   Insert-at-front order. For every number and order of interfaces and ranges, a tcp packet from a
   listed virtual interface is redirected if and only if its destination is wanted, and otherwise
   returns, in both cases before any other rule of PREROUTING sees it.
   */
  lemma InterfacePolicy(cfg: Config, t0: Table, t: Table, p: Packet, mark: nat, depth: nat)
    requires PREROUTING in t0 && OUTPUT in t0 && t == InstalledNat(cfg, t0) && p.tcp && depth > 0
    requires p.inInterface in cfg.interfaces
    ensures Walk(t, t[PREROUTING], p, mark, depth) ==
              if Wanted(cfg, p) then Redirected(cfg.proxyPort) else Returned(mark)
  {
    InstalledChains(cfg, t0, t);
    WalkFront(t, cfg, p, mark, depth);
    WalkConcat(t, Front(cfg), t0[PREROUTING] + if InNat(cfg) then [INBOUND_JUMP] else [], p, mark, depth);
  }

  // ----- inbound

  /** The documented policy for packets that arrive. */
  predicate CapturesInbound(cfg: Config, p: Packet) {
    match cfg.inPorts
    case Everything => p.port != 22 && p.port !in cfg.exPorts
    case Only(ports) => p.port in ports
  }

  /** What capturing a packet means in table `t`. */
  function Capture(cfg: Config, p: Packet, mark: nat): Outcome {
    if !cfg.tproxy then Redirected(cfg.capturePort)
    else if p.socket then Accepted(cfg.mark)
    else if LOOPBACK !in p.ranges then Proxied(cfg.mark, cfg.proxyPort)
    else Fell(mark)
  }

  /** The chains that the inbound chain jumps to. */
  predicate HasTargets(cfg: Config, t: Table) {
    if cfg.tproxy then
      && ISTIO_DIVERT in t && t[ISTIO_DIVERT] == DivertChain(cfg)
      && ISTIO_TPROXY in t && t[ISTIO_TPROXY] == TproxyChain(cfg)
    else ISTIO_IN_REDIRECT in t && t[ISTIO_IN_REDIRECT] == RedirectChain(cfg.capturePort)
  }

  lemma DivertHit(t: Table, cfg: Config, p: Packet, mark: nat, depth: nat)
    requires cfg.tproxy && HasTargets(cfg, t) && depth > 0
    ensures Walk(t, [Rule([], Jump(ISTIO_DIVERT))], p, mark, depth) == Accepted(cfg.mark)
  {
    var chain := t[ISTIO_DIVERT];
    assert Matches(chain[0], p) && Matches(chain[1], p) && chain[1..][0] == chain[1];
    assert Walk(t, chain[1..], p, cfg.mark, depth - 1) == Accepted(cfg.mark);
    var one := [Rule([], Jump(ISTIO_DIVERT))];
    assert Matches(one[0], p);
    assert Walk(t, chain, p, mark, depth - 1) == Accepted(cfg.mark);
  }

  lemma TproxyHit(t: Table, cfg: Config, p: Packet, mark: nat, depth: nat)
    requires cfg.tproxy && HasTargets(cfg, t) && depth > 0 && p.tcp
    ensures Walk(t, [Rule([], Jump(ISTIO_TPROXY))], p, mark, depth) ==
            if LOOPBACK !in p.ranges then Proxied(cfg.mark, cfg.proxyPort) else Fell(mark)
  {
    var chain, one := t[ISTIO_TPROXY], [Rule([], Jump(ISTIO_TPROXY))];
    MatchesTwo(DestinationNotIn(LOOPBACK), Tcp, TProxy(cfg.mark, cfg.proxyPort), p);
    assert Matches(one[0], p) && one[1..] == [] && chain[1..] == [];
    assert Walk(t, chain, p, mark, depth - 1) ==
           if LOOPBACK !in p.ranges then Proxied(cfg.mark, cfg.proxyPort) else Fell(mark);
  }

  lemma SameRule(t: Table, c: string, conditions: seq<Condition>, p: Packet, mark: nat, depth: nat)
    requires c in t && depth > 0
    ensures Walk(t, [Rule(conditions, Jump(c))], p, mark, depth) ==
            if Matches(Rule(conditions, Jump(c)), p) then Walk(t, [Rule([], Jump(c))], p, mark, depth) else Fell(mark)
  {
    var one, bare := [Rule(conditions, Jump(c))], [Rule([], Jump(c))];
    assert one[1..] == [] && bare[1..] == [] && Matches(bare[0], p);
  }

  lemma WalkAllPorts(t: Table, cfg: Config, p: Packet, mark: nat, depth: nat)
    requires HasTargets(cfg, t) && depth > 0 && p.tcp
    ensures Walk(t, AllPorts(cfg), p, mark, depth) == Capture(cfg, p, mark)
  {
    if cfg.tproxy {
      var a, b := [Rule([Tcp, Socket], Jump(ISTIO_DIVERT))], [Rule([Tcp], Jump(ISTIO_TPROXY))];
      assert AllPorts(cfg) == a + b;
      WalkConcat(t, a, b, p, mark, depth);
      SameRule(t, ISTIO_DIVERT, [Tcp, Socket], p, mark, depth);
      SameRule(t, ISTIO_TPROXY, [Tcp], p, mark, depth);
      MatchesTwo(Tcp, Socket, Jump(ISTIO_DIVERT), p);
      MatchesOne(Tcp, Jump(ISTIO_TPROXY), p);
      DivertHit(t, cfg, p, mark, depth);
      TproxyHit(t, cfg, p, mark, depth);
    } else {
      SameRule(t, ISTIO_IN_REDIRECT, [Tcp], p, mark, depth);
      MatchesOne(Tcp, Jump(ISTIO_IN_REDIRECT), p);
      RedirectHit(t, ISTIO_IN_REDIRECT, cfg.capturePort, p, mark, depth);
    }
  }

  lemma WalkListedPort(t: Table, cfg: Config, port: nat, p: Packet, mark: nat, depth: nat)
    requires HasTargets(cfg, t) && depth > 0 && p.tcp
    ensures Walk(t, ListedPort(cfg, port), p, mark, depth) ==
              if p.port == port then Capture(cfg, p, mark) else Fell(mark)
  {
    if cfg.tproxy {
      var a := [Rule([Tcp, DestinationPort(port), Socket], Jump(ISTIO_DIVERT))];
      var b := [PortRule(port, Jump(ISTIO_TPROXY))];
      assert ListedPort(cfg, port) == a + (a + b);
      WalkConcat(t, a, a + b, p, mark, depth);
      WalkConcat(t, a, b, p, mark, depth);
      SameRule(t, ISTIO_DIVERT, [Tcp, DestinationPort(port), Socket], p, mark, depth);
      SameRule(t, ISTIO_TPROXY, [Tcp, DestinationPort(port)], p, mark, depth);
      MatchesThree(Tcp, DestinationPort(port), Socket, Jump(ISTIO_DIVERT), p);
      MatchesTwo(Tcp, DestinationPort(port), Jump(ISTIO_TPROXY), p);
      DivertHit(t, cfg, p, mark, depth);
      TproxyHit(t, cfg, p, mark, depth);
    } else {
      SameRule(t, ISTIO_IN_REDIRECT, [Tcp, DestinationPort(port)], p, mark, depth);
      MatchesTwo(Tcp, DestinationPort(port), Jump(ISTIO_IN_REDIRECT), p);
      RedirectHit(t, ISTIO_IN_REDIRECT, cfg.capturePort, p, mark, depth);
    }
  }

  lemma {:induction false} WalkListedPorts(t: Table, cfg: Config, ports: seq<nat>, p: Packet, mark: nat, depth: nat)
    requires HasTargets(cfg, t) && depth > 0 && p.tcp
    ensures Walk(t, ListedPorts(cfg, ports), p, mark, depth) ==
              if p.port in ports then Capture(cfg, p, mark) else Fell(mark)
  {
    if ports != [] {
      var n := |ports| - 1;
      WalkListedPorts(t, cfg, ports[..n], p, mark, depth);
      WalkListedPort(t, cfg, ports[n], p, mark, depth);
      WalkConcat(t, ListedPorts(cfg, ports[..n]), ListedPort(cfg, ports[n]), p, mark, depth);
      assert ports == ports[..n] + [ports[n]];
    }
  }

  lemma PortReturnsMatch(ports: seq<nat>, p: Packet)
    requires p.tcp
    ensures AnyMatches(PortReturns(ports), p) <==> p.port in ports
  {
    forall i | 0 <= i < |ports|
      ensures Matches(PortReturns(ports)[i], p) <==> p.port == ports[i]
    {
      MatchesTwo(Tcp, DestinationPort(ports[i]), Return, p);
    }
    if p.port in ports {
      var i :| 0 <= i < |ports| && ports[i] == p.port;
      assert Matches(PortReturns(ports)[i], p);
    }
  }

  /** The inbound chain captures a tcp packet exactly when the policy does, and else lets it pass. */
  lemma InboundChainDecides(t: Table, cfg: Config, p: Packet, mark: nat, depth: nat)
    requires HasTargets(cfg, t) && depth > 0 && p.tcp
    ensures var o := Walk(t, InboundChain(cfg), p, mark, depth);
            if CapturesInbound(cfg, p) then o == Capture(cfg, p, mark) else o == Fell(mark) || o == Returned(mark)
  {
    match cfg.inPorts
    case Only(ports) => WalkListedPorts(t, cfg, ports, p, mark, depth);
    case Everything =>
      var ssh, exempt := [PortRule(22, Return)], [PortRule(22, Return)] + PortReturns(cfg.exPorts);
      AnyOfTwo(ssh, PortReturns(cfg.exPorts), p);
      AnyOfOne(ssh[0], p);
      MatchesTwo(Tcp, DestinationPort(22), Return, p);
      PortReturnsMatch(cfg.exPorts, p);
      ReturnHit(t, p, mark, depth);
      WalkUniform(t, exempt, Return, p, mark, depth, Returned(mark));
      WalkConcat(t, exempt, AllPorts(cfg), p, mark, depth);
      WalkAllPorts(t, cfg, p, mark, depth);
  }

  /** After a walk of the inbound chain from PREROUTING. */
  lemma InboundFromHook(t: Table, cfg: Config, p: Packet, mark: nat, depth: nat)
    requires HasTargets(cfg, t) && ISTIO_INBOUND in t && t[ISTIO_INBOUND] == InboundChain(cfg) && depth > 1 && p.tcp
    ensures Walk(t, [INBOUND_JUMP], p, mark, depth) ==
              if CapturesInbound(cfg, p) then Capture(cfg, p, mark) else Fell(mark)
  {
    InboundChainDecides(t, cfg, p, mark, depth - 1);
    WalkJump(t, ISTIO_INBOUND, p, mark, depth);
  }

  /**
   Inbound rules mean the policy, REDIRECT mode. A tcp packet that arrives by an ordinary interface and
   passes the earlier rules of PREROUTING is redirected if and only if the policy captures it. With no
   port included nothing is.
   */
  lemma InboundPolicyRedirect(cfg: Config, t0: Table, t: Table, p: Packet, mark: nat, depth: nat)
    requires PREROUTING in t0 && OUTPUT in t0 && t == InstalledNat(cfg, t0) && !cfg.tproxy && p.tcp && depth > 1
    requires p.inInterface !in cfg.interfaces && Walk(t, t0[PREROUTING], p, mark, depth).Fell?
    ensures var before := Walk(t, t0[PREROUTING], p, mark, depth);
            Walk(t, t[PREROUTING], p, mark, depth) ==
                if CapturesInbound(cfg, p) then Redirected(cfg.capturePort) else before
  {
    var jump, before := if InNat(cfg) then [INBOUND_JUMP] else [], Walk(t, t0[PREROUTING], p, mark, depth);
    InstalledChains(cfg, t0, t);
    WalkFront(t, cfg, p, mark, depth);
    WalkConcat(t, Front(cfg), t0[PREROUTING] + jump, p, mark, depth);
    WalkConcat(t, t0[PREROUTING], jump, p, mark, depth);
    if InNat(cfg) {
      InboundFromHook(t, cfg, p, before.mark, depth);
    }
  }

  /**
   Inbound rules mean the policy, TPROXY mode. The packets that the policy captures get the mark, all
   but those to 127.0.0.1 that no socket takes; no other packet is touched.
   */
  lemma InboundPolicyTproxy(cfg: Config, t0: Table, t: Table, p: Packet, mark: nat, depth: nat)
    requires PREROUTING in t0 && t == InstalledMangle(cfg, t0) && cfg.tproxy && p.tcp && depth > 1
    requires Walk(t, t0[PREROUTING], p, mark, depth).Fell?
    ensures var before, after := Walk(t, t0[PREROUTING], p, mark, depth), Walk(t, t[PREROUTING], p, mark, depth);
            if CapturesInbound(cfg, p) && (p.socket || LOOPBACK !in p.ranges)
            then after == if p.socket then Accepted(cfg.mark) else Proxied(cfg.mark, cfg.proxyPort)
            else after == before
  {
    var before := Walk(t, t0[PREROUTING], p, mark, depth);
    if InMangle(cfg) {
      MangleChains(cfg, t0, t);
      WalkConcat(t, t0[PREROUTING], [INBOUND_JUMP], p, mark, depth);
      InboundFromHook(t, cfg, p, before.mark, depth);
    }
  }

  lemma MangleChains(cfg: Config, t0: Table, t: Table)
    requires PREROUTING in t0 && InMangle(cfg) && t == InstalledMangle(cfg, t0)
    ensures HasTargets(cfg, t) && ISTIO_INBOUND in t && t[ISTIO_INBOUND] == InboundChain(cfg)
    ensures PREROUTING in t && t[PREROUTING] == t0[PREROUTING] + [INBOUND_JUMP]
  {
  }
}
