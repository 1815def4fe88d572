/** The script itself, run against the kernel's tables. */
module SidecarScript {
  import opened Wrappers
  import opened PacketFilter
  import opened SidecarRules

  class Kernel {
    var natTable: Table
    var mangleTable: Table

    function Get(inMangle: bool): Table
      reads this
    {
      if inMangle then mangleTable else natTable
    }

    /** One iptables command; it fails or succeeds, and changes one table. */
    method Iptables(inMangle: bool, command: Command) returns (ok: bool)
      modifies this
      ensures ok == old(Possible(if inMangle then mangleTable else natTable, command))
      ensures natTable == if inMangle then old(natTable) else Exec(old(natTable), command)
      ensures mangleTable == if inMangle then Exec(old(mangleTable), command) else old(mangleTable)
    {
      ok := Possible(if inMangle then mangleTable else natTable, command);
      if inMangle {
        mangleTable := Exec(mangleTable, command);
      } else {
        natTable := Exec(natTable, command);
      }
    }
  }

  /** The two chains that redirect to the proxy. */
  method CreateRedirects(kernel: Kernel, cfg: Config) returns (ok: bool)
    modifies kernel
    ensures kernel.mangleTable == old(kernel.mangleTable)
    ensures ok == old(ISTIO_REDIRECT !in kernel.natTable && ISTIO_IN_REDIRECT !in kernel.natTable)
    ensures ok ==> kernel.natTable == WithRedirects(cfg, old(kernel.natTable))
  {
    ghost var t := kernel.natTable;
    ok := kernel.Iptables(false, New(ISTIO_REDIRECT));
    if !ok {
      return;
    }
    Appends(t, ISTIO_REDIRECT, [], RedirectChain(cfg.proxyPort)[0]);
    ok := kernel.Iptables(false, Append(ISTIO_REDIRECT, Rule([Tcp], Redirect(cfg.proxyPort))));
    ghost var t1 := kernel.natTable;
    assert [] + RedirectChain(cfg.proxyPort) == RedirectChain(cfg.proxyPort);
    assert [] + RedirectChain(cfg.capturePort) == RedirectChain(cfg.capturePort);
    assert t1 == t[ISTIO_REDIRECT := RedirectChain(cfg.proxyPort)];
    ok := kernel.Iptables(false, New(ISTIO_IN_REDIRECT));
    if !ok {
      return;
    }
    Appends(t1, ISTIO_IN_REDIRECT, [], RedirectChain(cfg.capturePort)[0]);
    ok := kernel.Iptables(false, Append(ISTIO_IN_REDIRECT, Rule([Tcp], Redirect(cfg.capturePort))));
  }

  /** The chains that mark a packet for local delivery and hand it to the proxy. */
  method CreateTproxy(kernel: Kernel, cfg: Config) returns (ok: bool)
    modifies kernel
    ensures kernel.natTable == old(kernel.natTable)
    ensures ok == old(ISTIO_DIVERT !in kernel.mangleTable && ISTIO_TPROXY !in kernel.mangleTable)
    ensures ok ==> kernel.mangleTable == WithTproxy(cfg, old(kernel.mangleTable))
  {
    ghost var t := kernel.mangleTable;
    ok := kernel.Iptables(true, New(ISTIO_DIVERT));
    if !ok {
      return;
    }
    Appends(t, ISTIO_DIVERT, [], DivertChain(cfg)[0]);
    ok := kernel.Iptables(true, Append(ISTIO_DIVERT, Rule([], SetMark(cfg.mark))));
    assert [] + [DivertChain(cfg)[0]] == [DivertChain(cfg)[0]];
    Appends(t, ISTIO_DIVERT, [DivertChain(cfg)[0]], DivertChain(cfg)[1]);
    ok := kernel.Iptables(true, Append(ISTIO_DIVERT, Rule([], Accept)));
    ghost var t1 := kernel.mangleTable;
    assert [] + [DivertChain(cfg)[0]] + [DivertChain(cfg)[1]] == DivertChain(cfg);
    assert [] + TproxyChain(cfg) == TproxyChain(cfg);
    assert t1 == t[ISTIO_DIVERT := DivertChain(cfg)];
    ok := kernel.Iptables(true, New(ISTIO_TPROXY));
    if !ok {
      return;
    }
    Appends(t1, ISTIO_TPROXY, [], TproxyChain(cfg)[0]);
    ok := kernel.Iptables(
      true, Append(ISTIO_TPROXY, Rule([DestinationNotIn(LOOPBACK), Tcp], TProxy(cfg.mark, cfg.proxyPort))));
  }

  /** The chain for inbound traffic, and the jump to it. */
  method CreateInbound(kernel: Kernel, cfg: Config) returns (ok: bool)
    requires PREROUTING in kernel.Get(cfg.tproxy)
    requires if cfg.tproxy then ISTIO_DIVERT in kernel.mangleTable && ISTIO_TPROXY in kernel.mangleTable
             else ISTIO_IN_REDIRECT in kernel.natTable
    modifies kernel
    ensures kernel.Get(!cfg.tproxy) == old(kernel.Get(!cfg.tproxy))
    ensures ok == old(ISTIO_INBOUND !in kernel.Get(cfg.tproxy))
    ensures ok ==> kernel.Get(cfg.tproxy) == WithInbound(cfg, old(kernel.Get(cfg.tproxy)))
  {
    ghost var t := kernel.Get(cfg.tproxy);
    ok := kernel.Iptables(cfg.tproxy, New(ISTIO_INBOUND));
    if !ok {
      return;
    }
    Appends(t[ISTIO_INBOUND := []], PREROUTING, t[PREROUTING], INBOUND_JUMP);
    assert t[ISTIO_INBOUND := []] == t[ISTIO_INBOUND := []][PREROUTING := t[PREROUTING]];
    ok := kernel.Iptables(cfg.tproxy, Append(PREROUTING, INBOUND_JUMP));
    ghost var base := t[PREROUTING := t[PREROUTING] + [INBOUND_JUMP]];
    assert kernel.Get(cfg.tproxy) == base[ISTIO_INBOUND := []];
    match cfg.inPorts
    case Everything => AppendAllPorts(kernel, cfg, base);
    case Only(ports) => AppendListedPorts(kernel, cfg, ports, base);
    assert base[ISTIO_INBOUND := InboundChain(cfg)] == WithInbound(cfg, t);
  }

  /** A rule at the end of the inbound chain. */
  method AppendInbound(kernel: Kernel, cfg: Config, rule: Rule, ghost base: Table, ghost rules: seq<Rule>)
    requires kernel.Get(cfg.tproxy) == base[ISTIO_INBOUND := rules] && TargetExists(base, rule)
    modifies kernel
    ensures kernel.Get(!cfg.tproxy) == old(kernel.Get(!cfg.tproxy))
    ensures kernel.Get(cfg.tproxy) == base[ISTIO_INBOUND := rules + [rule]]
  {
    Appends(base, ISTIO_INBOUND, rules, rule);
    var ok := kernel.Iptables(cfg.tproxy, Append(ISTIO_INBOUND, rule));
  }

  method AppendAllPorts(kernel: Kernel, cfg: Config, ghost base: Table)
    requires cfg.inPorts == Everything && kernel.Get(cfg.tproxy) == base[ISTIO_INBOUND := []]
    requires if cfg.tproxy then ISTIO_DIVERT in base && ISTIO_TPROXY in base else ISTIO_IN_REDIRECT in base
    modifies kernel
    ensures kernel.Get(!cfg.tproxy) == old(kernel.Get(!cfg.tproxy))
    ensures kernel.Get(cfg.tproxy) == base[ISTIO_INBOUND := InboundChain(cfg)]
  {
    ghost var ssh := [PortRule(22, Return)];
    AppendInbound(kernel, cfg, PortRule(22, Return), base, []);
    assert [] + ssh == ssh + PortReturns(cfg.exPorts[..0]);
    for i := 0 to |cfg.exPorts|
      invariant kernel.Get(!cfg.tproxy) == old(kernel.Get(!cfg.tproxy))
      invariant kernel.Get(cfg.tproxy) == base[ISTIO_INBOUND := ssh + PortReturns(cfg.exPorts[..i])]
    {
      AppendInbound(kernel, cfg, PortRule(cfg.exPorts[i], Return), base, ssh + PortReturns(cfg.exPorts[..i]));
      assert ssh + PortReturns(cfg.exPorts[..i]) + [PortRule(cfg.exPorts[i], Return)] ==
               ssh + PortReturns(cfg.exPorts[..i + 1]);
    }
    assert cfg.exPorts[..|cfg.exPorts|] == cfg.exPorts;
    ghost var rules := ssh + PortReturns(cfg.exPorts);
    if cfg.tproxy {
      AppendInbound(kernel, cfg, Rule([Tcp, Socket], Jump(ISTIO_DIVERT)), base, rules);
      AppendInbound(kernel, cfg, Rule([Tcp], Jump(ISTIO_TPROXY)), base, rules + [AllPorts(cfg)[0]]);
      assert rules + [AllPorts(cfg)[0]] + [AllPorts(cfg)[1]] == InboundChain(cfg);
    } else {
      AppendInbound(kernel, cfg, Rule([Tcp], Jump(ISTIO_IN_REDIRECT)), base, rules);
    }
  }

  method AppendListedPorts(kernel: Kernel, cfg: Config, ports: seq<nat>, ghost base: Table)
    requires kernel.Get(cfg.tproxy) == base[ISTIO_INBOUND := []]
    requires if cfg.tproxy then ISTIO_DIVERT in base && ISTIO_TPROXY in base else ISTIO_IN_REDIRECT in base
    modifies kernel
    ensures kernel.Get(!cfg.tproxy) == old(kernel.Get(!cfg.tproxy))
    ensures kernel.Get(cfg.tproxy) == base[ISTIO_INBOUND := ListedPorts(cfg, ports)]
  {
    for i := 0 to |ports|
      invariant kernel.Get(!cfg.tproxy) == old(kernel.Get(!cfg.tproxy))
      invariant kernel.Get(cfg.tproxy) == base[ISTIO_INBOUND := ListedPorts(cfg, ports[..i])]
    {
      ghost var rules := ListedPorts(cfg, ports[..i]);
      if cfg.tproxy {
        var onSocket := Rule([Tcp, DestinationPort(ports[i]), Socket], Jump(ISTIO_DIVERT));
        AppendInbound(kernel, cfg, onSocket, base, rules);
        AppendInbound(kernel, cfg, onSocket, base, rules + [onSocket]);
        AppendInbound(kernel, cfg, PortRule(ports[i], Jump(ISTIO_TPROXY)), base, rules + [onSocket] + [onSocket]);
        assert rules + [onSocket] + [onSocket] + [PortRule(ports[i], Jump(ISTIO_TPROXY))] ==
                 rules + ListedPort(cfg, ports[i]);
      } else {
        AppendInbound(kernel, cfg, PortRule(ports[i], Jump(ISTIO_IN_REDIRECT)), base, rules);
      }
      assert ports[..i + 1][..i] == ports[..i];
    }
    assert ports[..|ports|] == ports;
  }

  // ----- outbound

  /** The nat table while the outbound rules are being written. */
  ghost function Laid(base: Table, rules: seq<Rule>, pre: seq<Rule>): Table {
    base[ISTIO_OUTPUT := rules][PREROUTING := pre]
  }

  /** A rule that returns or redirects. */
  predicate Simple(rule: Rule) {
    rule.target == Return || rule.target == Jump(ISTIO_REDIRECT)
  }

  method AppendOutput(kernel: Kernel, rule: Rule, ghost base: Table, ghost rules: seq<Rule>, ghost pre: seq<Rule>)
    requires kernel.natTable == Laid(base, rules, pre) && Simple(rule) && ISTIO_REDIRECT in base
    modifies kernel
    ensures kernel.mangleTable == old(kernel.mangleTable) && kernel.natTable == Laid(base, rules + [rule], pre)
  {
    ghost var t := base[PREROUTING := pre];
    assert kernel.natTable == t[ISTIO_OUTPUT := rules];
    Appends(t, ISTIO_OUTPUT, rules, rule);
    var ok := kernel.Iptables(false, Append(ISTIO_OUTPUT, rule));
    assert t[ISTIO_OUTPUT := rules + [rule]] == Laid(base, rules + [rule], pre);
  }

  method InsertFirst(kernel: Kernel, rule: Rule, ghost base: Table, ghost rules: seq<Rule>, ghost pre: seq<Rule>)
    requires kernel.natTable == Laid(base, rules, pre) && Simple(rule) && ISTIO_REDIRECT in base
    modifies kernel
    ensures kernel.mangleTable == old(kernel.mangleTable) && kernel.natTable == Laid(base, rules, [rule] + pre)
  {
    Inserts(base[ISTIO_OUTPUT := rules], PREROUTING, pre, rule);
    var ok := kernel.Iptables(false, Insert(PREROUTING, rule));
  }

  method CreateOutput(kernel: Kernel, cfg: Config) returns (ok: bool)
    requires PREROUTING in kernel.natTable && OUTPUT in kernel.natTable && ISTIO_REDIRECT in kernel.natTable
    modifies kernel
    ensures kernel.mangleTable == old(kernel.mangleTable)
    ensures ok == old(ISTIO_OUTPUT !in kernel.natTable)
    ensures ok ==> kernel.natTable == WithOutput(cfg, old(kernel.natTable))
  {
    ghost var t := kernel.natTable;
    ok := kernel.Iptables(false, New(ISTIO_OUTPUT));
    if !ok {
      return;
    }
    Appends(t[ISTIO_OUTPUT := []], OUTPUT, t[OUTPUT], OUTPUT_JUMP);
    assert t[ISTIO_OUTPUT := []] == t[ISTIO_OUTPUT := []][OUTPUT := t[OUTPUT]];
    ok := kernel.Iptables(false, Append(OUTPUT, OUTPUT_JUMP));
    ghost var base := t[OUTPUT := t[OUTPUT] + [OUTPUT_JUMP]];
    ghost var pre := t[PREROUTING];
    assert kernel.natTable == Laid(base, [], pre);
    FillOutput(kernel, cfg, base, pre);
  }

  method FillOutput(kernel: Kernel, cfg: Config, ghost base: Table, ghost pre: seq<Rule>)
    requires kernel.natTable == Laid(base, [], pre) && ISTIO_REDIRECT in base
    modifies kernel
    ensures kernel.mangleTable == old(kernel.mangleTable)
            && kernel.natTable == Laid(base, OutputChain(cfg), Front(cfg) + pre)
  {
    if cfg.redirectLoopback {
      AppendOutput(kernel, Rule([OutInterface("lo"), DestinationNotIn(LOOPBACK)], Jump(ISTIO_REDIRECT)), base, [], pre);
    }
    assert [] + LoopbackRules(cfg) == LoopbackRules(cfg);
    AppendExemptions(kernel, cfg, base, LoopbackRules(cfg), pre);
    InsertReturns(kernel, cfg.interfaces, base, LoopbackRules(cfg) + Exemptions(cfg), pre);
    AppendInclusions(kernel, cfg, base, LoopbackRules(cfg) + Exemptions(cfg), ReturnFrom(cfg.interfaces) + pre);
    FrontSplits(cfg, pre);
  }

  lemma FrontSplits(cfg: Config, pre: seq<Rule>)
    ensures match cfg.outRanges
            case Everything => RedirectFrom(cfg.interfaces) + (ReturnFrom(cfg.interfaces) + pre) == Front(cfg) + pre
            case Only(ranges) =>
              RedirectRangesFrom(ranges, cfg.interfaces) + (ReturnFrom(cfg.interfaces) + pre) == Front(cfg) + pre
  {
  }

  method AppendExemptions(kernel: Kernel, cfg: Config, ghost base: Table, ghost rules: seq<Rule>, ghost pre: seq<Rule>)
    requires kernel.natTable == Laid(base, rules, pre) && ISTIO_REDIRECT in base
    modifies kernel
    ensures kernel.mangleTable == old(kernel.mangleTable) && kernel.natTable == Laid(base, rules + Exemptions(cfg), pre)
  {
    AppendUids(kernel, cfg.uids, base, rules, pre);
    ghost var r1 := rules + UidReturns(cfg.uids);
    AppendGids(kernel, cfg.gids, base, r1, pre);
    ghost var r2 := r1 + GidReturns(cfg.gids);
    AppendOutput(kernel, Rule([DestinationIn(LOOPBACK)], Return), base, r2, pre);
    ghost var r3 := r2 + [Rule([DestinationIn(LOOPBACK)], Return)];
    AppendRanges(kernel, cfg.exRanges, base, r3, pre);
    assert r3 + RangeRules(cfg.exRanges, Return) == rules + Exemptions(cfg);
  }

  method AppendUids(kernel: Kernel, ids: seq<nat>, ghost base: Table, ghost rules: seq<Rule>, ghost pre: seq<Rule>)
    requires kernel.natTable == Laid(base, rules, pre) && ISTIO_REDIRECT in base
    modifies kernel
    ensures kernel.mangleTable == old(kernel.mangleTable) && kernel.natTable == Laid(base, rules + UidReturns(ids), pre)
  {
    assert rules == rules + UidReturns(ids[..0]);
    for i := 0 to |ids|
      invariant kernel.mangleTable == old(kernel.mangleTable)
                && kernel.natTable == Laid(base, rules + UidReturns(ids[..i]), pre)
    {
      AppendOutput(kernel, Rule([Uid(ids[i])], Return), base, rules + UidReturns(ids[..i]), pre);
      assert rules + UidReturns(ids[..i]) + [Rule([Uid(ids[i])], Return)] == rules + UidReturns(ids[..i + 1]);
    }
    assert ids[..|ids|] == ids;
  }

  method AppendGids(kernel: Kernel, ids: seq<nat>, ghost base: Table, ghost rules: seq<Rule>, ghost pre: seq<Rule>)
    requires kernel.natTable == Laid(base, rules, pre) && ISTIO_REDIRECT in base
    modifies kernel
    ensures kernel.mangleTable == old(kernel.mangleTable) && kernel.natTable == Laid(base, rules + GidReturns(ids), pre)
  {
    assert rules == rules + GidReturns(ids[..0]);
    for i := 0 to |ids|
      invariant kernel.mangleTable == old(kernel.mangleTable)
                && kernel.natTable == Laid(base, rules + GidReturns(ids[..i]), pre)
    {
      AppendOutput(kernel, Rule([Gid(ids[i])], Return), base, rules + GidReturns(ids[..i]), pre);
      assert rules + GidReturns(ids[..i]) + [Rule([Gid(ids[i])], Return)] == rules + GidReturns(ids[..i + 1]);
    }
    assert ids[..|ids|] == ids;
  }

  method AppendRanges(kernel: Kernel, ranges: seq<string>, ghost base: Table, ghost rules: seq<Rule>,
                      ghost pre: seq<Rule>)
    requires kernel.natTable == Laid(base, rules, pre) && ISTIO_REDIRECT in base
    modifies kernel
    ensures kernel.mangleTable == old(kernel.mangleTable)
            && kernel.natTable == Laid(base, rules + RangeRules(ranges, Return), pre)
  {
    assert rules == rules + RangeRules(ranges[..0], Return);
    for i := 0 to |ranges|
      invariant kernel.mangleTable == old(kernel.mangleTable)
                && kernel.natTable == Laid(base, rules + RangeRules(ranges[..i], Return), pre)
    {
      ghost var done := rules + RangeRules(ranges[..i], Return);
      AppendOutput(kernel, Rule([DestinationIn(ranges[i])], Return), base, done, pre);
      assert done + [Rule([DestinationIn(ranges[i])], Return)] == rules + RangeRules(ranges[..i + 1], Return);
    }
    assert ranges[..|ranges|] == ranges;
  }

  method InsertReturns(kernel: Kernel, interfaces: seq<string>, ghost base: Table, ghost rules: seq<Rule>,
                       ghost pre: seq<Rule>)
    requires kernel.natTable == Laid(base, rules, pre) && ISTIO_REDIRECT in base
    modifies kernel
    ensures kernel.mangleTable == old(kernel.mangleTable)
            && kernel.natTable == Laid(base, rules, ReturnFrom(interfaces) + pre)
  {
    assert pre == [] + pre;
    for i := 0 to |interfaces|
      invariant kernel.mangleTable == old(kernel.mangleTable)
                && kernel.natTable == Laid(base, rules, ReturnFrom(interfaces[..i]) + pre)
    {
      ghost var done := ReturnFrom(interfaces[..i]) + pre;
      InsertFirst(kernel, Rule([InInterface(interfaces[i])], Return), base, rules, done);
      assert interfaces[..i + 1][..i] == interfaces[..i];
      assert [Rule([InInterface(interfaces[i])], Return)] + done == ReturnFrom(interfaces[..i + 1]) + pre;
    }
    assert interfaces[..|interfaces|] == interfaces;
  }

  method InsertRedirects(kernel: Kernel, interfaces: seq<string>, ghost base: Table, ghost rules: seq<Rule>,
                         ghost pre: seq<Rule>)
    requires kernel.natTable == Laid(base, rules, pre) && ISTIO_REDIRECT in base
    modifies kernel
    ensures kernel.mangleTable == old(kernel.mangleTable)
            && kernel.natTable == Laid(base, rules, RedirectFrom(interfaces) + pre)
  {
    assert pre == [] + pre;
    for i := 0 to |interfaces|
      invariant kernel.mangleTable == old(kernel.mangleTable)
                && kernel.natTable == Laid(base, rules, RedirectFrom(interfaces[..i]) + pre)
    {
      ghost var done := RedirectFrom(interfaces[..i]) + pre;
      InsertFirst(kernel, Rule([InInterface(interfaces[i])], Jump(ISTIO_REDIRECT)), base, rules, done);
      assert interfaces[..i + 1][..i] == interfaces[..i];
      assert [Rule([InInterface(interfaces[i])], Jump(ISTIO_REDIRECT))] + done ==
               RedirectFrom(interfaces[..i + 1]) + pre;
    }
    assert interfaces[..|interfaces|] == interfaces;
  }

  method InsertRange(kernel: Kernel, range: string, interfaces: seq<string>, ghost base: Table,
                     ghost rules: seq<Rule>, ghost pre: seq<Rule>)
    requires kernel.natTable == Laid(base, rules, pre) && ISTIO_REDIRECT in base
    modifies kernel
    ensures kernel.mangleTable == old(kernel.mangleTable)
            && kernel.natTable == Laid(base, rules, RedirectRangeFrom(range, interfaces) + pre)
  {
    assert pre == [] + pre;
    for i := 0 to |interfaces|
      invariant kernel.mangleTable == old(kernel.mangleTable)
      invariant kernel.natTable == Laid(base, rules, RedirectRangeFrom(range, interfaces[..i]) + pre)
    {
      ghost var done := RedirectRangeFrom(range, interfaces[..i]) + pre;
      var rule := Rule([InInterface(interfaces[i]), DestinationIn(range)], Jump(ISTIO_REDIRECT));
      InsertFirst(kernel, rule, base, rules, done);
      assert interfaces[..i + 1][..i] == interfaces[..i];
      assert [rule] + done == RedirectRangeFrom(range, interfaces[..i + 1]) + pre;
    }
    assert interfaces[..|interfaces|] == interfaces;
  }

  method AppendInclusions(kernel: Kernel, cfg: Config, ghost base: Table, ghost rules: seq<Rule>, ghost pre: seq<Rule>)
    requires kernel.natTable == Laid(base, rules, pre) && ISTIO_REDIRECT in base
    modifies kernel
    ensures kernel.mangleTable == old(kernel.mangleTable)
    ensures match cfg.outRanges
            case Everything =>
              kernel.natTable == Laid(base, rules + Inclusions(cfg), RedirectFrom(cfg.interfaces) + pre)
            case Only(ranges) =>
              kernel.natTable ==
                Laid(base, rules + Inclusions(cfg), RedirectRangesFrom(ranges, cfg.interfaces) + pre)
  {
    match cfg.outRanges
    case Everything =>
      AppendOutput(kernel, Rule([], Jump(ISTIO_REDIRECT)), base, rules, pre);
      InsertRedirects(kernel, cfg.interfaces, base, rules + Inclusions(cfg), pre);
    case Only(ranges) =>
      if ranges != [] {
        AppendListedRanges(kernel, ranges, cfg.interfaces, base, rules, pre);
        ghost var listed := RangeRules(ranges, Jump(ISTIO_REDIRECT));
        AppendOutput(kernel, Rule([], Return), base, rules + listed, RedirectRangesFrom(ranges, cfg.interfaces) + pre);
        assert rules + listed + [Rule([], Return)] == rules + Inclusions(cfg);
      } else {
        assert rules + Inclusions(cfg) == rules && RedirectRangesFrom(ranges, cfg.interfaces) + pre == pre;
      }
  }

  method AppendListedRanges(kernel: Kernel, ranges: seq<string>, interfaces: seq<string>, ghost base: Table,
                            ghost rules: seq<Rule>, ghost pre: seq<Rule>)
    requires kernel.natTable == Laid(base, rules, pre) && ISTIO_REDIRECT in base
    modifies kernel
    ensures kernel.mangleTable == old(kernel.mangleTable)
    ensures kernel.natTable ==
              Laid(base, rules + RangeRules(ranges, Jump(ISTIO_REDIRECT)), RedirectRangesFrom(ranges, interfaces) + pre)
  {
    assert rules == rules + RangeRules(ranges[..0], Jump(ISTIO_REDIRECT))
           && pre == RedirectRangesFrom(ranges[..0], interfaces) + pre;
    for i := 0 to |ranges|
      invariant kernel.mangleTable == old(kernel.mangleTable)
      invariant kernel.natTable ==
                Laid(base, rules + RangeRules(ranges[..i], Jump(ISTIO_REDIRECT)),
                     RedirectRangesFrom(ranges[..i], interfaces) + pre)
    {
      ghost var done, front :=
        rules + RangeRules(ranges[..i], Jump(ISTIO_REDIRECT)), RedirectRangesFrom(ranges[..i], interfaces) + pre;
      InsertRange(kernel, ranges[i], interfaces, base, done, front);
      var rule := Rule([DestinationIn(ranges[i])], Jump(ISTIO_REDIRECT));
      AppendOutput(kernel, rule, base, done, RedirectRangeFrom(ranges[i], interfaces) + front);
      assert ranges[..i + 1][..i] == ranges[..i];
      assert done + [rule] == rules + RangeRules(ranges[..i + 1], Jump(ISTIO_REDIRECT));
      assert RedirectRangeFrom(ranges[i], interfaces) + front == RedirectRangesFrom(ranges[..i + 1], interfaces) + pre;
    }
    assert ranges[..|ranges|] == ranges;
  }

  // ----- the whole script

  /** The old chains are removed; a command that fails is ignored. */
  method TearDown(kernel: Kernel)
    modifies kernel
    ensures kernel.natTable == TornDownNat(old(kernel.natTable))
            && kernel.mangleTable == TornDownMangle(old(kernel.mangleTable))
  {
    var ok := kernel.Iptables(false, Delete(PREROUTING, INBOUND_JUMP));
    ok := kernel.Iptables(true, Delete(PREROUTING, INBOUND_JUMP));
    ok := kernel.Iptables(false, Delete(OUTPUT, OUTPUT_JUMP));

    ok := kernel.Iptables(false, Command.Flush(ISTIO_OUTPUT));
    ok := kernel.Iptables(false, Drop(ISTIO_OUTPUT));
    ok := kernel.Iptables(false, Command.Flush(ISTIO_INBOUND));
    ok := kernel.Iptables(false, Drop(ISTIO_INBOUND));
    ok := kernel.Iptables(true, Command.Flush(ISTIO_INBOUND));
    ok := kernel.Iptables(true, Drop(ISTIO_INBOUND));
    ok := kernel.Iptables(true, Command.Flush(ISTIO_DIVERT));
    ok := kernel.Iptables(true, Drop(ISTIO_DIVERT));
    ok := kernel.Iptables(true, Command.Flush(ISTIO_TPROXY));
    ok := kernel.Iptables(true, Drop(ISTIO_TPROXY));

    ok := kernel.Iptables(false, Command.Flush(ISTIO_REDIRECT));
    ok := kernel.Iptables(false, Drop(ISTIO_REDIRECT));
    ok := kernel.Iptables(false, Command.Flush(ISTIO_IN_REDIRECT));
    ok := kernel.Iptables(false, Drop(ISTIO_IN_REDIRECT));
  }

  /** From here on the first command that fails ends the script. */
  method SetUp(kernel: Kernel, cfg: Config) returns (ok: bool)
    requires BuiltIn(kernel.natTable, kernel.mangleTable)
    modifies kernel
    ensures ok == old(Vacant(cfg, kernel.natTable, kernel.mangleTable))
    ensures ok ==>
              kernel.natTable == InstalledNat(cfg, old(kernel.natTable))
              && kernel.mangleTable == InstalledMangle(cfg, old(kernel.mangleTable))
  {
    ok := CreateRedirects(kernel, cfg);
    if !ok {
      return;
    }
    if cfg.inPorts != Only([]) {
      if cfg.tproxy {
        ok := CreateTproxy(kernel, cfg);
        if !ok {
          return;
        }
      }
      ok := CreateInbound(kernel, cfg);
      if !ok {
        return;
      }
    }
    ok := CreateOutput(kernel, cfg);
  }

  method Script(kernel: Kernel, cfg: Config) returns (ok: bool)
    requires BuiltIn(kernel.natTable, kernel.mangleTable)
    modifies kernel
    ensures var nat', mangleTable' := TornDownNat(old(kernel.natTable)), TornDownMangle(old(kernel.mangleTable));
            && BuiltIn(nat', mangleTable') && ok == Vacant(cfg, nat', mangleTable')
            && (ok ==>
               kernel.natTable == InstalledNat(cfg, nat') && kernel.mangleTable == InstalledMangle(cfg, mangleTable'))
  {
    TearDown(kernel);
    ok := SetUp(kernel, cfg);
  }
}
