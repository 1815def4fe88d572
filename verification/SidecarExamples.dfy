/** The tables of two runs of the script, rule by rule, as `iptables -S` would list them. */
module SidecarExamples {
  import opened Wrappers
  import opened PacketFilter
  import opened SidecarRules

  /** Everything inbound but port 9090, and outbound what goes to 10.0.0.0/8 but not to 10.1.0.0/16. */
  function Redirecting(): Config {
    Config(15001, 15006, [1337], [1338], false, 1337, Everything, [9090],
           Only(["10.0.0.0/8"]), ["10.1.0.0/16"], ["vnet0"], true)
  }

  lemma ConfiguredChains()
    ensures InboundChain(Redirecting()) ==
            [Rule([Tcp, DestinationPort(22)], Return), Rule([Tcp, DestinationPort(9090)], Return),
             Rule([Tcp], Jump("ISTIO_IN_REDIRECT"))]
    ensures OutputChain(Redirecting()) ==
            [Rule([OutInterface("lo"), DestinationNotIn("127.0.0.1/32")], Jump("ISTIO_REDIRECT")),
             Rule([Uid(1337)], Return), Rule([Gid(1338)], Return),
             Rule([DestinationIn("127.0.0.1/32")], Return), Rule([DestinationIn("10.1.0.0/16")], Return),
             Rule([DestinationIn("10.0.0.0/8")], Jump("ISTIO_REDIRECT")), Rule([], Return)]
    ensures Front(Redirecting()) ==
            [Rule([InInterface("vnet0"), DestinationIn("10.0.0.0/8")], Jump("ISTIO_REDIRECT")),
             Rule([InInterface("vnet0")], Return)]
  {
    var interfaces, ranges := ["vnet0"], ["10.0.0.0/8"];
    assert interfaces[..0] == [] && ranges[..0] == [];
    assert RedirectRangeFrom("10.0.0.0/8", interfaces) ==
           [Rule([InInterface("vnet0"), DestinationIn("10.0.0.0/8")], Jump("ISTIO_REDIRECT"))];
    assert ReturnFrom(interfaces) == [Rule([InInterface("vnet0")], Return)];
  }

  /** The nat table after a run on an empty one. */
  lemma RedirectingTables()
    ensures InstalledNat(Redirecting(), map["PREROUTING" := [], "OUTPUT" := []]) ==
            map[
              "PREROUTING" := [
                Rule([InInterface("vnet0"), DestinationIn("10.0.0.0/8")], Jump("ISTIO_REDIRECT")),
                Rule([InInterface("vnet0")], Return),
                Rule([Tcp], Jump("ISTIO_INBOUND"))],
              "OUTPUT" := [Rule([Tcp], Jump("ISTIO_OUTPUT"))],
              "ISTIO_REDIRECT" := [Rule([Tcp], Redirect(15001))],
              "ISTIO_IN_REDIRECT" := [Rule([Tcp], Redirect(15006))],
              "ISTIO_INBOUND" := InboundChain(Redirecting()),
              "ISTIO_OUTPUT" := OutputChain(Redirecting())]
    ensures InstalledMangle(Redirecting(), map["PREROUTING" := []]) == map["PREROUTING" := []]
  {
    ConfiguredChains();
    var none: seq<Rule> := [];
    assert InNat(Redirecting()) && !InMangle(Redirecting());
    assert none + [INBOUND_JUMP] == [INBOUND_JUMP] && none + [OUTPUT_JUMP] == [OUTPUT_JUMP];
    assert Front(Redirecting()) + [INBOUND_JUMP] ==
           [Rule([InInterface("vnet0"), DestinationIn("10.0.0.0/8")], Jump("ISTIO_REDIRECT")),
            Rule([InInterface("vnet0")], Return), Rule([Tcp], Jump("ISTIO_INBOUND"))];
  }

  /** Port 80 in TPROXY mode, and nothing outbound. */
  function Marking(): Config {
    Config(15001, 15006, [], [], true, 1337, Only([80]), [], Only([]), [], [], false)
  }

  lemma MarkingTables()
    ensures InstalledMangle(Marking(), map["PREROUTING" := []]) ==
            map[
              "PREROUTING" := [Rule([Tcp], Jump("ISTIO_INBOUND"))],
              "ISTIO_DIVERT" := [Rule([], SetMark(1337)), Rule([], Accept)],
              "ISTIO_TPROXY" := [Rule([DestinationNotIn("127.0.0.1/32"), Tcp], TProxy(1337, 15001))],
              "ISTIO_INBOUND" := [
                Rule([Tcp, DestinationPort(80), Socket], Jump("ISTIO_DIVERT")),
                Rule([Tcp, DestinationPort(80), Socket], Jump("ISTIO_DIVERT")),
                Rule([Tcp, DestinationPort(80)], Jump("ISTIO_TPROXY"))]]
  {
    var ports := [80];
    assert ports[..0] == [];
    var none: seq<Rule> := [];
    assert ListedPorts(Marking(), ports) == none + ListedPort(Marking(), 80) == ListedPort(Marking(), 80);
    assert InMangle(Marking()) && none + [INBOUND_JUMP] == [INBOUND_JUMP];
  }
}
