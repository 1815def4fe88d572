/** The script that sets up the traffic capture of a sidecar proxy, and the rules it leaves. */
module SidecarRules {
  import opened Wrappers
  import opened PacketFilter

  /** A list, or the wildcard "*". An empty list is an empty or unset variable. */
  datatype Included<T> = Everything | Only(list: seq<T>)

  datatype Config = Config(
    proxyPort: nat, capturePort: nat, uids: seq<nat>, gids: seq<nat>,
    tproxy: bool, mark: nat, inPorts: Included<nat>, exPorts: seq<nat>,
    outRanges: Included<string>, exRanges: seq<string>,
    interfaces: seq<string>, redirectLoopback: bool)

  const LOOPBACK := "127.0.0.1/32"
  const PREROUTING := "PREROUTING"
  const OUTPUT := "OUTPUT"
  const ISTIO_REDIRECT := "ISTIO_REDIRECT"
  const ISTIO_IN_REDIRECT := "ISTIO_IN_REDIRECT"
  const ISTIO_DIVERT := "ISTIO_DIVERT"
  const ISTIO_TPROXY := "ISTIO_TPROXY"
  const ISTIO_INBOUND := "ISTIO_INBOUND"
  const ISTIO_OUTPUT := "ISTIO_OUTPUT"

  const INBOUND_JUMP := Rule([Tcp], Jump(ISTIO_INBOUND))
  const OUTPUT_JUMP := Rule([Tcp], Jump(ISTIO_OUTPUT))

  // ----- the rules

  function RedirectChain(port: nat): seq<Rule> {
    [Rule([Tcp], Redirect(port))]
  }

  function DivertChain(cfg: Config): seq<Rule> {
    [Rule([], SetMark(cfg.mark)), Rule([], Accept)]
  }

  function TproxyChain(cfg: Config): seq<Rule> {
    [Rule([DestinationNotIn(LOOPBACK), Tcp], TProxy(cfg.mark, cfg.proxyPort))]
  }

  predicate Captures(cfg: Config) {
    cfg.inPorts != Only([])
  }

  function PortRule(port: nat, target: Target): Rule {
    Rule([Tcp, DestinationPort(port)], target)
  }

  function PortReturns(ports: seq<nat>): seq<Rule> {
    seq(|ports|, i requires 0 <= i < |ports| => PortRule(ports[i], Return))
  }

  /** The rules for one explicitly listed port; the script appends the socket rule twice. */
  function ListedPort(cfg: Config, port: nat): seq<Rule> {
    if cfg.tproxy then
      [Rule([Tcp, DestinationPort(port), Socket], Jump(ISTIO_DIVERT)),
       Rule([Tcp, DestinationPort(port), Socket], Jump(ISTIO_DIVERT)),
       PortRule(port, Jump(ISTIO_TPROXY))]
    else [PortRule(port, Jump(ISTIO_IN_REDIRECT))]
  }

  function ListedPorts(cfg: Config, ports: seq<nat>): seq<Rule> {
    if ports == [] then [] else ListedPorts(cfg, ports[..|ports| - 1]) + ListedPort(cfg, ports[|ports| - 1])
  }

  function AllPorts(cfg: Config): seq<Rule> {
    if cfg.tproxy then [Rule([Tcp, Socket], Jump(ISTIO_DIVERT)), Rule([Tcp], Jump(ISTIO_TPROXY))]
    else [Rule([Tcp], Jump(ISTIO_IN_REDIRECT))]
  }

  function InboundChain(cfg: Config): seq<Rule> {
    match cfg.inPorts
    case Everything => [PortRule(22, Return)] + PortReturns(cfg.exPorts) + AllPorts(cfg)
    case Only(ports) => ListedPorts(cfg, ports)
  }

  function LoopbackRules(cfg: Config): seq<Rule> {
    if cfg.redirectLoopback then [Rule([OutInterface("lo"), DestinationNotIn(LOOPBACK)], Jump(ISTIO_REDIRECT))] else []
  }

  function UidReturns(ids: seq<nat>): seq<Rule> {
    seq(|ids|, i requires 0 <= i < |ids| => Rule([Uid(ids[i])], Return))
  }

  function GidReturns(ids: seq<nat>): seq<Rule> {
    seq(|ids|, i requires 0 <= i < |ids| => Rule([Gid(ids[i])], Return))
  }

  function RangeRules(ranges: seq<string>, target: Target): seq<Rule> {
    seq(|ranges|, i requires 0 <= i < |ranges| => Rule([DestinationIn(ranges[i])], target))
  }

  /** What is never captured. */
  function Exemptions(cfg: Config): seq<Rule> {
    UidReturns(cfg.uids) + GidReturns(cfg.gids) + [Rule([DestinationIn(LOOPBACK)], Return)]
    + RangeRules(cfg.exRanges, Return)
  }

  function Inclusions(cfg: Config): seq<Rule> {
    match cfg.outRanges
    case Everything => [Rule([], Jump(ISTIO_REDIRECT))]
    case Only(ranges) =>
      if ranges == [] then [] else RangeRules(ranges, Jump(ISTIO_REDIRECT)) + [Rule([], Return)]
  }

  function OutputChain(cfg: Config): seq<Rule> {
    LoopbackRules(cfg) + Exemptions(cfg) + Inclusions(cfg)
  }

  // ----- the rules that are inserted before all others, the last one first

  function ReturnFrom(interfaces: seq<string>): seq<Rule> {
    if interfaces == [] then []
    else [Rule([InInterface(interfaces[|interfaces| - 1])], Return)] + ReturnFrom(interfaces[..|interfaces| - 1])
  }

  function RedirectFrom(interfaces: seq<string>): seq<Rule> {
    if interfaces == [] then []
    else [Rule([InInterface(interfaces[|interfaces| - 1])], Jump(ISTIO_REDIRECT))]
         + RedirectFrom(interfaces[..|interfaces| - 1])
  }

  function RedirectRangeFrom(range: string, interfaces: seq<string>): seq<Rule> {
    if interfaces == [] then []
    else
      [Rule([InInterface(interfaces[|interfaces| - 1]), DestinationIn(range)], Jump(ISTIO_REDIRECT))]
      + RedirectRangeFrom(range, interfaces[..|interfaces| - 1])
  }

  function RedirectRangesFrom(ranges: seq<string>, interfaces: seq<string>): seq<Rule> {
    if ranges == [] then []
    else RedirectRangeFrom(ranges[|ranges| - 1], interfaces) + RedirectRangesFrom(ranges[..|ranges| - 1], interfaces)
  }

  function Front(cfg: Config): seq<Rule> {
    (match cfg.outRanges
     case Everything => RedirectFrom(cfg.interfaces)
     case Only(ranges) => RedirectRangesFrom(ranges, cfg.interfaces))
    + ReturnFrom(cfg.interfaces)
  }

  // ----- the tables that the script leaves

  /** The chains that the kernel provides. */
  predicate BuiltIn(natTable: Table, mangleTable: Table) {
    PREROUTING in natTable && OUTPUT in natTable && PREROUTING in mangleTable
  }

  predicate InNat(cfg: Config) {
    Captures(cfg) && !cfg.tproxy
  }

  predicate InMangle(cfg: Config) {
    Captures(cfg) && cfg.tproxy
  }

  /** The chains that the script creates are not there yet. */
  predicate Vacant(cfg: Config, natTable: Table, mangleTable: Table) {
    && ISTIO_REDIRECT !in natTable && ISTIO_IN_REDIRECT !in natTable && ISTIO_OUTPUT !in natTable
    && (InNat(cfg) ==> ISTIO_INBOUND !in natTable)
    && (InMangle(cfg) ==> ISTIO_DIVERT !in mangleTable && ISTIO_TPROXY !in mangleTable && ISTIO_INBOUND !in mangleTable)
  }

  function WithRedirects(cfg: Config, t: Table): Table {
    t[ISTIO_REDIRECT := RedirectChain(cfg.proxyPort)][ISTIO_IN_REDIRECT := RedirectChain(cfg.capturePort)]
  }

  function WithInbound(cfg: Config, t: Table): Table
    requires PREROUTING in t
  {
    t[ISTIO_INBOUND := InboundChain(cfg)][PREROUTING := t[PREROUTING] + [INBOUND_JUMP]]
  }

  function WithTproxy(cfg: Config, t: Table): Table {
    t[ISTIO_DIVERT := DivertChain(cfg)][ISTIO_TPROXY := TproxyChain(cfg)]
  }

  function WithOutput(cfg: Config, t: Table): Table
    requires PREROUTING in t && OUTPUT in t
  {
    t[ISTIO_OUTPUT := OutputChain(cfg)][OUTPUT := t[OUTPUT] + [OUTPUT_JUMP]][PREROUTING := Front(cfg) + t[PREROUTING]]
  }

  function InstalledNat(cfg: Config, t: Table): Table
    requires PREROUTING in t && OUTPUT in t
  {
    WithOutput(cfg, if InNat(cfg) then WithInbound(cfg, WithRedirects(cfg, t)) else WithRedirects(cfg, t))
  }

  function InstalledMangle(cfg: Config, t: Table): Table
    requires PREROUTING in t
  {
    if InMangle(cfg) then WithInbound(cfg, WithTproxy(cfg, t)) else t
  }

  // ----- removal

  function TornDownNat(t: Table): Table {
    var t1 := Exec(Exec(t, Delete(PREROUTING, INBOUND_JUMP)), Delete(OUTPUT, OUTPUT_JUMP));
    Remove(Remove(Remove(Remove(t1, ISTIO_OUTPUT), ISTIO_INBOUND), ISTIO_REDIRECT), ISTIO_IN_REDIRECT)
  }

  function TornDownMangle(t: Table): Table {
    Remove(Remove(Remove(Exec(t, Delete(PREROUTING, INBOUND_JUMP)), ISTIO_INBOUND), ISTIO_DIVERT), ISTIO_TPROXY)
  }

  /** Empty a chain and drop it. */
  function Remove(t: Table, chain: string): Table {
    Exec(Exec(t, Command.Flush(chain)), Drop(chain))
  }
}
