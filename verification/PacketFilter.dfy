/** iptables: tables of rule chains, the commands that change them, and how a packet walks a chain. */
module PacketFilter {
  import opened Wrappers

  datatype Condition =
    | Tcp
    | DestinationPort(port: nat)
    | DestinationIn(range: string)
    | DestinationNotIn(range: string)
    | InInterface(name: string)
    | OutInterface(name: string)
    | Uid(id: nat)
    | Gid(id: nat)
    | Socket

  datatype Target =
    | Return
    | Accept
    | Redirect(toPort: nat)
    | SetMark(mark: nat)
    | TProxy(tproxyMark: nat, onPort: nat)
    | Jump(chain: string)

  datatype Rule = Rule(conditions: seq<Condition>, target: Target)

  type Table = map<string, seq<Rule>>

  // ----- commands

  datatype Command =
    | New(chain: string)
    | Append(chain: string, rule: Rule)
    | Insert(chain: string, rule: Rule)
    | Delete(chain: string, rule: Rule)
    | Flush(chain: string)
    | Drop(chain: string)

  predicate JumpsTo(rules: seq<Rule>, chain: string) {
    exists i :: 0 <= i < |rules| && rules[i].target == Jump(chain)
  }

  predicate Referenced(t: Table, chain: string) {
    exists c :: c in t && JumpsTo(t[c], chain)
  }

  predicate TargetExists(t: Table, rule: Rule) {
    rule.target.Jump? ==> rule.target.chain in t
  }

  function RemoveFirst(rules: seq<Rule>, rule: Rule): seq<Rule>
    requires rule in rules
  {
    if rules[0] == rule then rules[1..] else [rules[0]] + RemoveFirst(rules[1..], rule)
  }

  predicate Possible(t: Table, command: Command) {
    match command
    case New(c) => c !in t
    case Append(c, rule) => c in t && TargetExists(t, rule)
    case Insert(c, rule) => c in t && TargetExists(t, rule)
    case Delete(c, rule) => c in t && rule in t[c]
    case Flush(c) => c in t
    case Drop(c) => c in t && t[c] == [] && !Referenced(t, c)
  }

  /** The table after a command; one that fails changes nothing. */
  function Exec(t: Table, command: Command): Table {
    if !Possible(t, command) then t
    else match command
      case New(c) => t[c := []]
      case Append(c, rule) => t[c := t[c] + [rule]]
      case Insert(c, rule) => t[c := [rule] + t[c]]
      case Delete(c, rule) => t[c := RemoveFirst(t[c], rule)]
      case Flush(c) => t[c := []]
      case Drop(c) => t - {c}
  }

  /** One more rule at the end of a chain that is known to hold `rules`. */
  lemma Appends(base: Table, c: string, rules: seq<Rule>, rule: Rule)
    requires TargetExists(base[c := rules], rule)
    ensures Possible(base[c := rules], Append(c, rule))
    ensures Exec(base[c := rules], Append(c, rule)) == base[c := rules + [rule]]
  {
    assert base[c := rules][c := rules + [rule]] == base[c := rules + [rule]];
  }

  /** One more rule at the head of a chain that is known to hold `rules`. */
  lemma Inserts(base: Table, c: string, rules: seq<Rule>, rule: Rule)
    requires TargetExists(base[c := rules], rule)
    ensures Possible(base[c := rules], Insert(c, rule))
    ensures Exec(base[c := rules], Insert(c, rule)) == base[c := [rule] + rules]
  {
    assert base[c := rules][c := [rule] + rules] == base[c := [rule] + rules];
  }

  /** Every jump leads to a chain of the table. */
  predicate Linked(t: Table) {
    forall c, i :: c in t && 0 <= i < |t[c]| && t[c][i].target.Jump? ==> t[c][i].target.chain in t
  }

  lemma {:induction false} RemovedFrom(rules: seq<Rule>, rule: Rule)
    requires rule in rules
    ensures forall r :: r in RemoveFirst(rules, rule) ==> r in rules
  {
    if rules[0] != rule {
      RemovedFrom(rules[1..], rule);
    }
  }

  /** No command, in whatever order, ever leaves a jump to a chain that is not there. */
  lemma ExecKeepsLinks(t: Table, command: Command)
    requires Linked(t)
    ensures Linked(Exec(t, command))
  {
    if Possible(t, command) {
      match command
      case Delete(c, rule) =>
        RemovedFrom(t[c], rule);
        DeleteKeepsLinks(t, c, RemoveFirst(t[c], rule));
      case Drop(c) => DropKeepsLinks(t, c);
      case _ =>
    }
  }

  lemma DeleteKeepsLinks(t: Table, c: string, rules: seq<Rule>)
    requires Linked(t) && c in t && forall r :: r in rules ==> r in t[c]
    ensures Linked(t[c := rules])
  {
    forall i | 0 <= i < |rules| && rules[i].target.Jump?
      ensures rules[i].target.chain in t
    {
      assert rules[i] in t[c];
    }
  }

  lemma DropKeepsLinks(t: Table, c: string)
    requires Linked(t) && c in t && !Referenced(t, c)
    ensures Linked(t - {c})
  {
    forall d, i | d in t - {c} && 0 <= i < |t[d]| && t[d][i].target.Jump?
      ensures t[d][i].target.chain in t - {c}
    {
      assert !JumpsTo(t[d], c);
    }
  }

  /** The rule that was appended last, if it occurs nowhere before, is the one that is deleted. */
  lemma {:induction false} RemoveLast(rules: seq<Rule>, rule: Rule)
    requires rule !in rules
    ensures RemoveFirst(rules + [rule], rule) == rules
  {
    if rules != [] {
      assert (rules + [rule])[1..] == rules[1..] + [rule];
      RemoveLast(rules[1..], rule);
    }
  }

  // ----- packets

  /**
   `ranges` are the address ranges that hold the destination; `socket` says whether an established socket
   takes the packet.
   */
  datatype Packet = Packet(
    tcp: bool, port: nat, ranges: set<string>, inInterface: string, outInterface: string,
    uid: Option<nat>, gid: Option<nat>, socket: bool)

  predicate Holds(c: Condition, p: Packet) {
    match c
    case Tcp => p.tcp
    case DestinationPort(port) => p.port == port
    case DestinationIn(range) => range in p.ranges
    case DestinationNotIn(range) => range !in p.ranges
    case InInterface(name) => p.inInterface == name
    case OutInterface(name) => p.outInterface == name
    case Uid(id) => p.uid == Some(id)
    case Gid(id) => p.gid == Some(id)
    case Socket => p.socket
  }

  predicate Matches(rule: Rule, p: Packet) {
    forall i :: 0 <= i < |rule.conditions| ==> Holds(rule.conditions[i], p)
  }

  /** How a walk ends: past the last rule, by a RETURN, or by a verdict. The first three carry the packet's mark. */
  datatype Outcome =
    | Fell(mark: nat)
    | Returned(mark: nat)
    | Accepted(mark: nat)
    | Redirected(port: nat)
    | Proxied(tproxyMark: nat, onPort: nat)
    | TooDeep

  /** First match decides, except that a jump may come back and a mark goes on. */
  function Walk(t: Table, rules: seq<Rule>, p: Packet, mark: nat, depth: nat): Outcome
    decreases depth, |rules|
  {
    if rules == [] then Fell(mark)
    else if !Matches(rules[0], p) then Walk(t, rules[1..], p, mark, depth)
    else match rules[0].target
      case Return => Returned(mark)
      case Accept => Accepted(mark)
      case Redirect(port) => Redirected(port)
      case SetMark(m) => Walk(t, rules[1..], p, m, depth)
      case TProxy(m, port) => Proxied(m, port)
      case Jump(c) =>
        if depth == 0 || c !in t then TooDeep
        else
          match Walk(t, t[c], p, mark, depth - 1)
          case Fell(m) => Walk(t, rules[1..], p, m, depth)
          case Returned(m) => Walk(t, rules[1..], p, m, depth)
          case other => other
  }

  /** A walk of two lists, one after the other. */
  lemma {:induction false} WalkConcat(t: Table, a: seq<Rule>, b: seq<Rule>, p: Packet, mark: nat, depth: nat)
    ensures var first := Walk(t, a, p, mark, depth);
            Walk(t, a + b, p, mark, depth) == if first.Fell? then Walk(t, b, p, first.mark, depth) else first
    decreases |a|
  {
    if a == [] {
      assert a + b == b;
    } else {
      assert (a + b)[1..] == a[1..] + b;
      WalkConcat(t, a[1..], b, p, mark, depth);
      if Matches(a[0], p) {
        match a[0].target
        case SetMark(m) => WalkConcat(t, a[1..], b, p, m, depth);
        case Jump(c) =>
          if depth > 0 && c in t {
            var inner := Walk(t, t[c], p, mark, depth - 1);
            if inner.Fell? || inner.Returned? {
              WalkConcat(t, a[1..], b, p, inner.mark, depth);
            }
          }
        case _ =>
      }
    }
  }

  predicate AnyMatches(rules: seq<Rule>, p: Packet) {
    exists i :: 0 <= i < |rules| && Matches(rules[i], p)
  }

  /** A list of rules with one target that ends the walk. */
  lemma {:induction false} WalkUniform(t: Table, rules: seq<Rule>, target: Target, p: Packet, mark: nat, depth: nat,
                                       hit: Outcome)
    requires forall i :: 0 <= i < |rules| ==> rules[i].target == target
    requires hit == Walk(t, [Rule([], target)], p, mark, depth) && !hit.Fell?
    ensures Walk(t, rules, p, mark, depth) == if AnyMatches(rules, p) then hit else Fell(mark)
    decreases |rules|
  {
    if rules != [] {
      WalkUniform(t, rules[1..], target, p, mark, depth, hit);
      assert forall i :: 1 <= i < |rules| ==> rules[i] == rules[1..][i - 1];
      if !Matches(rules[0], p) {
        if AnyMatches(rules, p) {
          var i :| 0 <= i < |rules| && Matches(rules[i], p);
          assert Matches(rules[1..][i - 1], p);
        }
      } else {
        HitFirst(t, rules, target, p, mark, depth, hit);
      }
    }
  }

  lemma HitFirst(t: Table, rules: seq<Rule>, target: Target, p: Packet, mark: nat, depth: nat, hit: Outcome)
    requires rules != [] && rules[0].target == target && Matches(rules[0], p)
    requires hit == Walk(t, [Rule([], target)], p, mark, depth) && !hit.Fell?
    ensures Walk(t, rules, p, mark, depth) == hit
  {
    var one := [Rule([], target)];
    assert Matches(one[0], p) && one[1..] == [];
  }
}
