/** When the script can run once more on the tables of its last run, and which chains keep it from doing so. */
module SidecarReruns {
  import opened Wrappers
  import opened PacketFilter
  import opened SidecarRules
  import opened SidecarTeardown

  /** Some chain jumps to `c` that has not been flushed. */
  predicate UsedBeside(t: Table, c: string, flushed: set<string>) {
    exists d :: d in t && d !in flushed && JumpsTo(t[d], c)
  }

  // ----- which chains a sequence of removals leaves

  /** Table `t` is `t0` after the removal of some chains: those that are still there are empty. */
  ghost predicate Without(t0: Table, t: Table, removed: set<string>) {
    && (forall d :: d !in removed ==> (d in t <==> d in t0) && (d in t ==> t[d] == t0[d]))
    && forall d :: d in removed && d in t ==> d in t0 && t[d] == []
  }

  /** A chain goes unless a chain uses it that is still as it was. */
  lemma RemoveOne(t0: Table, t: Table, removed: set<string>, c: string)
    requires Without(t0, t, removed) && c !in removed
    ensures Without(t0, Remove(t, c), removed + {c})
    ensures c in Remove(t, c) <==> c in t0 && UsedBeside(t0, c, removed + {c})
    ensures forall d :: d != c ==> (d in Remove(t, c) <==> d in t)
  {
    if c in t {
      var flushed := t[c := []];
      if UsedBeside(t0, c, removed + {c}) {
        var d :| d in t0 && d !in removed + {c} && JumpsTo(t0[d], c);
        assert d in flushed && JumpsTo(flushed[d], c);
      }
      if Referenced(flushed, c) {
        var d :| d in flushed && JumpsTo(flushed[d], c);
        assert d != c && d !in removed && JumpsTo(t0[d], c);
      }
    }
  }

  lemma ThreeRemoved(t: Table, a: string, b: string, c: string)
    requires a != b && a != c && b != c
    ensures var t' := Remove(Remove(Remove(t, a), b), c);
            && (a in t' <==> a in t && UsedBeside(t, a, {a}))
            && (b in t' <==> b in t && UsedBeside(t, b, {a, b}))
            && (c in t' <==> c in t && UsedBeside(t, c, {a, b, c}))
            && Without(t, t', {a, b, c})
  {
    var t1 := Remove(t, a);
    var t2 := Remove(t1, b);
    RemoveOne(t, t, {}, a);
    assert {} + {a} == {a} && {a} + {b} == {a, b} && {a, b} + {c} == {a, b, c};
    RemoveOne(t, t1, {a}, b);
    RemoveOne(t, t2, {a, b}, c);
  }

  lemma FourRemoved(t: Table, a: string, b: string, c: string, d: string)
    requires a != b && a != c && b != c && d != a && d != b && d != c
    ensures var t' := Remove(Remove(Remove(Remove(t, a), b), c), d);
            && (a in t' <==> a in t && UsedBeside(t, a, {a}))
            && (b in t' <==> b in t && UsedBeside(t, b, {a, b}))
            && (c in t' <==> c in t && UsedBeside(t, c, {a, b, c}))
            && (d in t' <==> d in t && UsedBeside(t, d, {a, b, c, d}))
  {
    ThreeRemoved(t, a, b, c);
    assert {a, b, c} + {d} == {a, b, c, d};
    RemoveOne(t, Remove(Remove(Remove(t, a), b), c), {a, b, c}, d);
  }

  // ----- who uses the script's chains then

  lemma UsedUnion(b: Table, m: Table, c: string, flushed: set<string>)
    requires b.Keys !! m.Keys
    ensures UsedBeside(b + m, c, flushed) <==> UsedBeside(b, c, flushed) || UsedBeside(m, c, flushed)
  {
    if UsedBeside(b, c, flushed) {
      var d :| d in b && d !in flushed && JumpsTo(b[d], c);
      assert (b + m)[d] == b[d];
    }
    if UsedBeside(m, c, flushed) {
      var d :| d in m && d !in flushed && JumpsTo(m[d], c);
      assert (b + m)[d] == m[d];
    }
  }

  /** The rules in front use the redirecting chain, if something is redirected from an interface, and no other. */
  lemma UsedByBase(cfg: Config, t: Table, c: string, flushed: set<string>)
    requires PREROUTING in t && PREROUTING !in flushed
    ensures UsedBeside(NatBase(cfg, t), c, flushed) <==>
              UsedBeside(t, c, flushed) || (c == ISTIO_REDIRECT && Stuck(cfg))
  {
    var b := NatBase(cfg, t);
    FrontJumps(cfg);
    JumpsToUnion(Front(cfg), t[PREROUTING], c);
    assert JumpsTo(Front(cfg), c) <==> c == ISTIO_REDIRECT && Stuck(cfg);
    if UsedBeside(t, c, flushed) {
      var d :| d in t && d !in flushed && JumpsTo(t[d], c);
      assert d in b && JumpsTo(b[d], c);
    }
    if JumpsTo(Front(cfg), c) {
      assert PREROUTING in b && JumpsTo(b[PREROUTING], c);
    }
  }

  /** The script's own chains use none of those that are removed after them. */
  lemma UsedByChains(cfg: Config, c: string, flushed: set<string>)
    requires ISTIO_OUTPUT in flushed && (ISTIO_INBOUND in flushed || c == ISTIO_OUTPUT)
    ensures !UsedBeside(NatChains(cfg), c, flushed)
  {
    InboundJumps(cfg);
  }

  lemma UsedAfterRun(cfg: Config, t: Table, c: string, flushed: set<string>)
    requires PREROUTING in t && PREROUTING !in flushed && t.Keys !! NatChains(cfg).Keys
    requires ISTIO_OUTPUT in flushed && (ISTIO_INBOUND in flushed || c == ISTIO_OUTPUT)
    ensures UsedBeside(NatBase(cfg, t) + NatChains(cfg), c, flushed) <==>
              UsedBeside(t, c, flushed) || (c == ISTIO_REDIRECT && Stuck(cfg))
  {
    assert NatBase(cfg, t).Keys == t.Keys;
    UsedUnion(NatBase(cfg, t), NatChains(cfg), c, flushed);
    UsedByBase(cfg, t, c, flushed);
    UsedByChains(cfg, c, flushed);
  }

  // ----- the results

  /** A rule of somebody else's, beside the one jump that teardown deletes, uses the inbound chain of the nat table. */
  predicate HeldInNat(t: Table)
    requires PREROUTING in t
  {
    UsedBeside(Exec(t, Delete(PREROUTING, INBOUND_JUMP)), ISTIO_INBOUND, {ISTIO_INBOUND})
  }

  /** The same for a chain of the mangle table, but for rules in chains that are flushed before it is dropped. */
  predicate HeldInMangle(t: Table)
    requires PREROUTING in t
  {
    var t1 := Exec(t, Delete(PREROUTING, INBOUND_JUMP));
    || UsedBeside(t1, ISTIO_INBOUND, {ISTIO_INBOUND})
    || UsedBeside(t1, ISTIO_DIVERT, {ISTIO_INBOUND, ISTIO_DIVERT})
    || UsedBeside(t1, ISTIO_TPROXY, {ISTIO_INBOUND, ISTIO_DIVERT, ISTIO_TPROXY})
  }

  lemma HeldBesideOutput(t: Table)
    requires PREROUTING in t && ISTIO_OUTPUT !in t
    ensures HeldInNat(t) <==>
              UsedBeside(Exec(t, Delete(PREROUTING, INBOUND_JUMP)), ISTIO_INBOUND, {ISTIO_OUTPUT, ISTIO_INBOUND})
  {
    DeleteBack(t, PREROUTING, INBOUND_JUMP);
  }

  /** Who uses the script's chains, at the moment when each of them is dropped. */
  lemma UsedInNat(cfg: Config, t: Table)
    requires PREROUTING in t && t.Keys !! NatChains(cfg).Keys && Linked(t)
    requires ISTIO_REDIRECT !in t && ISTIO_IN_REDIRECT !in t && ISTIO_OUTPUT !in t
    ensures var t2 := NatBase(cfg, t) + NatChains(cfg);
            && !UsedBeside(t2, ISTIO_OUTPUT, {ISTIO_OUTPUT})
            && (UsedBeside(t2, ISTIO_INBOUND, {ISTIO_OUTPUT, ISTIO_INBOUND}) <==>
                  UsedBeside(t, ISTIO_INBOUND, {ISTIO_OUTPUT, ISTIO_INBOUND}))
            && (UsedBeside(t2, ISTIO_REDIRECT, {ISTIO_OUTPUT, ISTIO_INBOUND, ISTIO_REDIRECT}) <==> Stuck(cfg))
            && !UsedBeside(t2, ISTIO_IN_REDIRECT, {ISTIO_OUTPUT, ISTIO_INBOUND, ISTIO_REDIRECT, ISTIO_IN_REDIRECT})
  {
    UsedAfterRun(cfg, t, ISTIO_OUTPUT, {ISTIO_OUTPUT});
    UsedAfterRun(cfg, t, ISTIO_INBOUND, {ISTIO_OUTPUT, ISTIO_INBOUND});
    UsedAfterRun(cfg, t, ISTIO_REDIRECT, {ISTIO_OUTPUT, ISTIO_INBOUND, ISTIO_REDIRECT});
    UsedAfterRun(cfg, t, ISTIO_IN_REDIRECT, {ISTIO_OUTPUT, ISTIO_INBOUND, ISTIO_REDIRECT, ISTIO_IN_REDIRECT});
  }

  /** Which of the script's chains a run and the next teardown leave in the nat table. */
  lemma NatChainsLeft(cfg: Config, t: Table)
    requires FreeNat(cfg, t)
    ensures var left := TornDownNat(InstalledNat(cfg, t));
            && ISTIO_OUTPUT !in left && ISTIO_IN_REDIRECT !in left
            && (ISTIO_REDIRECT in left <==> Stuck(cfg)) && (ISTIO_INBOUND in left <==> HeldInNat(t))
  {
    var t1 := Exec(t, Delete(PREROUTING, INBOUND_JUMP));
    JumpsGone(cfg, t);
    ExecKeepsLinks(t, Delete(PREROUTING, INBOUND_JUMP));
    DeleteBack(t, PREROUTING, INBOUND_JUMP);
    UsedInNat(cfg, t1);
    HeldBesideOutput(t);
    ChainsLeft(cfg, t1, NatBase(cfg, t1) + NatChains(cfg));
  }

  lemma ChainsLeft(cfg: Config, t: Table, t2: Table)
    requires Linked(t) && PREROUTING in t && t2 == NatBase(cfg, t) + NatChains(cfg)
    ensures var left :=
              Remove(Remove(Remove(Remove(t2, ISTIO_OUTPUT), ISTIO_INBOUND), ISTIO_REDIRECT), ISTIO_IN_REDIRECT);
            && (ISTIO_OUTPUT in left ==> UsedBeside(t2, ISTIO_OUTPUT, {ISTIO_OUTPUT}))
            && (ISTIO_INBOUND in left <==> (ISTIO_INBOUND in t || InNat(cfg))
                                           && UsedBeside(t2, ISTIO_INBOUND, {ISTIO_OUTPUT, ISTIO_INBOUND}))
            && (ISTIO_REDIRECT in left <==>
                  UsedBeside(t2, ISTIO_REDIRECT, {ISTIO_OUTPUT, ISTIO_INBOUND, ISTIO_REDIRECT}))
            && (ISTIO_IN_REDIRECT in left ==>
                  UsedBeside(t2, ISTIO_IN_REDIRECT, {ISTIO_OUTPUT, ISTIO_INBOUND, ISTIO_REDIRECT, ISTIO_IN_REDIRECT}))
  {
    FourRemoved(t2, ISTIO_OUTPUT, ISTIO_INBOUND, ISTIO_REDIRECT, ISTIO_IN_REDIRECT);
  }

  lemma MangleChainsLeft(cfg: Config, t: Table)
    requires Linked(t) && PREROUTING in t
    requires InMangle(cfg) ==> ISTIO_INBOUND !in t && ISTIO_DIVERT !in t && ISTIO_TPROXY !in t
    ensures var left := TornDownMangle(InstalledMangle(cfg, t));
            ISTIO_INBOUND in left || ISTIO_DIVERT in left || ISTIO_TPROXY in left <==> HeldInMangle(t)
  {
    var t1 := Exec(t, Delete(PREROUTING, INBOUND_JUMP));
    ExecKeepsLinks(t, Delete(PREROUTING, INBOUND_JUMP));
    DeleteBack(t, PREROUTING, INBOUND_JUMP);
    if InMangle(cfg) {
      MangleAfterTeardown(cfg, t);
    } else {
      ThreeRemoved(t1, ISTIO_INBOUND, ISTIO_DIVERT, ISTIO_TPROXY);
    }
  }

  /**
   A second run of the script, with any configuration, after a first one that has completed on any tables.
   It completes if and only if the first left no rule that redirects from a virtual interface (such a rule
   keeps ISTIO_REDIRECT from being dropped, and its creation then fails), and nobody else uses a chain that
   it creates.
   */
  lemma SecondRunCompletes(first: Config, second: Config, natTable: Table, mangleTable: Table)
    requires BuiltIn(natTable, mangleTable) && Vacant(first, natTable, mangleTable)
    requires Linked(natTable) && Linked(mangleTable)
    ensures Vacant(second, TornDownNat(InstalledNat(first, natTable)),
                   TornDownMangle(InstalledMangle(first, mangleTable)))
            <==> && !Stuck(first)
                 && (InNat(second) ==> !HeldInNat(natTable)) && (InMangle(second) ==> !HeldInMangle(mangleTable))
  {
    NatChainsLeft(first, natTable);
    MangleChainsLeft(first, mangleTable);
  }

  /** In tables without the script's chains nobody uses them. */
  lemma CleanIsFree(natTable: Table, mangleTable: Table)
    requires CleanNat(natTable) && CleanMangle(mangleTable)
    ensures !HeldInNat(natTable) && !HeldInMangle(mangleTable)
  {
    ExecKeepsLinks(natTable, Delete(PREROUTING, INBOUND_JUMP));
    ExecKeepsLinks(mangleTable, Delete(PREROUTING, INBOUND_JUMP));
    DeleteBack(natTable, PREROUTING, INBOUND_JUMP);
    DeleteBack(mangleTable, PREROUTING, INBOUND_JUMP);
  }

  // ----- the failing side, at concrete inputs

  /** One virtual interface, and all outbound traffic included. */
  function OneInterface(): Config {
    Config(15001, 15001, [1337], [1337], false, 1337, Everything, [], Everything, [], ["vnet0"], true)
  }

  /** After a run for it, teardown leaves a redirecting rule behind, and no second run completes. */
  lemma OneInterfaceStays(second: Config)
    ensures var natTable, mangleTable := map[PREROUTING := [], OUTPUT := []], map[PREROUTING := []];
            && Stuck(OneInterface())
            && TornDownNat(InstalledNat(OneInterface(), natTable)) != natTable
            && !Vacant(second, TornDownNat(InstalledNat(OneInterface(), natTable)),
                       TornDownMangle(InstalledMangle(OneInterface(), mangleTable)))
  {
    var natTable, mangleTable := map[PREROUTING := [], OUTPUT := []], map[PREROUTING := []];
    TeardownInvertsSetup(OneInterface(), natTable, mangleTable);
    SecondRunCompletes(OneInterface(), second, natTable, mangleTable);
  }
}
