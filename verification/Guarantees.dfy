/**
 What users of the canary controller can rely on, over every behaviour of the cluster: any number of
 canaries, any interleaving of their Reconciles, any failures, any staleness of the reads.
 */
module Guarantees {
  import opened Wrappers
  import opened VirtualServiceValues
  import opened BlockShares
  import opened TrafficShares
  import opened Protocol
  import opened Invariant
  import opened Standpoint
  import opened Clients
  import opened ClusterShares
  import Safety

  /** The worlds a cluster goes through, from one as clusters start, by steps of the protocol. */
  ghost predicate Behaviour(worlds: seq<World>, log: seq<Step>) {
    Trace(worlds, log) && forall v :: v in worlds[..1] ==> Initial(v)
  }

  /** The client of a Reconcile has only seen behaviours, so all that follows holds of it. */
  lemma ClientBehaves(client: Client)
    requires client.Valid()
    ensures Behaviour(client.worlds, client.log) && client.worlds[|client.log|] == client.w
  {
    client.Open();
    ReachedLast(client.worlds, client.log, client.w, client.name, client.view, client.snap);
  }

  lemma Moment(worlds: seq<World>, log: seq<Step>, n: nat)
    requires Behaviour(worlds, log) && n <= |log|
    ensures Initial(worlds[0]) && Run(worlds[0], log[..n]) && worlds[n] == Play(worlds[0], log[..n])
  {
    assert worlds[0] in worlds[..1];
    TracePrefix(worlds, log, n);
    TraceIsRun(worlds[..n + 1], log[..n]);
  }

  lemma Moments(worlds: seq<World>, log: seq<Step>, n: nat, m: nat)
    requires Behaviour(worlds, log) && n <= m <= |log|
    ensures Initial(worlds[0]) && Run(worlds[0], log[..m]) && worlds[m] == Play(worlds[0], log[..m])
    ensures worlds[n] == Play(worlds[0], log[..m][..n])
  {
    Moment(worlds, log, n);
    Moment(worlds, log, m);
    assert log[..m][..n] == log[..n];
  }

  predicate HasCell(w: World, c: string) {
    c in w.cells && w.cells[c].Valid()
  }

  function Stored(w: World, c: string): Status
    requires HasCell(w, c)
  {
    w.cells[c].cfg.Latest()
  }

  lemma Stays(worlds: seq<World>, log: seq<Step>, c: string, n: nat)
    requires Behaviour(worlds, log) && c in worlds[0].cells && n <= |log|
    ensures HasCell(worlds[n], c) && worlds[n].vs.Valid()
  {
    Moments(worlds, log, n, n);
    assert log[..n][..n] == log[..n];
    Safety.TwoMoments(worlds[0], log[..n], n, c, worlds[n], worlds[n]);
  }

  /** Nothing in the cluster belongs to the canary any more. */
  predicate Gone(w: World, c: string)
    requires HasCell(w, c) && w.vs.Valid()
  {
    && !HasRoute(w.vs.Latest(), w.cells[c].service, c)
    && w.cells[c].testPod.Latest().None? && w.cells[c].judgePod.Latest().None? && w.cells[c].canaryDep.Latest().None?
  }

  /**
   No leaked traffic and nothing left behind: from the moment a canary's cleanup is stored as
   successful, and ever after, there is no route to it, no pod of it and no deployment of it.
   */
  lemma NothingLeftBehind(worlds: seq<World>, log: seq<Step>, c: string, n: nat, m: nat)
    requires Behaviour(worlds, log) && c in worlds[0].cells && n <= m <= |log|
    ensures HasCell(worlds[n], c) && HasCell(worlds[m], c) && worlds[m].vs.Valid()
    ensures Stored(worlds[n], c).cleanup == Success ==> Gone(worlds[m], c)
  {
    Stays(worlds, log, c, n);
    Stays(worlds, log, c, m);
    Moments(worlds, log, n, m);
    if Stored(worlds[n], c).cleanup == Success {
      Safety.NothingLeftBehind(worlds[0], log[..m], n, c, worlds[n], worlds[m]);
    }
  }

  /** Once the Cleanup stage is stored, no later step creates a pod of the canary or splits traffic for it. */
  lemma NothingRecreated(worlds: seq<World>, log: seq<Step>, c: string, n: nat, m: nat)
    requires Behaviour(worlds, log) && c in worlds[0].cells && n <= m < |log|
    ensures HasCell(worlds[n], c)
    ensures Stored(worlds[n], c).progress == Cleanup && (log[m].CreatePod? || log[m].SplitVs?) ==> log[m].c != c
  {
    Stays(worlds, log, c, n);
    Moment(worlds, log, n);
    Moment(worlds, log, |log|);
    assert log[..|log|] == log;
    if Stored(worlds[n], c).progress == Cleanup {
      Safety.NothingRecreated(worlds[0], log, n, m, c, worlds[n]);
    }
  }

  /** The stored Progress never goes back. */
  lemma ForwardOnly(worlds: seq<World>, log: seq<Step>, c: string, n: nat, m: nat)
    requires Behaviour(worlds, log) && c in worlds[0].cells && n <= m <= |log|
    ensures HasCell(worlds[n], c) && HasCell(worlds[m], c)
    ensures Rank(Stored(worlds[n], c).progress) <= Rank(Stored(worlds[m], c).progress)
  {
    Stays(worlds, log, c, n);
    Stays(worlds, log, c, m);
    Moments(worlds, log, n, m);
    Safety.ForwardOnly(worlds[0], log[..m], n, c, worlds[n], worlds[m]);
  }

  /**
   Refinement: the stored versions of the VirtualService are those of a sequential run of atomic splits
   and merges, each fitting the version it edits, and none holds two routes for one canary.
   */
  lemma VersionsAreSequentialRun(worlds: seq<World>, log: seq<Step>, m: nat, k: nat)
    requires Behaviour(worlds, log) && m <= |log| && k < |worlds[m].vs.hist|
    ensures |worlds[0].vs.hist| == 1 && |worlds[m].vs.hist| == |worlds[m].ops| + 1
    ensures RunFits(worlds[0].vs.hist[0], worlds[m].ops)
    ensures worlds[m].vs.hist[k] == ApplyOps(worlds[0].vs.hist[0], worlds[m].ops[..k])
    ensures forall c :: c in worlds[m].cells ==>
              AtMostOne(ServiceRoutes(worlds[m].vs.hist[k], worlds[m].cells[c].service), c)
  {
    Moment(worlds, log, m);
    Safety.VersionsAreSequentialRun(worlds[0], log[..m]);
  }

  // ----- the traffic gate

  /** Step `i` is a read of canary `c`'s test pod, in which the test container has ended with exit code 0. */
  predicate ReadsPassed(worlds: seq<World>, log: seq<Step>, i: nat, c: string)
    requires |worlds| == |log| + 1
  {
    && i < |log| && log[i].Read? && log[i].c == c && log[i].kind == TestPod && c in worlds[i].cells
    && var o := worlds[i].cells[c].testPod;
       && log[i].to < |o.hist| && o.hist[log[i].to].Some?
       && EndedWith(o.hist[log[i].to].value, "testjob", 0)
  }

  /** Step `i` is a read of the canary's or the baseline's deployment with available replicas. */
  predicate ReadsAvailable(worlds: seq<World>, log: seq<Step>, i: nat, c: string, baseline: bool)
    requires |worlds| == |log| + 1
  {
    && i < |log| && log[i].Read? && log[i].c == c && log[i].kind == (if baseline then BaselineDep else CanaryDep)
    && c in worlds[i].cells
    && var o := worlds[i].cells[c].Dep(baseline);
       log[i].to < |o.hist| && o.hist[log[i].to].Some? && o.hist[log[i].to].value > 0
  }

  /** Both moments belong to one Reconcile of `c`. */
  predicate SameRound(log: seq<Step>, i: nat, n: nat, c: string)
    requires i <= n <= |log|
  {
    Safety.Rounds(log[..i], c) == Safety.Rounds(log[..n], c)
  }

  lemma AvailableAt(worlds: seq<World>, log: seq<Step>, n: nat, i: nat, c: string, baseline: bool, r: nat)
    requires Behaviour(worlds, log) && n <= |log|
    requires Safety.ReadAvailable(worlds[0], log[..n], i, c, if baseline then BaselineDep else CanaryDep, r)
    ensures i < n && ReadsAvailable(worlds, log, i, c, baseline) && Safety.Rounds(log[..i], c) == r
  {
    Moments(worlds, log, i, n);
    assert log[..n][..i] == log[..i];
  }

  lemma PassedAt(worlds: seq<World>, log: seq<Step>, n: nat, i: nat, c: string, r: nat)
    requires Behaviour(worlds, log) && n <= |log| && Safety.ReadPassed(worlds[0], log[..n], i, c, r)
    ensures i < n && ReadsPassed(worlds, log, i, c) && Safety.Rounds(log[..i], c) == r
  {
    Moments(worlds, log, i, n);
    assert log[..n][..i] == log[..i];
    ExitCodeMeans(worlds[i].cells[c].testPod.hist[log[i].to].value, TESTJOB);
  }

  /**
   The traffic gate: a split of canary `c` comes after an earlier Reconcile of `c` has read its test
   container as terminated with exit code 0, and in a Reconcile that has read both deployments as available.
   */
  lemma TrafficGate(worlds: seq<World>, log: seq<Step>, n: nat, c: string)
      returns (test: nat, canary: nat, baseline: nat)
    requires Behaviour(worlds, log) && c in worlds[0].cells && n < |log| && log[n].SplitVs? && log[n].c == c
    ensures test < n && ReadsPassed(worlds, log, test, c) && Safety.Rounds(log[..test], c) < Safety.Rounds(log[..n], c)
    ensures canary < n && ReadsAvailable(worlds, log, canary, c, false) && SameRound(log, canary, n, c)
    ensures baseline < n && ReadsAvailable(worlds, log, baseline, c, true) && SameRound(log, baseline, n, c)
  {
    Moment(worlds, log, |log|);
    assert log[..|log|] == log;
    var now := Safety.Rounds(log[..n], c);
    Safety.TrafficGate(worlds[0], log, n, c);
    var i: nat, r: nat :| r < now && Safety.ReadPassed(worlds[0], log[..n], i, c, r);
    PassedAt(worlds, log, n, i, c, r);
    var j: nat :| Safety.ReadAvailable(worlds[0], log[..n], j, c, CanaryDep, now);
    AvailableAt(worlds, log, n, j, c, false, now);
    var k: nat :| Safety.ReadAvailable(worlds[0], log[..n], k, c, BaselineDep, now);
    AvailableAt(worlds, log, n, k, c, true, now);
    test, canary, baseline := i, j, k;
  }

  /**
   The testing gate: no stored Progress past Testing, and no stored success of the test, unless a Reconcile
   of the canary has read its test container as terminated with exit code 0 before. So a canary whose test
   is never read as passed is never promoted.
   */
  lemma TestingGate(worlds: seq<World>, log: seq<Step>, c: string, m: nat) returns (test: nat)
    requires Behaviour(worlds, log) && c in worlds[0].cells && m <= |log| && HasCell(worlds[m], c)
    requires Rank(Stored(worlds[m], c).progress) > Rank(Testing) || Stored(worlds[m], c).testing == Success
    ensures test < m && ReadsPassed(worlds, log, test, c)
  {
    Moment(worlds, log, m);
    Safety.TestingGate(worlds[0], log[..m], c);
    var i: nat, r: nat :| Safety.ReadPassed(worlds[0], log[..m], i, c, r);
    PassedAt(worlds, log, m, i, c, r);
    test := i;
  }

  /** Step `i` reads the pod of a job whose container, the one of that name, has ended with that code. */
  predicate ReadsEnd(worlds: seq<World>, log: seq<Step>, i: nat, c: string, judge: bool, code: int)
    requires |worlds| == |log| + 1
  {
    && i < |log| && log[i].Read? && log[i].c == c && log[i].kind == (if judge then JudgePod else TestPod)
    && c in worlds[i].cells
    && var o := worlds[i].cells[c].Pod(judge);
       && log[i].to < |o.hist| && o.hist[log[i].to].Some?
       && EndedWith(o.hist[log[i].to].value, if judge then "judge" else "testjob", code)
  }

  lemma EndAt(worlds: seq<World>, log: seq<Step>, m: nat, i: nat, c: string, x: Ended)
    requires Behaviour(worlds, log) && m <= |log| && Safety.ReadEnded(worlds[0], log[..m], i, c, x)
    ensures i < m && ReadsEnd(worlds, log, i, c, x.judge, x.code)
  {
    Moments(worlds, log, i, m);
    assert log[..m][..i] == log[..i];
    ExitCodeMeans(worlds[i].cells[c].Pod(x.judge).hist[log[i].to].value, JobName(x.judge));
  }

  /** A verdict on one of the two jobs, as stored: its success, or its failure. */
  predicate Decided(s: Status, judge: bool, success: bool) {
    (if judge then s.judging else s.testing) == if success then Success else Failure
  }

  /**
   The verdict gate: a stored verdict, success or failure, of the test or of the judge, comes only after a
   read of the job's own container with exit code 0, or with another code.
   */
  lemma VerdictGate(worlds: seq<World>, log: seq<Step>, c: string, m: nat, judge: bool, success: bool)
      returns (read: nat, code: int)
    requires Behaviour(worlds, log) && c in worlds[0].cells && m <= |log| && HasCell(worlds[m], c)
    requires Decided(Stored(worlds[m], c), judge, success)
    ensures read < m && ReadsEnd(worlds, log, read, c, judge, code) && (success <==> code == 0)
  {
    Moment(worlds, log, m);
    if success && !judge {
      read := TestingGate(worlds, log, c, m);
      code := 0;
    } else {
      Safety.VerdictGate(worlds[0], log[..m], c);
      code := 0;
      if !success {
        code :| code != 0 && Safety.HasReadEnd(worlds[0], log[..m], c, Ended(judge, code));
      }
      var i: nat :| Safety.ReadEnded(worlds[0], log[..m], i, c, Ended(judge, code));
      EndAt(worlds, log, m, i, c, Ended(judge, code));
      read := i;
    }
  }

  /** The canary gate: no stored Progress past Canary unless the canary has had its route and its judge pod. */
  lemma CanaryGate(worlds: seq<World>, log: seq<Step>, c: string, m: nat) returns (route: nat, judge: nat)
    requires Behaviour(worlds, log) && c in worlds[0].cells && m <= |log| && HasCell(worlds[m], c)
    requires Rank(Stored(worlds[m], c).progress) > Rank(Canary)
    ensures route < |worlds[m].vs.hist| && HasRoute(worlds[m].vs.hist[route], worlds[m].cells[c].service, c)
    ensures judge < |worlds[m].cells[c].judgePod.hist| && worlds[m].cells[c].judgePod.hist[judge].Some?
  {
    Moment(worlds, log, m);
    Safety.CanaryGate(worlds[0], log[..m], c);
    route :| 0 <= route < |worlds[m].vs.hist| && HasRoute(worlds[m].vs.hist[route], worlds[m].cells[c].service, c);
    judge :| 0 <= judge < |worlds[m].cells[c].judgePod.hist| && worlds[m].cells[c].judgePod.hist[judge].Some?;
  }

  // ----- the shares of traffic

  /** The VirtualService before any edit. */
  function First(worlds: seq<World>): SpecValue
    requires |worlds| > 0 && |worlds[0].vs.hist| > 0
  {
    worlds[0].vs.hist[0]
  }

  /**
   The weight bound, exactly, for any block that totals 100 with no negative weight at first. All versions
   of it that are ever stored do so if and only if at no point more canaries are split for any of its
   services than the base weight of that service has tens.
   */
  lemma SoundIffWithinBudget(worlds: seq<World>, log: seq<Step>, h: nat, m: nat)
    requires Behaviour(worlds, log) && m <= |log| && |worlds[0].vs.hist| > 0 && Sound(BlockRoutes(First(worlds), h))
    ensures SoundHistory(worlds[m].vs.hist, h) <==> WithinBudget(First(worlds), h, worlds[m].ops)
  {
    Moment(worlds, log, m);
    ClusterSoundIff(worlds[0], log[..m], worlds[m], h);
  }

  /**
   The same for a block whose weights nobody has set, such as one with a sole destination. All versions of
   it from its first split on are sound if and only if all splits are for one of its services, and never
   for more than ten canaries at once.
   */
  lemma SoundIffOneServicePays(worlds: seq<World>, log: seq<Step>, h: nat, m: nat)
    requires Behaviour(worlds, log) && m <= |log| && |worlds[0].vs.hist| > 0
    requires BlockShares.Unset(BlockRoutes(First(worlds), h))
    ensures SoundOnceSplit(worlds[m].vs.hist, h, EditsOf(First(worlds), h, worlds[m].ops)) <==>
            OneServicePays(First(worlds), h, worlds[m].ops)
  {
    Moment(worlds, log, m);
    ClusterSoundIffOnePays(worlds[0], log[..m], worlds[m], h);
  }

  /** `svc` is the service of canary `d`, and some block serves it. */
  ghost predicate Serves(w: World, d: string, svc: string) {
    d in w.cells && svc == w.cells[d].service && |w.vs.hist| > 0 && Configured(w.vs.hist[0], svc)
  }

  /**
   In version `k` the base route of a service holds its share less ten per canary of its own that is split
   at `k`, whatever canaries of other services do in the same block, if and only if no split before `k` has
   found it spent to 0. Within its share none does.
   */
  lemma BaseWeightOfVersion(worlds: seq<World>, log: seq<Step>, d: string, svc: string, m: nat, k: nat)
    requires Behaviour(worlds, log) && m <= |log| && Serves(worlds[0], d, svc) && k < |worlds[m].vs.hist|
    ensures k <= |worlds[m].ops| && Configured(worlds[m].vs.hist[k], svc)
    ensures Accounted(First(worlds), svc, worlds[m].ops[..k], worlds[m].vs.hist[k]) <==>
              NeverSpent(First(worlds), svc, worlds[m].ops[..k])
    ensures WithinShare(First(worlds), svc, worlds[m].ops) ==> NeverSpent(First(worlds), svc, worlds[m].ops[..k])
  {
    Moment(worlds, log, m);
    ClusterBaseWeight(worlds[0], d, svc, log[..m], worlds[m], k);
  }

  /** A service with no more canaries than its base share has tens keeps within it whatever happens. */
  lemma FewCanariesFit(worlds: seq<World>, log: seq<Step>, svc: string, m: nat)
    requires Behaviour(worlds, log) && m <= |log| && |worlds[0].vs.hist| > 0 && Configured(First(worlds), svc)
    requires |CanariesOf(worlds[0], svc)| <= Share(First(worlds), svc) / 10
    ensures WithinShare(First(worlds), svc, worlds[m].ops)
  {
    Moment(worlds, log, m);
    ClusterShares.FewCanariesFit(worlds[0], log[..m], worlds[m], svc);
  }

  /** A block that is sound at first and whose services all have few canaries is sound in every version. */
  lemma FewCanariesAreSound(worlds: seq<World>, log: seq<Step>, h: nat, m: nat)
    requires Behaviour(worlds, log) && m <= |log| && |worlds[0].vs.hist| > 0 && Sound(BlockRoutes(First(worlds), h))
    requires FewCanaries(worlds[0], h)
    ensures SoundHistory(worlds[m].vs.hist, h)
  {
    Moment(worlds, log, m);
    FewCanariesWithinBudget(worlds[0], log[..m], worlds[m], h);
    ClusterSoundIff(worlds[0], log[..m], worlds[m], h);
  }

  /** A block whose weights nobody has set is sound from its first split on if one service of ten canaries uses it. */
  lemma TenCanariesAreSound(worlds: seq<World>, log: seq<Step>, h: nat, svc: string, m: nat)
    requires Behaviour(worlds, log) && m <= |log| && |worlds[0].vs.hist| > 0
    requires BlockShares.Unset(BlockRoutes(First(worlds), h)) && OneServiceOfTen(worlds[0], h, svc)
    ensures SoundOnceSplit(worlds[m].vs.hist, h, EditsOf(First(worlds), h, worlds[m].ops))
  {
    Moment(worlds, log, m);
    OneServiceOfTenPays(worlds[0], log[..m], worlds[m], h, svc);
    ClusterSoundIffOnePays(worlds[0], log[..m], worlds[m], h);
  }

  /** The cleanup of every canary of the service is stored as successful. */
  ghost predicate ServiceCleaned(w: World, svc: string) {
    forall c :: c in w.cells && w.cells[c].service == svc ==> HasCell(w, c) && Stored(w, c).cleanup == Success
  }

  /**
   The interleaved round trip of any block, exactly. When the canaries of its split services are cleaned up,
   it holds its original routes in their original order with their original shares, an unset weight that was
   split now being written out as 100, if and only if no split has found a base weight spent to 0. Within
   the shares none does.
   */
  lemma RoundTrip(worlds: seq<World>, log: seq<Step>, h: nat, m: nat)
    requires Behaviour(worlds, log) && m <= |log| && |worlds[0].vs.hist| > 0
    requires forall svc :: Base(First(worlds), h, svc) != -1 && Touched(worlds[m].ops, svc) ==>
               ServiceCleaned(worlds[m], svc)
    ensures worlds[m].vs.Valid()
    ensures BlockRoutes(worlds[m].vs.Latest(), h) ==
              Restored(BlockRoutes(First(worlds), h), EditsOf(First(worlds), h, worlds[m].ops)) <==>
            BlockNeverSpent(First(worlds), h, worlds[m].ops)
    ensures AllWithinShare(First(worlds), h, worlds[m].ops) ==> BlockNeverSpent(First(worlds), h, worlds[m].ops)
  {
    Moment(worlds, log, m);
    forall svc | Base(First(worlds), h, svc) != -1 && Touched(worlds[m].ops, svc)
      ensures AllCleaned(worlds[m], svc)
    {
      assert ServiceCleaned(worlds[m], svc);
    }
    ClusterRoundTrip(worlds[0], log[..m], worlds[m], h);
  }

  /**
   One service has its base share back as soon as its own canaries are cleaned up, whatever is still split
   for others, if and only if no split for it has found its base weight spent to 0.
   */
  lemma ShareRestored(worlds: seq<World>, log: seq<Step>, d: string, svc: string, m: nat)
    requires Behaviour(worlds, log) && m <= |log| && Serves(worlds[0], d, svc) && ServiceCleaned(worlds[m], svc)
    ensures worlds[m].vs.Valid() && Configured(worlds[m].vs.Latest(), svc)
    ensures Returned(First(worlds), svc, worlds[m].ops, worlds[m].vs.Latest()) <==>
              NeverSpent(First(worlds), svc, worlds[m].ops)
    ensures WithinShare(First(worlds), svc, worlds[m].ops) ==> NeverSpent(First(worlds), svc, worlds[m].ops)
  {
    Moment(worlds, log, m);
    ClusterShareRestored(worlds[0], d, svc, log[..m], worlds[m]);
  }

  /** Nothing but Route lists is ever edited, and no block that serves no canary's service at all. */
  lemma OtherBlocksUntouched(worlds: seq<World>, log: seq<Step>, m: nat, h: nat)
    requires Behaviour(worlds, log) && m <= |log| && |worlds[0].vs.hist| > 0 && h < |BlocksOf(First(worlds))|
    ensures worlds[m].vs.Valid() && OnlyRoutesDiffer(First(worlds), worlds[m].vs.Latest())
    ensures (forall c :: c in worlds[0].cells ==> Base(First(worlds), h, worlds[0].cells[c].service) == -1) ==>
              BlocksOf(worlds[m].vs.Latest())[h] == BlocksOf(First(worlds))[h]
  {
    Moment(worlds, log, m);
    ClusterTouches(worlds[0], log[..m], worlds[m], h);
  }
}
