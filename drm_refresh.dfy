// DrmGpu::updateOutputs as one function of the registry, the tracked
// connectors and the kernel's answers, composed from the steps specified
// in DrmReconcile, DrmSearch and DrmUpdate, with the properties of a whole
// update: when it gives up, what the connectors look like afterwards, that
// an accepted combination keeps the registry consistent, and how every
// accepted pipeline ends up.
module DrmRefresh {
  import opened Common
  import opened DrmObjects
  import opened DrmRegistry
  import opened DrmReconcile
  import opened DrmSearch
  import opened DrmUpdate

  /**
   * What the kernel and the platform answer during one updateOutputs: the
   * connector ids of drmModeGetResources (None when it fails), the
   * lessees of drmModeListLessees, each connector's init() and
   * properties, the Test commit, and whether a new output's cursor
   * initialises.
   */
  datatype Answers = Answers(
    connectorIds: Option<seq<nat>>, lessees: seq<nat>, probe: nat -> ConnectorProbe,
    test: seq<Hyp> -> bool, cursorOk: nat -> bool)

  /**
   * The result of an update: the registry and tracked connectors, the
   * combination the search returned, the pipelines appended to
   * m_pipelines, whether a cursor failed, the return value, and whether
   * the old configuration was restored.
   */
  datatype Outcome = Outcome(
    reg: Registry, conns: seq<Connector>, combination: seq<Hyp>, config: seq<nat>,
    forced: bool, ok: bool, reverted: bool)

  /** The lessee check: deny every lease whose lessee the kernel no longer lists. */
  function LesseeCheck(r: Registry, lessees: seq<nat>): Registry
  {
    r.(events := r.events + Denials(r.leaseOutputs, r.leaseOuts, lessees))
  }

  /**
   * The first half of updateOutputs: the lessee check, the connector scan,
   * the teardown of vanished connectors, and the pass collecting the
   * connected ones.
   */
  function Prepare(r: Registry, conns: seq<Connector>, ids: seq<nat>, lessees: seq<nat>,
                   probe: nat -> ConnectorProbe): (Registry, seq<Connector>, seq<Connector>)
  {
    var r1 := LesseeCheck(r, lessees);
    var st := ScanAll(ScanState(conns, Ids(conns)), ids, probe);
    var r2 := TeardownAll(r1, st.removed);
    var cs := Reconciled(conns, ids, probe);
    var (r3, connected) := CollectAll(r2, [], cs);
    (r3, cs, connected)
  }

  /** The search pools: the connected connectors, sorted in atomic mode, and the CRTCs, without leased resources. */
  function SearchPools(r: Registry, connected: seq<Connector>, atomic: bool, crtcs: seq<Crtc>): Pools
  {
    ExcludeAll(r, Pools(if atomic then SortByHint(connected) else connected, crtcs, r.pipelines), r.leaseOutputs)
  }

  /**
   * What becomes of the search result: on failure the stashed pipelines
   * and those of unleased lease outputs are taken back; otherwise the old
   * pipelines are destroyed and the combination is adopted.
   */
  function Settle(r: Registry, ss: seq<Stashed>, reverted: bool, combination: seq<Hyp>): (Registry, seq<nat>)
  {
    if reverted then
      var (r1, ps) := Revert(r, ss);
      (r1, ps + FreeLeasePipes(r1, r1.leaseOutputs))
    else AdoptAll(DeleteStashed(r, ss), combination)
  }

  /** The second half of updateOutputs, from the stash to the routing loop. */
  function Negotiate(r: Registry, cs: seq<Connector>, connected: seq<Connector>, atomic: bool, crtcs: seq<Crtc>,
                     test: seq<Hyp> -> bool, cursorOk: nat -> bool): Outcome
  {
    var (r4, ss) := StashAll(r, r.drmOutputs);
    var pl := SearchPools(r4, connected, atomic, crtcs);
    var r5 := r4.(pipelines := pl.pipelines);
    var combination := FindWorkingCombination(atomic, test, [], pl.conns, pl.crtcs);
    var reverted := combination == [] && pl.conns != [];
    var (r6, ps) := Settle(r5, ss, reverted, combination);
    var (r7, forced) := RouteAll(r6.(pipelines := r6.pipelines + ps), ps, cursorOk);
    Outcome(r7, cs, combination, ps, forced, true, reverted)
  }

  /** updateOutputs after waitIdle; it gives up when drmModeGetResources fails. */
  function UpdateSpec(r: Registry, conns: seq<Connector>, atomic: bool, crtcs: seq<Crtc>, a: Answers): Outcome
  {
    if a.connectorIds.None? then Outcome(r, conns, [], [], false, false, false)
    else
      var (r3, cs, connected) := Prepare(r, conns, a.connectorIds.value, a.lessees, a.probe);
      Negotiate(r3, cs, connected, atomic, crtcs, a.test, a.cursorOk)
  }

  // ------------------------------------------------------------ properties

  /** The update reports success exactly when the kernel listed its resources, and changes nothing otherwise. */
  lemma UpdateNeedsResources(r: Registry, conns: seq<Connector>, atomic: bool, crtcs: seq<Crtc>, a: Answers)
    ensures var o := UpdateSpec(r, conns, atomic, crtcs, a);
            && (o.ok <==> a.connectorIds.Some?)
            && (!o.ok ==> o.reg == r && o.conns == conns && o.config == [] && !o.forced)
  {
  }

  /**
   * The first half keeps the registry consistent, tracks exactly the
   * reconciled connectors, and hands all of them on to the search.
   */
  lemma PrepareOk(r: Registry, conns: seq<Connector>, ids: seq<nat>, lessees: seq<nat>, probe: nat -> ConnectorProbe)
    requires RegOk(r) && NoDup(Ids(conns))
    ensures var (r3, cs, connected) := Prepare(r, conns, ids, lessees, probe);
            && RegOk(r3) && cs == Reconciled(conns, ids, probe) && connected == cs
            && NoDup(Ids(cs)) && forall c :: c in cs ==> c.connected
  {
    var r1 := LesseeCheck(r, lessees);
    var st := ScanAll(ScanState(conns, Ids(conns)), ids, probe);
    TeardownAllOk(r1, st.removed);
    var r2 := TeardownAll(r1, st.removed);
    ReconciledClean(conns, ids, probe);
    var cs := Reconciled(conns, ids, probe);
    CollectAllConnected(r2, [], cs);
    assert [] + cs == cs;
  }

  /**
   * After an update the tracked connectors have distinct ids, are all
   * connected and reported by the kernel, a newly tracked one initialised,
   * and every reported connected connector that is known or initialises
   * is tracked.
   */
  lemma UpdateConnectors(r: Registry, conns: seq<Connector>, atomic: bool, crtcs: seq<Crtc>, a: Answers)
    requires NoDup(Ids(conns))
    ensures var o := UpdateSpec(r, conns, atomic, crtcs, a);
            o.ok ==>
              && NoDup(Ids(o.conns))
              && (forall c :: c in o.conns ==> c.connected && c.id in a.connectorIds.value)
              && (forall c :: c in o.conns && c.id !in Ids(conns) ==> a.probe(c.id).initOk)
              && (forall id :: id in a.connectorIds.value && a.probe(id).connected && (id in Ids(conns) || a.probe(id).initOk)
                    ==> id in Ids(o.conns))
  {
    if a.connectorIds.Some? {
      ReconciledClean(conns, a.connectorIds.value, a.probe);
    }
  }

  /** Narrowing m_pipelines to a duplicate-free subset keeps the registry consistent. */
  lemma ShrinkPipelinesOk(r: Registry, ps: seq<nat>)
    requires RegOk(r) && NoDup(ps) && forall p :: p in ps ==> p in r.pipelines
    ensures RegOk(r.(pipelines := ps))
  {
  }

  /** Taking leased resources out only removes pipelines and CRTCs, and keeps each list distinct. */
  lemma {:induction false} ExcludeAllShrinks(r: Registry, pl: Pools, ls: seq<nat>)
    requires NoDup(pl.pipelines) && NoDup(pl.crtcs)
    ensures var pl' := ExcludeAll(r, pl, ls);
            && NoDup(pl'.pipelines) && (forall p :: p in pl'.pipelines ==> p in pl.pipelines)
            && NoDup(pl'.crtcs) && (forall k :: k in pl'.crtcs ==> k in pl.crtcs)
    decreases |ls|
  {
    if ls != [] {
      var pl1 := ExcludeStep(r, pl, ls[0]);
      if LeasedOut(r, ls[0]) {
        var k := r.pipes[r.leaseOuts[ls[0]].pipeline].crtc;
        RemoveOneGone(pl.crtcs, k);
        SubsetOfRemoveOne(pl.crtcs, k);
      } else if FreeOut(r, ls[0]) {
        RemoveOneGone(pl.pipelines, r.leaseOuts[ls[0]].pipeline);
        SubsetOfRemoveOne(pl.pipelines, r.leaseOuts[ls[0]].pipeline);
      }
      assert NoDup(pl1.pipelines) && forall p :: p in pl1.pipelines ==> p in pl.pipelines;
      assert NoDup(pl1.crtcs) && forall k :: k in pl1.crtcs ==> k in pl.crtcs;
      ExcludeAllShrinks(r, pl1, ls[1..]);
    }
  }

  /** Destroying stashed pipelines that are allocated and no longer listed keeps the registry consistent. */
  lemma DeleteStashedOk(r: Registry, ss: seq<Stashed>)
    requires RegOk(r)
    requires forall s :: s in ss && s.pipeline.Some? ==> s.pipeline.value in r.pipes && s.pipeline.value !in r.pipelines
    ensures RegOk(DeleteStashed(r, ss))
  {
    var r' := DeleteStashed(r, ss);
    forall k | k in r'.deleted && k !in r.deleted ensures k in r.pipes && k !in r.pipelines {
      assert k in StashedPipes(ss);
      var s :| s in ss && s.pipeline == Some(k);
    }
  }

  /** Appending fresh, increasing pipeline ids to m_pipelines keeps the registry consistent. */
  lemma AppendFreshOk(r: Registry, ps: seq<nat>, bound: nat)
    requires RegOk(r)
    requires forall p :: p in r.pipelines ==> p < bound
    requires forall k :: k in r.deleted ==> k < bound
    requires forall i :: 0 <= i < |ps| ==> bound <= ps[i] && ps[i] in r.pipes
    requires forall i, j :: 0 <= i < j < |ps| ==> ps[i] < ps[j]
    ensures RegOk(r.(pipelines := r.pipelines + ps))
  {
    var all := r.pipelines + ps;
    forall i, j | 0 <= i < j < |all| ensures all[i] != all[j] {
      if j >= |r.pipelines| && i < |r.pipelines| {
        assert all[i] in r.pipelines;
      }
    }
    forall p | p in all ensures p in r.pipes && p !in r.deleted {
      if p !in r.pipelines {
        var i :| 0 <= i < |ps| && ps[i] == p;
      }
    }
  }

  /**
   * The stash on a consistent registry: it stays consistent, each
   * output's old pipeline is recorded, allocated, and no longer listed.
   */
  lemma StashOk(r: Registry)
    requires RegOk(r)
    ensures var (r4, ss) := StashAll(r, r.drmOutputs);
            && RegOk(r4) && r4.pipes == r.pipes && r4.deleted == r.deleted && r4.nextId == r.nextId
            && (forall p :: p in r4.pipelines ==> p in r.pipelines)
            && (forall s :: s in ss && s.pipeline.Some? ==> s.pipeline.value in r4.pipes && s.pipeline.value !in r4.pipelines)
            && RevertReady(r4, ss)
  {
    var os := r.drmOutputs;
    StashAllOk(r, os);
    StashAllState(r, os);
    StashAllRecords(r, os);
    var (r4, ss) := StashAll(r, os);
    forall s | s in ss ensures s.output in r4.outs && r4.outs[s.output].DrmOutput? && s.output !in r4.deleted
                               && (s.pipeline.Some? ==> s.pipeline.value in r4.pipes && s.pipeline.value !in r4.pipelines) {
      var i :| 0 <= i < |ss| && ss[i] == s;
      assert os[i] in os;
    }
  }

  /**
   * The registry the search leaves behind: consistent, with the stash
   * ready to be reverted, its pipelines allocated and unlisted, and the
   * remaining CRTCs distinct and drawn from the GPU's.
   */
  lemma PoolsOk(r: Registry, connected: seq<Connector>, atomic: bool, crtcs: seq<Crtc>)
    requires RegOk(r) && NoDup(crtcs)
    ensures var (r4, ss) := StashAll(r, r.drmOutputs);
            var pl := SearchPools(r4, connected, atomic, crtcs);
            var r5 := r4.(pipelines := pl.pipelines);
            && RegOk(r5) && RevertReady(r5, ss)
            && (forall s :: s in ss && s.pipeline.Some? ==> s.pipeline.value in r5.pipes && s.pipeline.value !in r5.pipelines)
            && NoDup(pl.crtcs) && (forall k :: k in pl.crtcs ==> k in crtcs)
  {
    var (r4, ss) := StashAll(r, r.drmOutputs);
    StashOk(r);
    var pl := SearchPools(r4, connected, atomic, crtcs);
    ExcludeAllShrinks(r4, Pools(if atomic then SortByHint(connected) else connected, crtcs, r4.pipelines), r4.leaseOutputs);
    ShrinkPipelinesOk(r4, pl.pipelines);
  }

  /**
   * When the search result is taken (it found a combination, or nothing
   * was requested), the update leaves the registry consistent.
   */
  lemma NegotiateAcceptedOk(r: Registry, cs: seq<Connector>, connected: seq<Connector>, atomic: bool, crtcs: seq<Crtc>,
                            test: seq<Hyp> -> bool, cursorOk: nat -> bool)
    requires RegOk(r) && NoDup(crtcs)
    ensures var o := Negotiate(r, cs, connected, atomic, crtcs, test, cursorOk);
            !o.reverted ==> RegOk(o.reg)
  {
    var (r4, ss) := StashAll(r, r.drmOutputs);
    PoolsOk(r, connected, atomic, crtcs);
    var pl := SearchPools(r4, connected, atomic, crtcs);
    var r5 := r4.(pipelines := pl.pipelines);
    var combination := FindWorkingCombination(atomic, test, [], pl.conns, pl.crtcs);
    if !(combination == [] && pl.conns != []) {
      DeleteStashedOk(r5, ss);
      var d := DeleteStashed(r5, ss);
      AdoptAllOk(d, combination);
      AdoptAllIds(d, combination);
      AdoptAllPipes(d, combination);
      var (r6, ps) := AdoptAll(d, combination);
      AppendFreshOk(r6, ps, d.nextId);
      var r6' := r6.(pipelines := r6.pipelines + ps);
      assert Routable(r6', ps);
      RouteAllOk(r6', ps, cursorOk);
      assert Negotiate(r, cs, connected, atomic, crtcs, test, cursorOk).reg == RouteAll(r6', ps, cursorOk).0;
    }
  }

  /** An accepted update of a consistent registry leaves it consistent. */
  lemma UpdateAcceptedOk(r: Registry, conns: seq<Connector>, atomic: bool, crtcs: seq<Crtc>, a: Answers)
    requires RegOk(r) && NoDup(Ids(conns)) && NoDup(crtcs)
    ensures var o := UpdateSpec(r, conns, atomic, crtcs, a);
            !o.reverted ==> RegOk(o.reg) && NoDup(Ids(o.conns))
  {
    if a.connectorIds.Some? {
      PrepareOk(r, conns, a.connectorIds.value, a.lessees, a.probe);
      var (r3, cs, connected) := Prepare(r, conns, a.connectorIds.value, a.lessees, a.probe);
      NegotiateAcceptedOk(r3, cs, connected, atomic, crtcs, a.test, a.cursorOk);
    }
  }

  /**
   * How a configuration pipeline of r ends up in r': still allocated and
   * listed; a non-desktop one switched off; a desktop one attached to an
   * output that is tracked.
   */
  predicate EndsRouted(r': Registry, p: nat)
  {
    && p in r'.pipelines && p in r'.pipes
    && (r'.pipes[p].nonDesktop ==> !r'.pipes[p].active)
    && (!r'.pipes[p].nonDesktop ==> r'.pipes[p].output.Some? && r'.pipes[p].output.value in r'.outputs)
  }

  /** Every pipeline in ps is allocated, and a desktop one has an output. */
  predicate Attached(r: Registry, ps: seq<nat>)
  {
    forall p :: p in ps ==> p in r.pipes && (!r.pipes[p].nonDesktop ==> r.pipes[p].output.Some?)
  }

  /** Routing attached pipelines leaves each of them routed. */
  lemma RouteAttached(r: Registry, ps: seq<nat>, cursorOk: nat -> bool)
    requires Attached(r, ps)
    ensures var r' := RouteAll(r.(pipelines := r.pipelines + ps), ps, cursorOk).0;
            forall p :: p in ps ==> EndsRouted(r', p)
  {
    var r1 := r.(pipelines := r.pipelines + ps);
    RouteAllEffect(r1, ps, cursorOk);
    RouteAllFrame(r1, ps, cursorOk);
    var r' := RouteAll(r1, ps, cursorOk).0;
    forall p | p in ps ensures EndsRouted(r', p) {
      assert RoutedAs(r1, r', p);
      assert p in r1.pipelines;
    }
  }

  /** What the search result leaves to route: every pipeline of the configuration is attached. */
  lemma SettleAttached(r: Registry, ss: seq<Stashed>, reverted: bool, combination: seq<Hyp>)
    requires RegOk(r) && RevertReady(r, ss)
    requires forall s :: s in ss && s.pipeline.Some? ==> s.pipeline.value in r.pipes && s.pipeline.value !in r.pipelines
    ensures var (r6, ps) := Settle(r, ss, reverted, combination);
            Attached(r6, ps)
  {
    if reverted {
      RevertConfig(r, ss);
      RevertOk(r, ss);
      var (r1, ps) := Revert(r, ss);
      var fs := FreeLeasePipes(r1, r1.leaseOutputs);
      forall p | p in ps + fs ensures p in r1.pipes && (!r1.pipes[p].nonDesktop ==> r1.pipes[p].output.Some?) {
        if p !in ps {
          assert FreePipeline(r1, r1.leaseOutputs, p);
        }
      }
    } else {
      DeleteStashedOk(r, ss);
      var d := DeleteStashed(r, ss);
      AdoptAllPipes(d, combination);
      var (r6, ps) := AdoptAll(d, combination);
      forall p | p in ps ensures p in r6.pipes && (!r6.pipes[p].nonDesktop ==> r6.pipes[p].output.Some?) {
        var i :| 0 <= i < |ps| && ps[i] == p;
        assert AdoptedAs(r6, ps[i], combination[i]);
      }
    }
  }

  lemma NegotiateRouted(r: Registry, cs: seq<Connector>, connected: seq<Connector>, atomic: bool, crtcs: seq<Crtc>,
                        test: seq<Hyp> -> bool, cursorOk: nat -> bool)
    requires RegOk(r) && NoDup(crtcs)
    ensures var o := Negotiate(r, cs, connected, atomic, crtcs, test, cursorOk);
            forall p :: p in o.config ==> EndsRouted(o.reg, p)
  {
    var (r4, ss) := StashAll(r, r.drmOutputs);
    PoolsOk(r, connected, atomic, crtcs);
    var pl := SearchPools(r4, connected, atomic, crtcs);
    var r5 := r4.(pipelines := pl.pipelines);
    var combination := FindWorkingCombination(atomic, test, [], pl.conns, pl.crtcs);
    var reverted := combination == [] && pl.conns != [];
    SettleAttached(r5, ss, reverted, combination);
    var (r6, ps) := Settle(r5, ss, reverted, combination);
    RouteAttached(r6, ps, cursorOk);
  }

  /**
   * Whether the combination was adopted or the old configuration
   * restored, every pipeline appended to m_pipelines ends up listed, a
   * non-desktop one switched off, and a desktop one attached to a
   * tracked output.
   */
  lemma UpdateRouted(r: Registry, conns: seq<Connector>, atomic: bool, crtcs: seq<Crtc>, a: Answers)
    requires RegOk(r) && NoDup(Ids(conns)) && NoDup(crtcs)
    ensures var o := UpdateSpec(r, conns, atomic, crtcs, a);
            forall p :: p in o.config ==> EndsRouted(o.reg, p)
  {
    if a.connectorIds.Some? {
      PrepareOk(r, conns, a.connectorIds.value, a.lessees, a.probe);
      var (r3, cs, connected) := Prepare(r, conns, a.connectorIds.value, a.lessees, a.probe);
      NegotiateRouted(r3, cs, connected, atomic, crtcs, a.test, a.cursorOk);
    }
  }

  lemma NegotiateRealises(r: Registry, cs: seq<Connector>, connected: seq<Connector>, atomic: bool, crtcs: seq<Crtc>,
                          test: seq<Hyp> -> bool, cursorOk: nat -> bool)
    requires RegOk(r) && NoDup(crtcs)
    ensures var o := Negotiate(r, cs, connected, atomic, crtcs, test, cursorOk);
            && (o.reverted ==> o.combination == [])
            && (o.combination != [] ==>
                  test(o.combination) && NoDup(CrtcsOf(o.combination)) && forall h :: h in o.combination ==> h.crtc in crtcs)
            && (!o.reverted ==>
                  && |o.config| == |o.combination|
                  && forall i :: 0 <= i < |o.config| ==>
                       o.config[i] in o.reg.pipes
                       && o.reg.pipes[o.config[i]].connector == o.combination[i].connector.id
                       && o.reg.pipes[o.config[i]].crtc == o.combination[i].crtc)
  {
    var (r4, ss) := StashAll(r, r.drmOutputs);
    PoolsOk(r, connected, atomic, crtcs);
    var pl := SearchPools(r4, connected, atomic, crtcs);
    var r5 := r4.(pipelines := pl.pipelines);
    var combination := FindWorkingCombination(atomic, test, [], pl.conns, pl.crtcs);
    SearchFromScratch(atomic, test, pl.conns, pl.crtcs);
    if !(combination == [] && pl.conns != []) {
      DeleteStashedOk(r5, ss);
      var d := DeleteStashed(r5, ss);
      AdoptAllPipes(d, combination);
      var (r6, ps) := AdoptAll(d, combination);
      var r6' := r6.(pipelines := r6.pipelines + ps);
      RouteAllFrame(r6', ps, cursorOk);
      var r7 := RouteAll(r6', ps, cursorOk).0;
      assert Negotiate(r, cs, connected, atomic, crtcs, test, cursorOk).reg == r7;
      forall i | 0 <= i < |ps| ensures ps[i] in r7.pipes && r7.pipes[ps[i]].connector == combination[i].connector.id
                                        && r7.pipes[ps[i]].crtc == combination[i].crtc {
        assert AdoptedAs(r6, ps[i], combination[i]);
      }
    }
  }

  /**
   * An adopted combination is realised exactly: one pipeline per pairing,
   * in order, on that pairing's connector and CRTC; a non-empty
   * combination passed the test commit and uses each CRTC at most once.
   */
  lemma UpdateRealises(r: Registry, conns: seq<Connector>, atomic: bool, crtcs: seq<Crtc>, a: Answers)
    requires RegOk(r) && NoDup(Ids(conns)) && NoDup(crtcs)
    ensures var o := UpdateSpec(r, conns, atomic, crtcs, a);
            && (o.reverted ==> o.combination == [])
            && (o.combination != [] ==>
                  a.test(o.combination) && NoDup(CrtcsOf(o.combination)) && forall h :: h in o.combination ==> h.crtc in crtcs)
            && (o.ok && !o.reverted ==>
                  && |o.config| == |o.combination|
                  && forall i :: 0 <= i < |o.config| ==>
                       o.config[i] in o.reg.pipes
                       && o.reg.pipes[o.config[i]].connector == o.combination[i].connector.id
                       && o.reg.pipes[o.config[i]].crtc == o.combination[i].crtc)
  {
    if a.connectorIds.Some? {
      PrepareOk(r, conns, a.connectorIds.value, a.lessees, a.probe);
      var (r3, cs, connected) := Prepare(r, conns, a.connectorIds.value, a.lessees, a.probe);
      NegotiateRealises(r3, cs, connected, atomic, crtcs, a.test, a.cursorOk);
    }
  }
}
