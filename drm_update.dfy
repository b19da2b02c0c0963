// The output half of DrmGpu::updateOutputs as functions on the registry:
// the lessee check, tearing down outputs of vanished connectors, the
// connected-connector pass, stashing the old pipelines, sorting, keeping
// leased resources out of the search, adopting the winning combination,
// rolling back when the search fails, and routing the accepted pipelines.
module DrmUpdate {
  import opened Common
  import opened DrmObjects
  import opened DrmRegistry
  import opened DrmReconcile
  import opened DrmSearch

  // ---------------------------------------------------------------- lessees

  /** The lease of lease output l is held by a lessee the kernel no longer lists. */
  predicate Stale(leaseOuts: map<nat, LeaseOutput>, l: nat, lessees: seq<nat>)
  {
    l in leaseOuts && leaseOuts[l].lease.Some? && leaseOuts[l].lease.value.lessee !in lessees
  }

  /** The denials the lessee check issues, in m_leaseOutputs order. */
  function Denials(ls: seq<nat>, leaseOuts: map<nat, LeaseOutput>, lessees: seq<nat>): seq<GpuEvent>
  {
    if ls == [] then []
    else
      var rest := Denials(ls[1..], leaseOuts, lessees);
      if Stale(leaseOuts, ls[0], lessees) then [LeaseDenied(ls[0], leaseOuts[ls[0]].lease.value.lessee)] + rest else rest
  }
  /** One step of the lessee check: the lease output at position i is denied first, if stale. */
  lemma DenialsAt(ls: seq<nat>, i: nat, leaseOuts: map<nat, LeaseOutput>, lessees: seq<nat>)
    requires i < |ls|
    ensures Denials(ls[i..], leaseOuts, lessees)
            == (if Stale(leaseOuts, ls[i], lessees) then [LeaseDenied(ls[i], leaseOuts[ls[i]].lease.value.lessee)] else [])
               + Denials(ls[i + 1..], leaseOuts, lessees)
  {
    assert ls[i..][0] == ls[i] && ls[i..][1..] == ls[i + 1..];
  }


  /**
   * A lease is denied exactly when its output is tracked, it is leased, and
   * its lessee id is missing from the kernel's lessee list.
   */
  lemma {:induction false} DenialsExact(ls: seq<nat>, leaseOuts: map<nat, LeaseOutput>, lessees: seq<nat>, l: nat, x: nat)
    ensures LeaseDenied(l, x) in Denials(ls, leaseOuts, lessees)
            <==> l in ls && Stale(leaseOuts, l, lessees) && leaseOuts[l].lease.value.lessee == x
  {
    if ls != [] {
      DenialsExact(ls[1..], leaseOuts, lessees, l, x);
      assert l in ls <==> l == ls[0] || l in ls[1..];
    }
  }

  // --------------------------------------------------------------- teardown

  /**
   * What updateOutputs does for a connector that is gone: remove its
   * output if it has one, else its lease output if it has one.
   */
  function Teardown(r: Registry, id: nat): Registry
  {
    var o := FindOutputIn(r, id);
    if o.Some? then RemoveOutputSpec(r, o.value)
    else
      var l := FindLeaseOutputIn(r, id);
      if l.Some? then RemoveLeaseOutputSpec(r, l.value) else r
  }

  /** Tearing down keeps the registry consistent and removes the object found for the connector. */
  lemma TeardownEffect(r: Registry, id: nat)
    requires RegOk(r)
    ensures var r' := Teardown(r, id);
            && RegOk(r')
            && (FindOutputIn(r, id).Some? ==> FindOutputIn(r, id).value !in r'.outputs && r'.leaseOutputs == r.leaseOutputs)
            && (FindOutputIn(r, id).None? && FindLeaseOutputIn(r, id).Some? ==>
                  FindLeaseOutputIn(r, id).value !in r'.leaseOutputs && r'.outputs == r.outputs)
            && (FindOutputIn(r, id).None? && FindLeaseOutputIn(r, id).None? ==> r' == r)
  {
    var o := FindOutputIn(r, id);
    if o.Some? {
      RemoveOutputEffect(r, o.value);
    } else if FindLeaseOutputIn(r, id).Some? {
      RemoveLeaseOutputEffect(r, FindLeaseOutputIn(r, id).value);
    }
  }

  /** The teardown loop over removedConnectors. */
  function TeardownAll(r: Registry, ids: seq<nat>): Registry
    decreases |ids|
  {
    if ids == [] then r else TeardownAll(Teardown(r, ids[0]), ids[1..])
  }

  lemma {:induction false} TeardownAllOk(r: Registry, ids: seq<nat>)
    requires RegOk(r)
    ensures RegOk(TeardownAll(r, ids))
    ensures forall x :: x in TeardownAll(r, ids).outputs ==> x in r.outputs
    decreases |ids|
  {
    if ids != [] {
      TeardownEffect(r, ids[0]);
      TeardownShrinks(r, ids[0]);
      TeardownAllOk(Teardown(r, ids[0]), ids[1..]);
    }
  }

  lemma TeardownShrinks(r: Registry, id: nat)
    requires RegOk(r)
    ensures forall x :: x in Teardown(r, id).outputs ==> x in r.outputs
  {
    var o := FindOutputIn(r, id);
    if o.Some? {
      SubsetOfRemoveOne(r.outputs, o.value);
    }
  }

  // ------------------------------------------------------ connected connectors

  /**
   * One iteration of the pass over m_connectors: a connected connector is
   * collected and its output's modes are refreshed; a disconnected one has
   * its output or lease output torn down.
   */
  function CollectStep(r: Registry, acc: seq<Connector>, c: Connector): (Registry, seq<Connector>)
  {
    var o := FindOutputIn(r, c.id);
    if c.connected then
      (if o.Some? then r.(events := r.events + [ModesUpdated(o.value)]) else r, acc + [c])
    else (Teardown(r, c.id), acc)
  }

  function CollectAll(r: Registry, acc: seq<Connector>, cs: seq<Connector>): (Registry, seq<Connector>)
    decreases |cs|
  {
    if cs == [] then (r, acc)
    else
      var (r1, acc1) := CollectStep(r, acc, cs[0]);
      CollectAll(r1, acc1, cs[1..])
  }

  /**
   * After reconciliation every tracked connector is connected, so the pass
   * collects all of them in order, tears nothing down, and only reports
   * refreshed modes.
   */
  lemma {:induction false} CollectAllConnected(r: Registry, acc: seq<Connector>, cs: seq<Connector>)
    requires forall c :: c in cs ==> c.connected
    ensures var (r', acc') := CollectAll(r, acc, cs);
            && acc' == acc + cs
            && r' == r.(events := r'.events)
            && |r'.events| >= |r.events| && r'.events[..|r.events|] == r.events
            && forall k :: |r.events| <= k < |r'.events| ==> r'.events[k].ModesUpdated?
    decreases |cs|
  {
    if cs != [] {
      var (r1, acc1) := CollectStep(r, acc, cs[0]);
      CollectAllConnected(r1, acc1, cs[1..]);
      assert acc1 + cs[1..] == acc + cs;
    }
  }

  // ------------------------------------------------------------------ stash

  /** A hardware output and the pipeline it had before the search. */
  datatype Stashed = Stashed(output: nat, pipeline: Option<nat>)

  /**
   * One iteration of the stash loop for output o: a disabled output is
   * announced enabled (so render resources exist for the test); its
   * pipeline leaves m_pipelines and is remembered; the output is detached.
   * (For an output of a consistent registry the guard always holds.)
   */
  function StashStep(r: Registry, o: nat): (Registry, Stashed)
  {
    if o in r.outs && r.outs[o].DrmOutput? then
      var out := r.outs[o];
      var p := out.pipeline;
      (r.(events := if !out.enabled then r.events + [OutputEnabled(o)] else r.events,
          pipelines := if p.Some? then RemoveOne(r.pipelines, p.value) else r.pipelines,
          outs := r.outs[o := out.(pipeline := None)]),
       Stashed(o, p))
    else (r, Stashed(o, None))
  }

  function StashAll(r: Registry, os: seq<nat>): (Registry, seq<Stashed>)
    decreases |os|
  {
    if os == [] then (r, [])
    else
      var (r1, s) := StashStep(r, os[0]);
      var (r2, ss) := StashAll(r1, os[1..]);
      (r2, [s] + ss)
  }

  /** One stash step: the output is detached and its pipeline leaves m_pipelines. */
  lemma StashStepEffect(r: Registry, o: nat)
    requires RegOk(r) && o in r.drmOutputs
    ensures var (r', s) := StashStep(r, o);
            && RegOk(r')
            && s == Stashed(o, r.outs[o].pipeline)
            && r'.outs == r.outs[o := r.outs[o].(pipeline := None)]
            && (s.pipeline.Some? ==> s.pipeline.value !in r'.pipelines)
            && (forall p :: p in r'.pipelines ==> p in r.pipelines)
            && r' == r.(events := r'.events, pipelines := r'.pipelines, outs := r'.outs)
  {
    StashStepOk(r, o);
    var p := r.outs[o].pipeline;
    if p.Some? {
      RemoveOneGone(r.pipelines, p.value);
      SubsetOfRemoveOne(r.pipelines, p.value);
    }
  }

  lemma StashStepOk(r: Registry, o: nat)
    requires RegOk(r) && o in r.drmOutputs
    ensures RegOk(StashStep(r, o).0)
  {
    var out := r.outs[o];
    var r1 := r.(outs := r.outs[o := out.(pipeline := None)]);
    assert RegOk(r1);
    var r2 := r1;
    if out.pipeline.Some? {
      RemoveOneGone(r.pipelines, out.pipeline.value);
      SubsetOfRemoveOne(r.pipelines, out.pipeline.value);
      r2 := r1.(pipelines := RemoveOne(r1.pipelines, out.pipeline.value));
      assert RegOk(r2);
    }
    var rf := StashStep(r, o).0;
    assert rf == r2.(events := rf.events);
    LogOk(r2, rf.events);
  }

  /** The log plays no part in the registry's consistency. */
  lemma LogOk(r: Registry, es: seq<GpuEvent>)
    requires RegOk(r)
    ensures RegOk(r.(events := es))
  {
  }

  /** The stash keeps the registry consistent. */
  lemma {:induction false} StashAllOk(r: Registry, os: seq<nat>)
    requires RegOk(r) && NoDup(os) && forall o :: o in os ==> o in r.drmOutputs
    ensures RegOk(StashAll(r, os).0)
    decreases |os|
  {
    if os != [] {
      StashStepEffect(r, os[0]);
      var (r1, s) := StashStep(r, os[0]);
      assert NoDup(os[1..]) && forall x :: x in os[1..] ==> x in r1.drmOutputs;
      StashAllOk(r1, os[1..]);
    }
  }

  /**
   * After the stash every listed output is detached, and nothing but
   * outputs' pipelines, m_pipelines and the log changes.
   */
  lemma {:induction false} StashAllState(r: Registry, os: seq<nat>)
    requires NoDup(os) && forall o :: o in os ==> o in r.outs && r.outs[o].DrmOutput?
    ensures var (r', ss) := StashAll(r, os);
            && r'.outs.Keys == r.outs.Keys
            && (forall o :: o in os ==> r'.outs[o] == r.outs[o].(pipeline := None))
            && (forall o :: o in r.outs && o !in os ==> r'.outs[o] == r.outs[o])
            && (forall p :: p in r'.pipelines ==> p in r.pipelines)
            && r' == r.(events := r'.events, pipelines := r'.pipelines, outs := r'.outs)
    decreases |os|
  {
    if os != [] {
      var o := os[0];
      StashStepShape(r, o);
      var (r1, s) := StashStep(r, o);
      assert NoDup(os[1..]) && forall x :: x in os[1..] ==> x in r1.outs && r1.outs[x].DrmOutput?;
      StashAllState(r1, os[1..]);
      assert o !in os[1..];
    }
  }

  /** One stash step detaches the output and only shrinks m_pipelines. */
  lemma StashStepShape(r: Registry, o: nat)
    requires o in r.outs && r.outs[o].DrmOutput?
    ensures var (r', s) := StashStep(r, o);
            && r'.outs == r.outs[o := r.outs[o].(pipeline := None)]
            && (forall p :: p in r'.pipelines ==> p in r.pipelines)
            && r' == r.(events := r'.events, pipelines := r'.pipelines, outs := r'.outs)
  {
    var p := r.outs[o].pipeline;
    if p.Some? {
      SubsetOfRemoveOne(r.pipelines, p.value);
    }
  }

  /** What the stash records need of the registry: the outputs are hardware outputs and m_pipelines has no duplicates. */
  predicate StashReady(r: Registry, os: seq<nat>)
  {
    NoDup(os) && NoDup(r.pipelines) && forall o :: o in os ==> o in r.outs && r.outs[o].DrmOutput?
  }

  lemma StashStepReady(r: Registry, os: seq<nat>)
    requires os != [] && StashReady(r, os)
    ensures var (r1, s) := StashStep(r, os[0]);
            && StashReady(r1, os[1..])
            && s == Stashed(os[0], r.outs[os[0]].pipeline)
            && (s.pipeline.Some? ==> s.pipeline.value !in r1.pipelines)
            && (forall o :: o in os[1..] ==> r1.outs[o] == r.outs[o])
  {
    var o := os[0];
    var p := r.outs[o].pipeline;
    if p.Some? {
      RemoveOneGone(r.pipelines, p.value);
    }
    assert o !in os[1..];
  }

  /**
   * The stash records each output with the pipeline it had, and none of
   * those pipelines is left in m_pipelines.
   */
  lemma {:induction false} StashAllRecords(r: Registry, os: seq<nat>)
    requires StashReady(r, os)
    ensures var (r', ss) := StashAll(r, os);
            && |ss| == |os|
            && (forall i :: 0 <= i < |os| ==> ss[i] == Stashed(os[i], r.outs[os[i]].pipeline))
            && (forall i :: 0 <= i < |ss| && ss[i].pipeline.Some? ==> ss[i].pipeline.value !in r'.pipelines)
    decreases |os|
  {
    if os != [] {
      StashStepReady(r, os);
      var (r1, s) := StashStep(r, os[0]);
      StashAllRecords(r1, os[1..]);
      StashAllShrinks(r1, os[1..]);
      var (r2, ss) := StashAll(r1, os[1..]);
      forall i | 0 <= i < |os| ensures ([s] + ss)[i] == Stashed(os[i], r.outs[os[i]].pipeline) {
        if i > 0 { assert os[i] == os[1..][i - 1]; assert os[i] in os[1..]; }
      }
      forall i | 0 <= i < |[s] + ss| && ([s] + ss)[i].pipeline.Some? ensures ([s] + ss)[i].pipeline.value !in r2.pipelines {
        if i > 0 { assert ([s] + ss)[i] == ss[i - 1]; }
      }
    }
  }

  /** The stash only ever removes from m_pipelines. */
  lemma {:induction false} StashAllShrinks(r: Registry, os: seq<nat>)
    ensures forall p :: p in StashAll(r, os).0.pipelines ==> p in r.pipelines
    decreases |os|
  {
    if os != [] {
      var (r1, s) := StashStep(r, os[0]);
      if os[0] in r.outs && r.outs[os[0]].DrmOutput? && r.outs[os[0]].pipeline.Some? {
        SubsetOfRemoveOne(r.pipelines, r.outs[os[0]].pipeline.value);
      }
      StashAllShrinks(r1, os[1..]);
    }
  }

  // ------------------------------------------------------------------- sort

  /** Connectors in non-increasing order of their CRTC_ID property. */
  predicate SortedByHint(cs: seq<Connector>)
  {
    forall i, j :: 0 <= i < j < |cs| ==> cs[i].crtcHint >= cs[j].crtcHint
  }

  /** Insert c after every connector whose hint is at least c's. */
  function InsertByHint(c: Connector, cs: seq<Connector>): (r: seq<Connector>)
    ensures multiset(r) == multiset(cs) + multiset{c}
    ensures |r| == |cs| + 1
  {
    if cs == [] then [c]
    else
      assert cs == [cs[0]] + cs[1..];
      if cs[0].crtcHint >= c.crtcHint then [cs[0]] + InsertByHint(c, cs[1..])
      else [c] + cs
  }

  /**
   * The std::sort of connectedConnectors in atomic mode, by CRTC_ID
   * descending; the relative order of connectors with equal hints is
   * unspecified in the source. Here each connector is inserted after the
   * later ones with an equal hint, so equal hints come out in reverse
   * input order.
   */
  function SortByHint(cs: seq<Connector>): (r: seq<Connector>)
    ensures multiset(r) == multiset(cs)
    ensures |r| == |cs|
  {
    if cs == [] then []
    else
      assert cs == [cs[0]] + cs[1..];
      InsertByHint(cs[0], SortByHint(cs[1..]))
  }

  lemma {:induction false} InsertByHintSorted(c: Connector, cs: seq<Connector>)
    requires SortedByHint(cs)
    ensures SortedByHint(InsertByHint(c, cs))
  {
    if cs != [] && cs[0].crtcHint >= c.crtcHint {
      InsertByHintSorted(c, cs[1..]);
      var t := InsertByHint(c, cs[1..]);
      var r := [cs[0]] + t;
      forall j | 0 < j < |r| ensures r[0].crtcHint >= r[j].crtcHint {
        assert r[j] in multiset(t);
        assert r[j] in multiset(cs[1..]) + multiset{c};
        if r[j] != c {
          assert r[j] in cs[1..];
          var k :| 0 <= k < |cs[1..]| && cs[1..][k] == r[j];
          assert cs[k + 1] == r[j];
        }
      }
    }
  }

  /** The sort yields the same connectors, by CRTC_ID descending. */
  lemma {:induction false} SortByHintSorted(cs: seq<Connector>)
    ensures SortedByHint(SortByHint(cs))
    ensures multiset(SortByHint(cs)) == multiset(cs)
  {
    if cs != [] {
      SortByHintSorted(cs[1..]);
      InsertByHintSorted(cs[0], SortByHint(cs[1..]));
    }
  }

  // ------------------------------------------------------ leased resources

  /** The search pools and m_pipelines while leased resources are taken out. */
  datatype Pools = Pools(conns: seq<Connector>, crtcs: seq<Crtc>, pipelines: seq<nat>)

  /** l is a lease output with a valid pipeline, currently leased. */
  predicate LeasedOut(r: Registry, l: nat)
  {
    l in r.leaseOuts && r.leaseOuts[l].pipeline in r.pipes && r.leaseOuts[l].lease.Some?
  }

  /** l is a lease output with a valid pipeline, currently not leased. */
  predicate FreeOut(r: Registry, l: nat)
  {
    l in r.leaseOuts && r.leaseOuts[l].pipeline in r.pipes && r.leaseOuts[l].lease.None?
  }

  /**
   * One iteration over m_leaseOutputs: a leased output's connector and
   * CRTC leave the search pools; an unleased one's pipeline leaves
   * m_pipelines.
   */
  function ExcludeStep(r: Registry, pl: Pools, l: nat): Pools
  {
    if LeasedOut(r, l) then
      var pipe := r.pipes[r.leaseOuts[l].pipeline];
      pl.(conns := RemoveConnector(pl.conns, pipe.connector), crtcs := RemoveOne(pl.crtcs, pipe.crtc))
    else if FreeOut(r, l) then pl.(pipelines := RemoveOne(pl.pipelines, r.leaseOuts[l].pipeline))
    else pl
  }

  function ExcludeAll(r: Registry, pl: Pools, ls: seq<nat>): Pools
    decreases |ls|
  {
    if ls == [] then pl else ExcludeAll(r, ExcludeStep(r, pl, ls[0]), ls[1..])
  }

  /** Some leased output among ls holds the connector with this id. */
  ghost predicate LeasedConnector(r: Registry, ls: seq<nat>, id: nat)
  {
    exists l :: l in ls && LeasedOut(r, l) && r.pipes[r.leaseOuts[l].pipeline].connector == id
  }

  /** Some leased output among ls holds this CRTC. */
  ghost predicate LeasedCrtc(r: Registry, ls: seq<nat>, k: Crtc)
  {
    exists l :: l in ls && LeasedOut(r, l) && r.pipes[r.leaseOuts[l].pipeline].crtc == k
  }

  /** Some unleased output among ls has this pipeline. */
  ghost predicate FreePipeline(r: Registry, ls: seq<nat>, p: nat)
  {
    exists l :: l in ls && FreeOut(r, l) && r.leaseOuts[l].pipeline == p
  }

  /** Pools without duplicate connector ids, CRTCs or pipelines. */
  predicate PoolsDistinct(pl: Pools)
  {
    NoDup(Ids(pl.conns)) && NoDup(pl.crtcs) && NoDup(pl.pipelines)
  }

  lemma ExcludeStepEffect(r: Registry, pl: Pools, l: nat)
    requires PoolsDistinct(pl)
    ensures var pl' := ExcludeStep(r, pl, l);
            && PoolsDistinct(pl')
            && (forall c :: c in pl'.conns <==> c in pl.conns && !LeasedConnector(r, [l], c.id))
            && (forall k :: k in pl'.crtcs <==> k in pl.crtcs && !LeasedCrtc(r, [l], k))
            && (forall p :: p in pl'.pipelines <==> p in pl.pipelines && !FreePipeline(r, [l], p))
  {
    if LeasedOut(r, l) {
      var pipe := r.pipes[r.leaseOuts[l].pipeline];
      RemoveConnectorKeeps(pl.conns, pipe.connector);
      RemoveOneGone(pl.crtcs, pipe.crtc);
      SubsetOfRemoveOne(pl.crtcs, pipe.crtc);
      assert forall id :: LeasedConnector(r, [l], id) <==> id == pipe.connector;
      assert forall k :: LeasedCrtc(r, [l], k) <==> k == pipe.crtc;
      assert forall p :: !FreePipeline(r, [l], p);
    } else if FreeOut(r, l) {
      var p0 := r.leaseOuts[l].pipeline;
      RemoveOneGone(pl.pipelines, p0);
      SubsetOfRemoveOne(pl.pipelines, p0);
      assert forall p :: FreePipeline(r, [l], p) <==> p == p0;
      assert forall id :: !LeasedConnector(r, [l], id);
      assert forall k :: !LeasedCrtc(r, [l], k);
    } else {
      assert forall id :: !LeasedConnector(r, [l], id);
      assert forall k :: !LeasedCrtc(r, [l], k);
      assert forall p :: !FreePipeline(r, [l], p);
    }
  }

  /**
   * Taking leased resources out: exactly the connectors and CRTCs held by
   * leased outputs leave the search pools, and exactly the pipelines of
   * unleased lease outputs leave m_pipelines.
   */
  lemma {:induction false} ExcludeAllEffect(r: Registry, pl: Pools, ls: seq<nat>)
    requires PoolsDistinct(pl)
    ensures var pl' := ExcludeAll(r, pl, ls);
            && PoolsDistinct(pl')
            && (forall c :: c in pl'.conns <==> c in pl.conns && !LeasedConnector(r, ls, c.id))
            && (forall k :: k in pl'.crtcs <==> k in pl.crtcs && !LeasedCrtc(r, ls, k))
            && (forall p :: p in pl'.pipelines <==> p in pl.pipelines && !FreePipeline(r, ls, p))
    decreases |ls|
  {
    if ls != [] {
      var pl1 := ExcludeStep(r, pl, ls[0]);
      ExcludeStepEffect(r, pl, ls[0]);
      ExcludeAllEffect(r, pl1, ls[1..]);
      assert forall l :: l in ls <==> l in [ls[0]] || l in ls[1..];
      assert forall id :: LeasedConnector(r, ls, id) <==> LeasedConnector(r, [ls[0]], id) || LeasedConnector(r, ls[1..], id);
      assert forall k :: LeasedCrtc(r, ls, k) <==> LeasedCrtc(r, [ls[0]], k) || LeasedCrtc(r, ls[1..], k);
      assert forall p :: FreePipeline(r, ls, p) <==> FreePipeline(r, [ls[0]], p) || FreePipeline(r, ls[1..], p);
    }
  }

  // -------------------------------------------------------------- adoption

  /**
   * commitCombination for one pipeline of the winning combination: the
   * pipeline is created (active); an existing output on its connector is
   * linked to it; otherwise a desktop connector gets a new output, which
   * is announced enabled; a non-desktop one gets no output.
   */
  function AdoptStep(r: Registry, h: Hyp): (Registry, nat)
  {
    var p := r.nextId;
    var c := h.connector;
    var r1 := AllocPipe(r, Pipeline(c.id, h.crtc, None, true, c.nonDesktop));
    var o := FindOutputIn(r, c.id);
    if o.Some? then (Link(r1, o.value, p), p)
    else if !c.nonDesktop then (NewOutput(r1, c.id, p), p)
    else (r1, p)
  }

  /** A new pipeline object under the next free id. */
  function AllocPipe(r: Registry, pipe: Pipeline): Registry
  {
    r.(pipes := r.pipes[r.nextId := pipe], nextId := r.nextId + 1)
  }

  /**
   * DrmPipeline::setOutput as the gpu uses it: the pipeline and the
   * hardware output refer to each other afterwards.
   */
  function Link(r: Registry, o: nat, p: nat): Registry
    requires o in r.outs && p in r.pipes
  {
    r.(outs := if r.outs[o].DrmOutput? then r.outs[o := r.outs[o].(pipeline := Some(p))] else r.outs,
       pipes := r.pipes[p := r.pipes[p].(output := Some(o))])
  }

  /** A new, enabled hardware output on pipeline p, announced as enabled. */
  function NewOutput(r: Registry, c: nat, p: nat): Registry
    requires p in r.pipes
  {
    var n := r.nextId;
    r.(outs := r.outs[n := DrmOutput(c, Some(p), true, true, false)],
       pipes := r.pipes[p := r.pipes[p].(output := Some(n))],
       nextId := n + 1,
       events := r.events + [OutputEnabled(n)])
  }

  function AdoptAll(r: Registry, hs: seq<Hyp>): (Registry, seq<nat>)
    decreases |hs|
  {
    if hs == [] then (r, [])
    else
      var (r1, p) := AdoptStep(r, hs[0]);
      var (r2, ps) := AdoptAll(r1, hs[1..]);
      (r2, [p] + ps)
  }

  /** Pipeline p was created for pairing h: its connector, CRTC, activity and desktop flag, and an output when the connector is a desktop one. */
  predicate AdoptedAs(r: Registry, p: nat, h: Hyp)
  {
    && p in r.pipes && r.pipes[p].connector == h.connector.id
    && r.pipes[p].crtc == h.crtc && r.pipes[p].active
    && r.pipes[p].nonDesktop == h.connector.nonDesktop
    && (!h.connector.nonDesktop ==> r.pipes[p].output.Some?)
  }

  /**
   * Every pipeline in ps is allocated, and the output of a desktop one, if
   * any, has not been destroyed.
   */
  predicate Routable(r: Registry, ps: seq<nat>)
  {
    forall p :: p in ps ==> p in r.pipes && (r.pipes[p].output.Some? && !r.pipes[p].nonDesktop ==> r.pipes[p].output.value !in r.deleted)
  }

  /** Allocating a fresh pipeline with no output keeps the registry consistent. */
  lemma AllocPipeOk(r: Registry, pipe: Pipeline)
    requires RegOk(r) && pipe.output.None?
    ensures RegOk(AllocPipe(r, pipe))
  {
  }

  /** Linking an allocated pipeline and a hardware output both ways keeps the registry consistent. */
  lemma LinkOk(r: Registry, o: nat, p: nat)
    requires RegOk(r) && o in r.outs && r.outs[o].DrmOutput? && p in r.pipes
    ensures RegOk(Link(r, o, p))
  {
    var r1 := r.(outs := r.outs[o := r.outs[o].(pipeline := Some(p))]);
    assert RegOk(r1);
    SetOutputOk(r1, p, o);
    assert Link(r, o, p) == SetOutput(r1, p, o);
  }

  /** Allocating a new hardware output on an allocated pipeline keeps the registry consistent. */
  lemma NewOutputOk(r: Registry, c: nat, p: nat)
    requires RegOk(r) && p in r.pipes
    ensures RegOk(NewOutput(r, c, p))
  {
    NewOutputLists(r, c, p);
    NewOutputArena(r, c, p);
  }

  /** The two halves of NewOutputOk, proved apart. */
  lemma NewOutputLists(r: Registry, c: nat, p: nat)
    requires RegOk(r) && p in r.pipes
    ensures ListsOk(NewOutput(r, c, p))
  {
    var n := r.nextId;
    assert n !in r.outs && n !in r.deleted;
  }

  lemma NewOutputArena(r: Registry, c: nat, p: nat)
    requires RegOk(r) && p in r.pipes
    ensures ArenaOk(NewOutput(r, c, p))
  {
    var n := r.nextId;
    assert n !in r.pipes && n !in r.leaseOuts && n !in r.outs;
  }

  lemma AdoptStepOk(r: Registry, h: Hyp)
    requires RegOk(r)
    ensures RegOk(AdoptStep(r, h).0)
  {
    var p := r.nextId;
    var c := h.connector;
    var r1 := AllocPipe(r, Pipeline(c.id, h.crtc, None, true, c.nonDesktop));
    AllocPipeOk(r, Pipeline(c.id, h.crtc, None, true, c.nonDesktop));
    var o := FindOutputIn(r, c.id);
    if o.Some? {
      LinkOk(r1, o.value, p);
    } else if !c.nonDesktop {
      NewOutputOk(r1, c.id, p);
    }
  }

  lemma AdoptStepEffect(r: Registry, h: Hyp)
    requires RegOk(r)
    ensures var (r', p) := AdoptStep(r, h);
            && RegOk(r')
            && p == r.nextId && r'.nextId > p
            && p in r'.pipes && r'.pipes[p].connector == h.connector.id && r'.pipes[p].crtc == h.crtc
            && r'.pipes[p].active && r'.pipes[p].nonDesktop == h.connector.nonDesktop
            && (!h.connector.nonDesktop ==> r'.pipes[p].output.Some?)
            && (r'.pipes[p].output.Some? ==> r'.pipes[p].output.value !in r'.deleted)
            && (forall q :: q in r.pipes ==> q in r'.pipes && r'.pipes[q] == r.pipes[q])
            && r'.pipelines == r.pipelines && r'.outputs == r.outputs && r'.drmOutputs == r.drmOutputs
            && r'.leaseOuts == r.leaseOuts && r'.leaseOutputs == r.leaseOutputs && r'.deleted == r.deleted
  {
    AdoptStepOk(r, h);
    AdoptStepPipe(r, h);
    AdoptStepKeeps(r, h);
  }

  /** The pipeline adoption creates, and the output it is given. */
  lemma AdoptStepPipe(r: Registry, h: Hyp)
    requires RegOk(r)
    ensures var r' := AdoptStep(r, h).0;
            var p := r.nextId;
            && AdoptStep(r, h).1 == p && r'.nextId > p
            && p in r'.pipes && r'.pipes[p].connector == h.connector.id && r'.pipes[p].crtc == h.crtc
            && r'.pipes[p].active && r'.pipes[p].nonDesktop == h.connector.nonDesktop
            && (!h.connector.nonDesktop ==> r'.pipes[p].output.Some?)
            && (r'.pipes[p].output.Some? ==> r'.pipes[p].output.value !in r'.deleted)
  {
    var o := FindOutputIn(r, h.connector.id);
    if o.Some? {
      assert o.value in r.outputs;
    }
  }

  /** Adoption leaves the existing pipelines, the lists and the destroyed set alone. */
  lemma AdoptStepKeeps(r: Registry, h: Hyp)
    requires RegOk(r)
    ensures var r' := AdoptStep(r, h).0;
            && (forall q :: q in r.pipes ==> q in r'.pipes && r'.pipes[q] == r.pipes[q])
            && r'.pipelines == r.pipelines && r'.outputs == r.outputs && r'.drmOutputs == r.drmOutputs
            && r'.leaseOuts == r.leaseOuts && r'.leaseOutputs == r.leaseOutputs && r'.deleted == r.deleted
  {
    assert r.nextId !in r.pipes;
  }

  /**
   * What adoption leaves alone: existing pipelines, the tracked lists, the
   * lease outputs and the destroyed set; ids only grow.
   */
  predicate AdoptFrame(r: Registry, r': Registry)
  {
    && (forall q :: q in r.pipes ==> q in r'.pipes && r'.pipes[q] == r.pipes[q])
    && r'.pipelines == r.pipelines && r'.outputs == r.outputs && r'.drmOutputs == r.drmOutputs
    && r'.leaseOuts == r.leaseOuts && r'.leaseOutputs == r.leaseOutputs && r'.deleted == r.deleted
    && r'.nextId >= r.nextId
  }

  /** Adoption keeps the registry consistent and touches nothing tracked. */
  lemma {:induction false} AdoptAllOk(r: Registry, hs: seq<Hyp>)
    requires RegOk(r)
    ensures RegOk(AdoptAll(r, hs).0) && AdoptFrame(r, AdoptAll(r, hs).0)
    decreases |hs|
  {
    if hs != [] {
      AdoptStepEffect(r, hs[0]);
      var (r1, p) := AdoptStep(r, hs[0]);
      AdoptAllOk(r1, hs[1..]);
    }
  }

  /**
   * Adopting the winning combination creates one fresh, active pipeline per
   * pairing, in order, on that pairing's connector and CRTC; every desktop
   * pipeline gets an output that has not been destroyed.
   */
  lemma {:induction false} AdoptAllGrows(r: Registry, hs: seq<Hyp>)
    ensures AdoptAll(r, hs).0.nextId >= r.nextId
    decreases |hs|
  {
    if hs != [] {
      AdoptAllGrows(AdoptStep(r, hs[0]).0, hs[1..]);
    }
  }

  lemma {:induction false} AdoptAllIds(r: Registry, hs: seq<Hyp>)
    ensures var (r', ps) := AdoptAll(r, hs);
            && |ps| == |hs|
            && (forall i :: 0 <= i < |ps| ==> r.nextId <= ps[i] < r'.nextId)
            && (forall i, j :: 0 <= i < j < |ps| ==> ps[i] < ps[j])
    decreases |hs|
  {
    if hs != [] {
      var (r1, p) := AdoptStep(r, hs[0]);
      AdoptAllIds(r1, hs[1..]);
      AdoptAllGrows(r1, hs[1..]);
    }
  }

  lemma AdoptAllPipes(r: Registry, hs: seq<Hyp>)
    requires RegOk(r)
    ensures var (r', ps) := AdoptAll(r, hs);
            && |ps| == |hs|
            && (forall i :: 0 <= i < |ps| ==> AdoptedAs(r', ps[i], hs[i]))
            && Routable(r', ps)
  {
    AdoptAllShape(r, hs);
    AdoptAllRoutable(r, hs);
  }

  /** Each created pipeline carries its pairing's connector, CRTC and desktop flag. */
  lemma {:induction false} AdoptAllShape(r: Registry, hs: seq<Hyp>)
    requires RegOk(r)
    ensures var (r', ps) := AdoptAll(r, hs);
            && |ps| == |hs|
            && (forall i :: 0 <= i < |ps| ==> AdoptedAs(r', ps[i], hs[i]))
    decreases |hs|
  {
    if hs != [] {
      var (r1, p) := AdoptStep(r, hs[0]);
      assert RegOk(r1) && AdoptedAs(r1, p, hs[0]) by {
        AdoptStepEffect(r, hs[0]);
      }
      AdoptAllShape(r1, hs[1..]);
      var (r2, ps) := AdoptAll(r1, hs[1..]);
      assert r2.pipes[p] == r1.pipes[p] by {
        AdoptAllOk(r1, hs[1..]);
      }
      var all := [p] + ps;
      forall i | 0 <= i < |all| ensures AdoptedAs(r2, all[i], hs[i])
      {
        if i > 0 { assert all[i] == ps[i - 1] && hs[i] == hs[1..][i - 1]; }
      }
    }
  }

  /** No created desktop pipeline points at a destroyed output. */
  lemma {:induction false} AdoptAllRoutable(r: Registry, hs: seq<Hyp>)
    requires RegOk(r)
    ensures Routable(AdoptAll(r, hs).0, AdoptAll(r, hs).1)
    decreases |hs|
  {
    if hs != [] {
      var (r1, p) := AdoptStep(r, hs[0]);
      assert RegOk(r1) && Routable(r1, [p]) by {
        AdoptStepEffect(r, hs[0]);
      }
      AdoptAllRoutable(r1, hs[1..]);
      var (r2, ps) := AdoptAll(r1, hs[1..]);
      assert r2.pipes[p] == r1.pipes[p] && r2.deleted == r1.deleted by {
        AdoptAllOk(r1, hs[1..]);
      }
      assert AdoptAll(r, hs).1 == [p] + ps;
    }
  }

  /** Adoption leaves alone a hardware output whose connector is in no pairing. */
  lemma {:induction false} AdoptLeavesUnplaced(r: Registry, hs: seq<Hyp>, o: nat)
    requires o in r.outs && r.outs[o].DrmOutput? && o < r.nextId
    requires forall i :: 0 <= i < |hs| ==> hs[i].connector.id != r.outs[o].connector
    ensures o in AdoptAll(r, hs).0.outs && AdoptAll(r, hs).0.outs[o] == r.outs[o]
    decreases |hs|
  {
    if hs != [] {
      var (r1, p) := AdoptStep(r, hs[0]);
      var f := FindOutputIn(r, hs[0].connector.id);
      if f.Some? {
        assert OutputOn(r.outs, f.value, hs[0].connector.id);
      }
      assert o in r1.outs && r1.outs[o] == r.outs[o];
      AdoptLeavesUnplaced(r1, hs[1..], o);
    }
  }

  /**
   * A tracked output whose connector the winning combination leaves out
   * ends the update with no pipeline: the stash detached it and adoption
   * did not attach a new one.
   */
  lemma UnplacedOutputDetached(r: Registry, os: seq<nat>, hs: seq<Hyp>, o: nat)
    requires RegOk(r) && NoDup(os) && (forall x :: x in os ==> x in r.drmOutputs) && o in os
    requires forall i :: 0 <= i < |hs| ==> hs[i].connector.id != r.outs[o].connector
    ensures var r1 := StashAll(r, os).0;
            o in AdoptAll(r1, hs).0.outs && AdoptAll(r1, hs).0.outs[o].DrmOutput? && AdoptAll(r1, hs).0.outs[o].pipeline.None?
  {
    StashAllState(r, os);
    StashAllOk(r, os);
    var r1 := StashAll(r, os).0;
    assert r1.outs[o] == r.outs[o].(pipeline := None);
    AdoptLeavesUnplaced(r1, hs, o);
  }

  // ---------------------------------------------------------------- revert

  /** DrmPipeline::setOutput: only the pipeline's side of the link is set. */
  function SetOutput(r: Registry, p: nat, o: nat): Registry
  {
    if p in r.pipes then r.(pipes := r.pipes[p := r.pipes[p].(output := Some(o))]) else r
  }

  /**
   * The rollback as written: every stashed pipeline is handed back its
   * output and joins the configuration. A stash entry with no pipeline is
   * dereferenced all the same, modelled as None.
   */
  function RevertAsWritten(r: Registry, ss: seq<Stashed>): Option<(Registry, seq<nat>)>
    decreases |ss|
  {
    if ss == [] then Some((r, []))
    else if ss[0].pipeline.None? then None
    else
      var p := ss[0].pipeline.value;
      match RevertAsWritten(SetOutput(r, p, ss[0].output), ss[1..])
      case None => None
      case Some((r2, ps)) => Some((r2, [p] + ps))
  }

  /**
   * One stash entry given back: the hardware output drives the pipeline it
   * was stashed with again (none if it had none), and that pipeline refers
   * to the output.
   */
  function Restore(r: Registry, s: Stashed): Registry
  {
    var r1 := if s.output in r.outs && r.outs[s.output].DrmOutput?
              then r.(outs := r.outs[s.output := r.outs[s.output].(pipeline := s.pipeline)])
              else r;
    if s.pipeline.Some? then SetOutput(r1, s.pipeline.value, s.output) else r1
  }

  /**
   * The rollback with the missing checks: outputs that had no pipeline are
   * not dereferenced, and both sides of every stashed link are restored.
   */
  function Revert(r: Registry, ss: seq<Stashed>): (Registry, seq<nat>)
    decreases |ss|
  {
    if ss == [] then (r, [])
    else if ss[0].pipeline.None? then Revert(Restore(r, ss[0]), ss[1..])
    else
      var p := ss[0].pipeline.value;
      var (r2, ps) := Revert(Restore(r, ss[0]), ss[1..]);
      (r2, [p] + ps)
  }

  /** The pipelines recorded by the stash, in order. */
  function StashedPipes(ss: seq<Stashed>): (ps: seq<nat>)
    ensures forall p :: p in ps <==> exists s :: s in ss && s.pipeline == Some(p)
    decreases |ss|
  {
    if ss == [] then []
    else
      var rest := StashedPipes(ss[1..]);
      assert forall s :: s in ss <==> s == ss[0] || s in ss[1..];
      if ss[0].pipeline.Some? then [ss[0].pipeline.value] + rest else rest
  }

  /** Any stash entry without a pipeline makes the rollback as written dereference null. */
  lemma {:induction false} RevertAsWrittenFails(r: Registry, ss: seq<Stashed>, i: nat)
    requires i < |ss| && ss[i].pipeline.None?
    ensures RevertAsWritten(r, ss).None?
    decreases |ss|
  {
    if i > 0 && ss[0].pipeline.Some? {
      RevertAsWrittenFails(SetOutput(r, ss[0].pipeline.value, ss[0].output), ss[1..], i - 1);
    }
  }

  /**
   * When every stashed output had a pipeline, the rollback as written
   * returns the corrected configuration and sets the same pipeline links,
   * but leaves every output's own link as it found it.
   */
  lemma RevertAgrees(r: Registry, ss: seq<Stashed>)
    requires forall i :: 0 <= i < |ss| ==> ss[i].pipeline.Some?
    ensures RevertAsWritten(r, ss) == Some((Revert(r, ss).0.(outs := r.outs), Revert(r, ss).1))
  {
    RevertAgreesFrom(r, r.outs, ss);
  }

  /** RevertAgrees for a corrected rollback that starts from any output links. */
  lemma {:induction false} RevertAgreesFrom(r: Registry, links: map<nat, OutputObj>, ss: seq<Stashed>)
    requires forall i :: 0 <= i < |ss| ==> ss[i].pipeline.Some?
    ensures var (r', ps) := Revert(r.(outs := links), ss);
            RevertAsWritten(r, ss) == Some((r'.(outs := r.outs), ps))
    decreases |ss|
  {
    if ss != [] {
      var r1 := SetOutput(r, ss[0].pipeline.value, ss[0].output);
      var back := Restore(r.(outs := links), ss[0]);
      assert back == r1.(outs := back.outs);
      RevertAgreesFrom(r1, back.outs, ss[1..]);
    }
  }

  /** The stash entries name live hardware outputs and allocated pipelines. */
  predicate RevertReady(r: Registry, ss: seq<Stashed>)
  {
    forall s :: s in ss ==> s.output in r.outs && r.outs[s.output].DrmOutput? && s.output !in r.deleted
                            && (s.pipeline.Some? ==> s.pipeline.value in r.pipes)
  }

  /** Output o was stashed together with pipeline p. */
  ghost predicate RestoredFrom(ss: seq<Stashed>, p: nat, o: nat)
  {
    exists s :: s in ss && s.pipeline == Some(p) && s.output == o
  }

  lemma SetOutputOk(r: Registry, p: nat, o: nat)
    requires RegOk(r) && o in r.outs && r.outs[o].DrmOutput?
    ensures RegOk(SetOutput(r, p, o))
  {
  }

  lemma RestoreOk(r: Registry, s: Stashed)
    requires RegOk(r) && RevertReady(r, [s])
    ensures RegOk(Restore(r, s)) && Restore(r, s).outs.Keys == r.outs.Keys
  {
    assert s in [s];
    var r1 := r.(outs := r.outs[s.output := r.outs[s.output].(pipeline := s.pipeline)]);
    assert RegOk(r1);
    if s.pipeline.Some? {
      SetOutputOk(r1, s.pipeline.value, s.output);
    }
  }

  /** Giving a stash entry back changes at most that output's pipeline. */
  lemma RestoreOuts(r: Registry, s: Stashed)
    ensures Restore(r, s).outs == if s.output in r.outs && r.outs[s.output].DrmOutput?
                                  then r.outs[s.output := r.outs[s.output].(pipeline := s.pipeline)]
                                  else r.outs
  {
  }

  /** The corrected rollback keeps the registry consistent. */
  lemma {:induction false} RevertOk(r: Registry, ss: seq<Stashed>)
    requires RegOk(r) && RevertReady(r, ss)
    ensures RegOk(Revert(r, ss).0)
    decreases |ss|
  {
    if ss != [] {
      assert ss[0] in ss;
      RestoreOk(r, ss[0]);
      assert forall s :: s in ss[1..] ==> s in ss;
      RevertOk(Restore(r, ss[0]), ss[1..]);
    }
  }

  /**
   * The corrected rollback returns exactly the stashed pipelines, in stash
   * order, each linked back to an output it was stashed from; nothing but
   * the links between pipelines and hardware outputs changes.
   */
  lemma {:induction false} RevertConfig(r: Registry, ss: seq<Stashed>)
    requires RevertReady(r, ss)
    ensures var (r', ps) := Revert(r, ss);
            && ps == StashedPipes(ss)
            && r'.pipes.Keys == r.pipes.Keys
            && (forall q :: q in r.pipes ==> r'.pipes[q] == r.pipes[q].(output := r'.pipes[q].output))
            && (forall q :: q in r.pipes && q !in ps ==> r'.pipes[q] == r.pipes[q])
            && (forall p :: p in ps ==> r'.pipes[p].output.Some? && RestoredFrom(ss, p, r'.pipes[p].output.value))
            && Routable(r', ps)
            && OnlyLinksChange(r.outs, r'.outs)
            && r' == r.(pipes := r'.pipes, outs := r'.outs)
  {
    RevertFrame(r, ss);
    RevertOutsFrame(r, ss);
    RevertLinks(r, ss);
  }

  /** Every output keeps its kind, and a hardware output changes at most its pipeline. */
  predicate OnlyLinksChange(outs: map<nat, OutputObj>, outs': map<nat, OutputObj>)
  {
    && outs'.Keys == outs.Keys
    && (forall o :: o in outs ==> outs'[o].DrmOutput? == outs[o].DrmOutput?)
    && (forall o :: o in outs && outs[o].VirtualOutput? ==> outs'[o] == outs[o])
    && (forall o :: o in outs && outs[o].DrmOutput? && outs'[o].DrmOutput? ==> outs'[o] == outs[o].(pipeline := outs'[o].pipeline))
  }

  /** The rollback only sets links of the stashed pipelines and outputs, and returns the pipelines in stash order. */
  lemma RevertFrame(r: Registry, ss: seq<Stashed>)
    ensures var (r', ps) := Revert(r, ss);
            && ps == StashedPipes(ss)
            && r'.pipes.Keys == r.pipes.Keys
            && (forall q :: q in r.pipes ==> r'.pipes[q] == r.pipes[q].(output := r'.pipes[q].output))
            && (forall q :: q in r.pipes && q !in ps ==> r'.pipes[q] == r.pipes[q])
            && r' == r.(pipes := r'.pipes, outs := r'.outs)
  {
    RevertPipesFrame(r, ss);
    RevertKeeps(r, ss);
  }

  /** The rollback sets only the output of the stashed pipelines, which it returns in stash order. */
  lemma {:induction false} RevertPipesFrame(r: Registry, ss: seq<Stashed>)
    ensures var (r', ps) := Revert(r, ss);
            && ps == StashedPipes(ss)
            && r'.pipes.Keys == r.pipes.Keys
            && (forall q :: q in r.pipes ==> r'.pipes[q] == r.pipes[q].(output := r'.pipes[q].output))
            && (forall q :: q in r.pipes && q !in ps ==> r'.pipes[q] == r.pipes[q])
    decreases |ss|
  {
    if ss != [] {
      var r1 := Restore(r, ss[0]);
      RestorePipes(r, ss[0]);
      RevertPipesFrame(r1, ss[1..]);
    }
  }

  /** Which pipeline a stashed output is given back does not depend on the outputs. */
  lemma RestorePipes(r: Registry, s: Stashed)
    ensures Restore(r, s).pipes.Keys == r.pipes.Keys
    ensures forall q :: q in r.pipes ==> Restore(r, s).pipes[q] == r.pipes[q].(output := Restore(r, s).pipes[q].output)
    ensures s.pipeline.None? ==> Restore(r, s).pipes == r.pipes
    ensures s.pipeline.Some? ==> forall q :: q in r.pipes && q != s.pipeline.value ==> Restore(r, s).pipes[q] == r.pipes[q]
  {
  }

  /** The rollback changes nothing but pipelines and outputs. */
  lemma {:induction false} RevertKeeps(r: Registry, ss: seq<Stashed>)
    ensures var r' := Revert(r, ss).0;
            r' == r.(pipes := r'.pipes, outs := r'.outs)
    decreases |ss|
  {
    if ss != [] {
      RevertKeeps(Restore(r, ss[0]), ss[1..]);
    }
  }

  /** The rollback changes no output's kind and nothing of a hardware output but its pipeline. */
  lemma {:induction false} RevertOutsFrame(r: Registry, ss: seq<Stashed>)
    ensures OnlyLinksChange(r.outs, Revert(r, ss).0.outs)
    decreases |ss|
  {
    if ss != [] {
      var r1 := Restore(r, ss[0]);
      RestoreOuts(r, ss[0]);
      RevertOutsFrame(r1, ss[1..]);
      var r' := Revert(r, ss).0;
      assert OnlyLinksChange(r.outs, r1.outs);
      forall o | o in r.outs && r.outs[o].DrmOutput? && r'.outs[o].DrmOutput?
        ensures r'.outs[o] == r.outs[o].(pipeline := r'.outs[o].pipeline)
      {
        assert r'.outs[o] == r1.outs[o].(pipeline := r'.outs[o].pipeline);
      }
    }
  }

  /** Each pipeline the rollback returns is linked back to the output it was stashed with. */
  lemma {:induction false} RevertLinks(r: Registry, ss: seq<Stashed>)
    requires RevertReady(r, ss)
    ensures var (r', ps) := Revert(r, ss);
            && (forall p :: p in ps ==> p in r'.pipes && r'.pipes[p].output.Some? && RestoredFrom(ss, p, r'.pipes[p].output.value))
            && Routable(r', ps)
    decreases |ss|
  {
    if ss != [] {
      assert ss[0] in ss;
      assert forall s :: s in ss[1..] ==> s in ss;
      var r1 := Restore(r, ss[0]);
      if ss[0].pipeline.None? {
        RevertLinks(r1, ss[1..]);
      } else {
        var p := ss[0].pipeline.value;
        RevertLinks(r1, ss[1..]);
        RevertFrame(r1, ss[1..]);
        var (r2, ps) := Revert(r1, ss[1..]);
        forall q | q in [p] + ps
          ensures q in r2.pipes && r2.pipes[q].output.Some? && RestoredFrom(ss, q, r2.pipes[q].output.value)
        {
          if q !in ps {
            assert q == p && r2.pipes[p] == r1.pipes[p];
            assert ss[0].pipeline == Some(p);
          } else {
            var w :| w in ss[1..] && w.pipeline == Some(q) && w.output == r2.pipes[q].output.value;
            assert w in ss;
          }
        }
        forall q | q in [p] + ps
          ensures r2.pipes[q].output.Some? && !r2.pipes[q].nonDesktop ==> r2.pipes[q].output.value !in r2.deleted
        {
          var w :| w in ss && w.pipeline == Some(q) && w.output == r2.pipes[q].output.value;
        }
      }
    }
  }

  /** No output is stashed twice. */
  predicate StashDistinct(ss: seq<Stashed>)
  {
    forall i, j :: 0 <= i < j < |ss| ==> ss[i].output != ss[j].output
  }

  /**
   * The corrected rollback gives every stashed hardware output back
   * exactly the pipeline it was stashed with, or none; outputs that were
   * not stashed keep their state.
   */
  lemma RevertRestores(r: Registry, ss: seq<Stashed>)
    requires RevertReady(r, ss) && StashDistinct(ss)
    ensures var r' := Revert(r, ss).0;
            && r'.outs.Keys == r.outs.Keys
            && (forall i :: 0 <= i < |ss| ==> ss[i].output in r'.outs && r'.outs[ss[i].output].DrmOutput?
                                              && r'.outs[ss[i].output].pipeline == ss[i].pipeline)
            && (forall o :: o in r.outs && (forall i :: 0 <= i < |ss| ==> ss[i].output != o) ==> r'.outs[o] == r.outs[o])
  {
    RevertOutsFrame(r, ss);
    RevertRestoresStashed(r, ss);
    forall o | o in r.outs && (forall i :: 0 <= i < |ss| ==> ss[i].output != o)
      ensures Revert(r, ss).0.outs[o] == r.outs[o]
    {
      RevertLeavesUnstashed(r, ss, o);
    }
  }

  /** An output that is not in the stash keeps its state through the rollback. */
  lemma {:induction false} RevertLeavesUnstashed(r: Registry, ss: seq<Stashed>, o: nat)
    requires o in r.outs && forall s :: s in ss ==> s.output != o
    ensures o in Revert(r, ss).0.outs && Revert(r, ss).0.outs[o] == r.outs[o]
    decreases |ss|
  {
    if ss != [] {
      assert ss[0] in ss;
      assert forall s :: s in ss[1..] ==> s in ss;
      RestoreOuts(r, ss[0]);
      RevertLeavesUnstashed(Restore(r, ss[0]), ss[1..], o);
    }
  }

  /** Every stashed output ends the rollback with the pipeline it was stashed with. */
  lemma {:induction false} RevertRestoresStashed(r: Registry, ss: seq<Stashed>)
    requires RevertReady(r, ss) && StashDistinct(ss)
    ensures var r' := Revert(r, ss).0;
            forall s :: s in ss ==> s.output in r'.outs && r'.outs[s.output].DrmOutput? && r'.outs[s.output].pipeline == s.pipeline
    decreases |ss|
  {
    if ss != [] {
      assert ss[0] in ss;
      assert forall s :: s in ss[1..] ==> s in ss;
      var r1 := Restore(r, ss[0]);
      RestoreOuts(r, ss[0]);
      RevertRestoresStashed(r1, ss[1..]);
      forall s | s in ss[1..] ensures s.output != ss[0].output {
        var j :| 0 <= j < |ss[1..]| && ss[1..][j] == s;
        assert ss[j + 1] == s;
      }
      RevertLeavesUnstashed(r1, ss[1..], ss[0].output);
    }
  }

  /** Pipelines of lease outputs that are not leased, in m_leaseOutputs order. */
  function FreeLeasePipes(r: Registry, ls: seq<nat>): (ps: seq<nat>)
    ensures forall p :: p in ps <==> FreePipeline(r, ls, p)
    decreases |ls|
  {
    if ls == [] then []
    else
      var rest := FreeLeasePipes(r, ls[1..]);
      assert forall l :: l in ls <==> l == ls[0] || l in ls[1..];
      if FreeOut(r, ls[0]) then [r.leaseOuts[ls[0]].pipeline] + rest else rest
  }

  /** Pipelines of tracked lease outputs can always be routed. */
  lemma FreeLeasePipesRoutable(r: Registry)
    requires RegOk(r)
    ensures Routable(r, FreeLeasePipes(r, r.leaseOutputs))
  {
  }

  /** Accepting the new combination destroys every stashed pipeline. */
  function DeleteStashed(r: Registry, ss: seq<Stashed>): (r': Registry)
    ensures r' == r.(deleted := r'.deleted)
    ensures forall k :: k in r'.deleted <==> k in r.deleted || k in StashedPipes(ss)
  {
    r.(deleted := r.deleted + set p | p in StashedPipes(ss))
  }

  // --------------------------------------------- a failed test, as written

  /**
   * A leaf of the search whose test fails, as written: commitCombination
   * creates a candidate per pairing and links it as adoption does (a
   * tracked output on the candidate's connector is pointed at it, another
   * desktop connector gets a transient output); after the failed test the
   * transient outputs are announced disabled and destroyed, and recurse
   * destroys the candidates. The tracked outputs' links are not undone.
   */
  function FailedTestAsWritten(r: Registry, leaf: seq<Hyp>): Registry
  {
    var (r1, ps) := AdoptAll(r, leaf);
    DiscardAll(r1, r.outputs, ps)
  }

  /** One failed candidate: its output, unless tracked, is announced disabled and destroyed, and so is the candidate. */
  function Discard(r: Registry, tracked: seq<nat>, p: nat): Registry
  {
    if p in r.pipes && r.pipes[p].output.Some? && r.pipes[p].output.value !in tracked then
      var o := r.pipes[p].output.value;
      r.(events := r.events + [OutputDisabled(o)], deleted := r.deleted + {o, p})
    else r.(deleted := r.deleted + {p})
  }

  function DiscardAll(r: Registry, tracked: seq<nat>, ps: seq<nat>): Registry
    decreases |ps|
  {
    if ps == [] then r else DiscardAll(Discard(r, tracked, ps[0]), tracked, ps[1..])
  }

  /** Discarding candidates destroys every one of them and leaves the outputs' state alone. */
  lemma {:induction false} DiscardAllEffect(r: Registry, tracked: seq<nat>, ps: seq<nat>)
    ensures var r' := DiscardAll(r, tracked, ps);
            && r'.outs == r.outs && r.deleted <= r'.deleted
            && forall p :: p in ps ==> p in r'.deleted
    decreases |ps|
  {
    if ps != [] {
      DiscardAllEffect(Discard(r, tracked, ps[0]), tracked, ps[1..]);
    }
  }

  /**
   * What adopting one pairing does to the outputs that exist: the output
   * findOutput returns for the pairing's connector is pointed at the new
   * candidate, and every other one keeps its state.
   */
  lemma AdoptStepOuts(r: Registry, h: Hyp)
    requires forall k :: k in r.outs ==> k < r.nextId
    ensures var r' := AdoptStep(r, h).0;
            var f := FindOutputIn(r, h.connector.id);
            && r'.drmOutputs == r.drmOutputs
            && (forall x :: x in r.outs ==> x in r'.outs && r'.outs[x].DrmOutput? == r.outs[x].DrmOutput?)
            && (forall x :: x in r.outs && r.outs[x].DrmOutput? ==> r'.outs[x].connector == r.outs[x].connector)
            && (forall x :: x in r.outs && f != Some(x) ==> r'.outs[x] == r.outs[x])
            && (f.Some? ==> f.value in r'.outs && r'.outs[f.value].DrmOutput? && r'.outs[f.value].pipeline == Some(r.nextId))
  {
  }

  /** findOutput gives the same answer before and after a candidate is adopted. */
  lemma FindOutputAfterAdopt(r: Registry, h: Hyp, c: nat)
    requires RegOk(r)
    ensures FindOutputIn(AdoptStep(r, h).0, c) == FindOutputIn(r, c)
  {
    var r1 := AdoptStep(r, h).0;
    AdoptStepOuts(r, h);
    forall x | x in r.drmOutputs ensures OutputOn(r1.outs, x, c) == OutputOn(r.outs, x, c) {
    }
    FirstOutputFrame(r.drmOutputs, r.outs, r1.outs, c, 0);
  }

  /** FirstOutput depends only on which of the listed outputs drive the connector. */
  lemma {:induction false} FirstOutputFrame(xs: seq<nat>, outs: map<nat, OutputObj>, outs': map<nat, OutputObj>, c: nat, i: nat)
    requires i <= |xs| && forall x :: x in xs ==> OutputOn(outs', x, c) == OutputOn(outs, x, c)
    ensures FirstOutput(xs, outs', c, i) == FirstOutput(xs, outs, c, i)
    decreases |xs| - i
  {
    if i < |xs| {
      assert xs[i] in xs;
      FirstOutputFrame(xs, outs, outs', c, i + 1);
    }
  }

  /** A tracked output that findOutput finds for no pairing keeps its state through adoption. */
  lemma {:induction false} AdoptKeepsUnfound(r: Registry, hs: seq<Hyp>, o: nat)
    requires RegOk(r) && o in r.outs
    requires forall i :: 0 <= i < |hs| ==> FindOutputIn(r, hs[i].connector.id) != Some(o)
    ensures o in AdoptAll(r, hs).0.outs && AdoptAll(r, hs).0.outs[o] == r.outs[o]
    decreases |hs|
  {
    if hs != [] {
      var r1 := AdoptStep(r, hs[0]).0;
      AdoptStepOuts(r, hs[0]);
      AdoptStepOk(r, hs[0]);
      forall i | 0 <= i < |hs[1..]| ensures FindOutputIn(r1, hs[1..][i].connector.id) != Some(o) {
        FindOutputAfterAdopt(r, hs[0], hs[1..][i].connector.id);
        assert hs[1..][i] == hs[i + 1];
      }
      AdoptKeepsUnfound(r1, hs[1..], o);
    }
  }

  /** A tracked output that findOutput finds for some pairing ends up linked to one of the new candidates. */
  lemma {:induction false} AdoptLinksFound(r: Registry, hs: seq<Hyp>, i: nat, o: nat)
    requires RegOk(r) && i < |hs| && FindOutputIn(r, hs[i].connector.id) == Some(o)
    ensures var (r', ps) := AdoptAll(r, hs);
            && o in r'.outs && r'.outs[o].DrmOutput? && r'.outs[o].pipeline.Some?
            && r'.outs[o].pipeline.value in ps
    decreases |hs|
  {
    var (r1, p) := AdoptStep(r, hs[0]);
    AdoptStepOuts(r, hs[0]);
    AdoptStepOk(r, hs[0]);
    var rest := hs[1..];
    var (r2, ps) := AdoptAll(r1, rest);
    assert AdoptAll(r, hs) == (r2, [p] + ps);
    if exists j :: 0 <= j < |rest| && FindOutputIn(r, rest[j].connector.id) == Some(o) {
      var j :| 0 <= j < |rest| && FindOutputIn(r, rest[j].connector.id) == Some(o);
      FindOutputAfterAdopt(r, hs[0], rest[j].connector.id);
      AdoptLinksFound(r1, rest, j, o);
    } else {
      assert i == 0;
      forall j | 0 <= j < |rest| ensures FindOutputIn(r1, rest[j].connector.id) != Some(o) {
        FindOutputAfterAdopt(r, hs[0], rest[j].connector.id);
      }
      AdoptKeepsUnfound(r1, rest, o);
    }
  }

  /**
   * As written, a tracked output on a connector of a failed leaf is left
   * pointing at a destroyed candidate.
   */
  lemma FailedTestDangles(r: Registry, leaf: seq<Hyp>, i: nat, o: nat)
    requires RegOk(r) && i < |leaf| && FindOutputIn(r, leaf[i].connector.id) == Some(o)
    ensures var r' := FailedTestAsWritten(r, leaf);
            o in r'.outs && r'.outs[o].DrmOutput? && r'.outs[o].pipeline.Some? && r'.outs[o].pipeline.value in r'.deleted
  {
    AdoptLinksFound(r, leaf, i, o);
    var (r1, ps) := AdoptAll(r, leaf);
    DiscardAllEffect(r1, r.outputs, ps);
  }

  /** The rollback as written only sets pipelines' links, so it leaves such an output dangling. */
  lemma RollbackAsWrittenDangles(r: Registry, leaf: seq<Hyp>, i: nat, o: nat, ss: seq<Stashed>)
    requires RegOk(r) && i < |leaf| && FindOutputIn(r, leaf[i].connector.id) == Some(o)
    requires RevertAsWritten(FailedTestAsWritten(r, leaf), ss).Some?
    ensures var r' := RevertAsWritten(FailedTestAsWritten(r, leaf), ss).value.0;
            o in r'.outs && r'.outs[o].DrmOutput? && r'.outs[o].pipeline.Some? && r'.outs[o].pipeline.value in r'.deleted
  {
    var rf := FailedTestAsWritten(r, leaf);
    FailedTestDangles(r, leaf, i, o);
    forall k | 0 <= k < |ss| ensures ss[k].pipeline.Some? {
      if ss[k].pipeline.None? {
        RevertAsWrittenFails(rf, ss, k);
      }
    }
    RevertAgrees(rf, ss);
    RevertFrame(rf, ss);
  }

  // --------------------------------------------------------------- routing

  /**
   * One iteration of the routing loop over the configuration. A
   * non-desktop pipeline is handed to the lease output on its connector, or
   * to a new one, and switched off. A pipeline of a tracked output restores
   * that output (switched off if the output is disabled or powered down;
   * a disabled output is announced disabled). A pipeline of a new output
   * makes the output tracked and announced; the flag is set when its cursor
   * could not be initialised.
   */
  function RouteStep(r: Registry, p: nat, cursorOk: nat -> bool): (Registry, bool)
  {
    if p !in r.pipes then (r, false)
    else
      var pipe := r.pipes[p];
      if pipe.nonDesktop then
        var off := r.pipes[p := pipe.(active := false)];
        var l := FindLeaseOutputIn(r, pipe.connector);
        if l.Some? then (r.(leaseOuts := r.leaseOuts[l.value := r.leaseOuts[l.value].(pipeline := p)], pipes := off), false)
        else
          var n := r.nextId;
          (r.(leaseOuts := r.leaseOuts[n := LeaseOutput(p, None)], leaseOutputs := r.leaseOutputs + [n],
              nextId := n + 1, pipes := off), false)
      else if pipe.output.None? then (r, false) // a desktop pipeline always has an output here
      else
        var o := pipe.output.value;
        if o in r.outputs then
          if o in r.outs && r.outs[o].DrmOutput? && r.outs[o].enabled then
            var pipes' := if r.outs[o].dpmsOn then r.pipes else r.pipes[p := pipe.(active := false)];
            (r.(pipes := pipes', events := r.events + [TransformRestored(o)]), false)
          else
            (r.(pipes := r.pipes[p := pipe.(active := false)], events := r.events + [OutputDisabled(o)]), false)
        else
          (r.(outputs := r.outputs + [o], drmOutputs := r.drmOutputs + [o], events := r.events + [OutputAdded(o)]), !cursorOk(o))
  }

  /** The routing loop: the configuration from its last pipeline to its first; the flag is whether any cursor failed. */
  function RouteAll(r: Registry, ps: seq<nat>, cursorOk: nat -> bool): (Registry, bool)
    decreases |ps|
  {
    if ps == [] then (r, false)
    else
      var (r1, f1) := RouteStep(r, ps[|ps| - 1], cursorOk);
      var (r2, f2) := RouteAll(r1, ps[..|ps| - 1], cursorOk);
      (r2, f1 || f2)
  }

  /**
   * What routing leaves alone: pipelines keep everything but their
   * activity, outputs and the destroyed set do not change, and the log and
   * the lists only grow.
   */
  predicate RouteFrame(r: Registry, r': Registry)
  {
    && r'.pipes.Keys == r.pipes.Keys
    && (forall q :: q in r.pipes ==> r'.pipes[q] == r.pipes[q].(active := r'.pipes[q].active))
    && (forall q :: q in r.pipes && !r.pipes[q].active ==> !r'.pipes[q].active)
    && r'.outs == r.outs && r'.deleted == r.deleted && r'.pipelines == r.pipelines
    && (forall o :: o in r.outputs ==> o in r'.outputs)
    && (forall o :: o in r.drmOutputs ==> o in r'.drmOutputs)
    && |r'.events| >= |r.events| && r'.events[..|r.events|] == r.events
  }

  /** Switching a pipeline off and logging an event keeps the registry consistent. */
  lemma DeactivateOk(r: Registry, p: nat, es: seq<GpuEvent>)
    requires RegOk(r) && p in r.pipes
    ensures RegOk(r.(pipes := r.pipes[p := r.pipes[p].(active := false)], events := r.events + es))
  {
  }

  /** Handing a non-desktop pipeline to a tracked lease output keeps the registry consistent. */
  lemma HandToLeaseOk(r: Registry, p: nat, l: nat)
    requires RegOk(r) && p in r.pipes && r.pipes[p].nonDesktop && l in r.leaseOutputs
    ensures RegOk(r.(leaseOuts := r.leaseOuts[l := r.leaseOuts[l].(pipeline := p)],
                     pipes := r.pipes[p := r.pipes[p].(active := false)]))
  {
  }

  /** A new lease output for a non-desktop pipeline keeps the registry consistent. */
  lemma NewLeaseOk(r: Registry, p: nat)
    requires RegOk(r) && p in r.pipes && r.pipes[p].nonDesktop
    ensures var n := r.nextId;
            RegOk(r.(leaseOuts := r.leaseOuts[n := LeaseOutput(p, None)], leaseOutputs := r.leaseOutputs + [n],
                     nextId := n + 1, pipes := r.pipes[p := r.pipes[p].(active := false)]))
  {
    var n := r.nextId;
    var r2 := r.(leaseOuts := r.leaseOuts[n := LeaseOutput(p, None)], leaseOutputs := r.leaseOutputs + [n],
                 nextId := n + 1, pipes := r.pipes[p := r.pipes[p].(active := false)]);
    NewLeaseLists(r, p, r2);
    NewLeaseArena(r, p, r2);
  }

  lemma NewLeaseLists(r: Registry, p: nat, r2: Registry)
    requires RegOk(r) && p in r.pipes && r.pipes[p].nonDesktop
    requires r2 == r.(leaseOuts := r.leaseOuts[r.nextId := LeaseOutput(p, None)], leaseOutputs := r.leaseOutputs + [r.nextId],
                      nextId := r.nextId + 1, pipes := r.pipes[p := r.pipes[p].(active := false)])
    ensures ListsOk(r2)
  {
    assert r.nextId !in r.leaseOutputs && r.nextId !in r.deleted;
  }

  lemma NewLeaseArena(r: Registry, p: nat, r2: Registry)
    requires RegOk(r) && p in r.pipes && r.pipes[p].nonDesktop
    requires r2 == r.(leaseOuts := r.leaseOuts[r.nextId := LeaseOutput(p, None)], leaseOutputs := r.leaseOutputs + [r.nextId],
                      nextId := r.nextId + 1, pipes := r.pipes[p := r.pipes[p].(active := false)])
    ensures ArenaOk(r2)
  {
    assert r.nextId !in r.pipes && r.nextId !in r.outs;
  }

  /** Tracking a live hardware output keeps the registry consistent. */
  lemma TrackOk(r: Registry, o: nat, e: GpuEvent)
    requires RegOk(r) && o in r.outs && r.outs[o].DrmOutput? && o !in r.deleted && o !in r.outputs
    ensures RegOk(r.(outputs := r.outputs + [o], drmOutputs := r.drmOutputs + [o], events := r.events + [e]))
  {
    assert o !in r.drmOutputs;
  }

  lemma RouteStepOk(r: Registry, p: nat, cursorOk: nat -> bool)
    requires RegOk(r) && Routable(r, [p])
    ensures RegOk(RouteStep(r, p, cursorOk).0)
  {
    var pipe := r.pipes[p];
    if pipe.nonDesktop {
      var l := FindLeaseOutputIn(r, pipe.connector);
      if l.Some? {
        HandToLeaseOk(r, p, l.value);
      } else {
        NewLeaseOk(r, p);
      }
    } else if pipe.output.Some? {
      var o := pipe.output.value;
      if o in r.outputs {
        if r.outs[o].enabled {
          if !r.outs[o].dpmsOn {
            DeactivateOk(r, p, [TransformRestored(o)]);
          } else {
            LogOk(r, r.events + [TransformRestored(o)]);
          }
        } else {
          DeactivateOk(r, p, [OutputDisabled(o)]);
        }
      } else {
        TrackOk(r, o, OutputAdded(o));
      }
    }
  }

  lemma RouteStepFrame(r: Registry, p: nat, cursorOk: nat -> bool)
    ensures RouteFrame(r, RouteStep(r, p, cursorOk).0)
  {
    var r' := RouteStep(r, p, cursorOk).0;
    if p in r.pipes {
      var pipe := r.pipes[p];
      if pipe.nonDesktop {
        RouteFrameOff(r, r', p);
      } else if pipe.output.Some? {
        var o := pipe.output.value;
        if o in r.outputs {
          RouteFrameOff(r, r', p);
        } else {
          assert r'.pipes == r.pipes;
          RouteFrameOff(r, r', p);
        }
      }
    }
  }

  /** A step that at most switches p off, and otherwise only grows the lists and the log, stays in the frame. */
  lemma RouteFrameOff(r: Registry, r': Registry, p: nat)
    requires p in r.pipes
    requires r'.pipes == r.pipes || r'.pipes == r.pipes[p := r.pipes[p].(active := false)]
    requires r'.outs == r.outs && r'.deleted == r.deleted && r'.pipelines == r.pipelines
    requires forall o :: o in r.outputs ==> o in r'.outputs
    requires forall o :: o in r.drmOutputs ==> o in r'.drmOutputs
    requires |r'.events| >= |r.events| && r'.events[..|r.events|] == r.events
    ensures RouteFrame(r, r')
  {
  }



  /** Some tracked lease output drives pipeline p. */
  ghost predicate LeasedTo(r: Registry, p: nat)
  {
    exists l :: l in r.leaseOutputs && l in r.leaseOuts && r.leaseOuts[l].pipeline == p
  }

  /**
   * One routing step: a non-desktop pipeline ends switched off and held by
   * a tracked lease output; a desktop pipeline's output ends tracked; a
   * tracked output that is disabled switches its pipeline off and is
   * announced disabled, an enabled one has its transform restored and
   * keeps its pipeline on exactly when it is powered on; a new output is
   * announced added and raises the flag exactly when its cursor failed.
   */
  lemma RouteStepEffect(r: Registry, p: nat, cursorOk: nat -> bool)
    requires RegOk(r) && Routable(r, [p])
    ensures var (r', forced) := RouteStep(r, p, cursorOk);
            var pipe := r.pipes[p];
            && (pipe.nonDesktop ==> !r'.pipes[p].active && LeasedTo(r', p) && !forced && r'.events == r.events)
            && (!pipe.nonDesktop && pipe.output.Some? ==> pipe.output.value in r'.outputs)
            && (!pipe.nonDesktop && pipe.output.Some? && pipe.output.value in r.outputs ==>
                  && !forced
                  && (r.outs[pipe.output.value].enabled ==>
                        r'.pipes[p].active == (pipe.active && r.outs[pipe.output.value].dpmsOn)
                        && r'.events == r.events + [TransformRestored(pipe.output.value)])
                  && (!r.outs[pipe.output.value].enabled ==>
                        !r'.pipes[p].active && r'.events == r.events + [OutputDisabled(pipe.output.value)]))
            && (!pipe.nonDesktop && pipe.output.Some? && pipe.output.value !in r.outputs ==>
                  && forced == !cursorOk(pipe.output.value)
                  && pipe.output.value in r'.drmOutputs
                  && r'.events == r.events + [OutputAdded(pipe.output.value)])
  {
    var pipe := r.pipes[p];
    if pipe.nonDesktop {
      var l := FindLeaseOutputIn(r, pipe.connector);
      var r' := RouteStep(r, p, cursorOk).0;
      if l.Some? {
        assert l.value in r'.leaseOutputs && r'.leaseOuts[l.value].pipeline == p;
      } else {
        assert r.nextId in r'.leaseOutputs && r'.leaseOuts[r.nextId].pipeline == p;
      }
    }
  }

  lemma RouteFrameTrans(r: Registry, r1: Registry, r2: Registry)
    requires RouteFrame(r, r1) && RouteFrame(r1, r2)
    ensures RouteFrame(r, r2)
  {
    assert r2.events[..|r.events|] == r2.events[..|r1.events|][..|r.events|];
  }

  lemma RouteFrameRoutable(r: Registry, r1: Registry, ps: seq<nat>)
    requires RouteFrame(r, r1) && Routable(r, ps)
    ensures Routable(r1, ps)
  {
  }

  /** Routing only switches pipelines off, tracks outputs and logs. */
  lemma {:induction false} RouteAllFrame(r: Registry, ps: seq<nat>, cursorOk: nat -> bool)
    ensures RouteFrame(r, RouteAll(r, ps, cursorOk).0)
    decreases |ps|
  {
    if ps != [] {
      var last := ps[|ps| - 1];
      RouteStepFrame(r, last, cursorOk);
      var r1 := RouteStep(r, last, cursorOk).0;
      RouteAllFrame(r1, ps[..|ps| - 1], cursorOk);
      RouteFrameTrans(r, r1, RouteAll(r1, ps[..|ps| - 1], cursorOk).0);
    }
  }

  /** Routing keeps the registry consistent. */
  lemma {:induction false} RouteAllOk(r: Registry, ps: seq<nat>, cursorOk: nat -> bool)
    requires RegOk(r) && Routable(r, ps)
    ensures RegOk(RouteAll(r, ps, cursorOk).0)
    decreases |ps|
  {
    if ps != [] {
      var last := ps[|ps| - 1];
      var init := ps[..|ps| - 1];
      assert last in ps;
      RouteStepOk(r, last, cursorOk);
      RouteStepFrame(r, last, cursorOk);
      var r1 := RouteStep(r, last, cursorOk).0;
      assert forall q :: q in init ==> q in ps;
      RouteFrameRoutable(r, r1, init);
      RouteAllOk(r1, init, cursorOk);
    }
  }

  /**
   * How pipeline p of r ended up in r': a non-desktop one is switched off,
   * a desktop one's output is tracked, and one whose output was tracked
   * but disabled is switched off.
   */
  predicate RoutedAs(r: Registry, r': Registry, p: nat)
  {
    p in r.pipes && p in r'.pipes &&
    var pipe := r.pipes[p];
    && (pipe.nonDesktop ==> !r'.pipes[p].active)
    && (!pipe.nonDesktop && pipe.output.Some? ==> pipe.output.value in r'.outputs)
    && ((!pipe.nonDesktop && pipe.output.Some? && pipe.output.value in r.outputs && pipe.output.value in r.outs
         && r.outs[pipe.output.value].DrmOutput? && !r.outs[pipe.output.value].enabled) ==> !r'.pipes[p].active)
  }

  lemma RouteStepRouted(r: Registry, p: nat, cursorOk: nat -> bool)
    requires p in r.pipes
    ensures RoutedAs(r, RouteStep(r, p, cursorOk).0, p)
  {
  }

  lemma RoutedAsLater(r: Registry, r1: Registry, r2: Registry, p: nat)
    requires RoutedAs(r, r1, p) && RouteFrame(r1, r2)
    ensures RoutedAs(r, r2, p)
  {
  }

  lemma RoutedAsEarlier(r: Registry, r1: Registry, r2: Registry, p: nat)
    requires RouteFrame(r, r1) && RoutedAs(r1, r2, p)
    ensures RoutedAs(r, r2, p)
  {
  }

  /**
   * After routing, every non-desktop pipeline of the configuration is
   * switched off, every desktop pipeline's output is tracked, and every
   * pipeline of an output that was tracked but disabled is switched off.
   */
  lemma {:induction false} RouteAllEffect(r: Registry, ps: seq<nat>, cursorOk: nat -> bool)
    requires forall p :: p in ps ==> p in r.pipes
    ensures forall p :: p in ps ==> RoutedAs(r, RouteAll(r, ps, cursorOk).0, p)
    decreases |ps|
  {
    if ps != [] {
      var last := ps[|ps| - 1];
      var init := ps[..|ps| - 1];
      var r1 := RouteStep(r, last, cursorOk).0;
      var r2 := RouteAll(r1, init, cursorOk).0;
      assert forall q :: q in init ==> q in r1.pipes by {
        assert forall q :: q in init ==> q in ps;
        RouteStepFrame(r, last, cursorOk);
      }
      RouteAllEffect(r1, init, cursorOk);
      assert forall q :: q == last || q in init ==> RoutedAs(r, r2, q) by {
        assert last in ps;
        RouteStepRouted(r, last, cursorOk);
        RouteStepFrame(r, last, cursorOk);
        RouteAllFrame(r1, init, cursorOk);
        RoutedAsCompose(r, r1, r2, last, init);
      }
      assert RouteAll(r, ps, cursorOk).0 == r2;
      assert forall q :: q in ps ==> q == last || q in init;
    }
  }

  /** The routing of the last pipeline survives the rest, and the rest's is unaffected by it. */
  lemma RoutedAsCompose(r: Registry, r1: Registry, r2: Registry, last: nat, init: seq<nat>)
    requires RoutedAs(r, r1, last) && RouteFrame(r, r1) && RouteFrame(r1, r2)
    requires forall q :: q in init ==> RoutedAs(r1, r2, q)
    ensures forall q :: q == last || q in init ==> RoutedAs(r, r2, q)
  {
    RoutedAsLater(r, r1, r2, last);
    forall q | q in init ensures RoutedAs(r, r2, q) {
      RoutedAsEarlier(r, r1, r2, q);
    }
  }
}
