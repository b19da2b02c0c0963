// The objects a DrmGpu owns (pipelines, outputs, lease outputs), the lists
// it keeps them in (m_pipelines, m_outputs, m_drmOutputs, m_leaseOutputs)
// and the signals it has emitted, as one value. The operations of
// drm_gpu.cpp that add, find and drop these objects are specified here as
// functions on that value; the class DrmGpu.Gpu is proved against them.
module DrmRegistry {
  import opened Common
  import opened DrmObjects

  /**
   * pipes, outs and leaseOuts map every object id ever allocated to the
   * object's current state (an arena that never shrinks); the lists say
   * which objects the GPU tracks; deleted holds the ids of destroyed
   * objects; events is the log of emitted signals.
   */
  datatype Registry = Registry(
    pipes: map<nat, Pipeline>, pipelines: seq<nat>,
    outs: map<nat, OutputObj>, outputs: seq<nat>, drmOutputs: seq<nat>,
    leaseOuts: map<nat, LeaseOutput>, leaseOutputs: seq<nat>,
    nextId: nat, deleted: set<nat>, events: seq<GpuEvent>)

  /** What holds between the lists and the arenas at every public entry point. */
  predicate RegOk(r: Registry)
  {
    ListsOk(r) && ArenaOk(r)
  }

  /** The lists hold no duplicates and refer to live objects of the right kind. */
  predicate ListsOk(r: Registry)
  {
    && NoDup(r.outputs) && NoDup(r.drmOutputs) && NoDup(r.leaseOutputs) && NoDup(r.pipelines)
    && (forall o :: o in r.outputs ==> o in r.outs && o !in r.deleted)
    && (forall o :: o in r.drmOutputs ==> o in r.outputs && r.outs[o].DrmOutput?)
    && (forall l :: l in r.leaseOutputs ==> l in r.leaseOuts && r.leaseOuts[l].pipeline in r.pipes && l !in r.deleted)
    && (forall l :: l in r.leaseOutputs ==> r.leaseOuts[l].pipeline in r.pipes && r.pipes[r.leaseOuts[l].pipeline].nonDesktop)
    && (forall p :: p in r.pipelines ==> p in r.pipes && p !in r.deleted)
  }

  /** Every allocated id is below the next one, no id names two objects, and links point at objects of the right kind. */
  predicate ArenaOk(r: Registry)
  {
    && (forall k :: k in r.pipes ==> k < r.nextId)
    && (forall k :: k in r.outs ==> k < r.nextId)
    && (forall k :: k in r.leaseOuts ==> k < r.nextId)
    && (forall k :: k in r.deleted ==> k < r.nextId)
    && (forall k :: k in r.pipes ==> k !in r.outs && k !in r.leaseOuts)
    && (forall k :: k in r.outs ==> k !in r.leaseOuts)
    && (forall k :: k in r.outs && r.outs[k].DrmOutput? && r.outs[k].pipeline.Some? ==> r.outs[k].pipeline.value in r.pipes)
    && (forall p :: p in r.pipes && r.pipes[p].output.Some? ==> r.pipes[p].output.value in r.outs && r.outs[r.pipes[p].output.value].DrmOutput?)
  }

  /** o is a hardware output driving this connector. */
  predicate OutputOn(outs: map<nat, OutputObj>, o: nat, connector: nat)
  {
    o in outs && outs[o].DrmOutput? && outs[o].connector == connector
  }

  /** l is a lease output whose pipeline drives this connector. */
  predicate LeaseOn(leaseOuts: map<nat, LeaseOutput>, pipes: map<nat, Pipeline>, l: nat, connector: nat)
  {
    l in leaseOuts && leaseOuts[l].pipeline in pipes && pipes[leaseOuts[l].pipeline].connector == connector
  }

  /** findOutput: the first member of m_drmOutputs on this connector. */
  function FindOutputIn(r: Registry, connector: nat): (o: Option<nat>)
    ensures o.Some? ==> (exists k :: 0 <= k < |r.drmOutputs| && r.drmOutputs[k] == o.value && OutputOn(r.outs, o.value, connector)
                              && forall j :: 0 <= j < k ==> !OutputOn(r.outs, r.drmOutputs[j], connector))
    ensures o.Some? ==> o.value in r.drmOutputs && OutputOn(r.outs, o.value, connector)
    ensures o.None? <==> forall x :: x in r.drmOutputs ==> !OutputOn(r.outs, x, connector)
  {
    FirstOutput(r.drmOutputs, r.outs, connector, 0)
  }

  function FirstOutput(xs: seq<nat>, outs: map<nat, OutputObj>, connector: nat, i: nat): (o: Option<nat>)
    requires i <= |xs|
    ensures o.Some? ==> o.value in xs && OutputOn(outs, o.value, connector)
    ensures o.Some? ==> (exists k :: i <= k < |xs| && xs[k] == o.value && OutputOn(outs, o.value, connector)
                              && forall j :: i <= j < k ==> !OutputOn(outs, xs[j], connector))
    ensures o.None? <==> forall k :: i <= k < |xs| ==> !OutputOn(outs, xs[k], connector)
    decreases |xs| - i
  {
    if i == |xs| then None
    else if OutputOn(outs, xs[i], connector) then Some(xs[i])
    else FirstOutput(xs, outs, connector, i + 1)
  }

  /** findLeaseOutput: the first member of m_leaseOutputs whose pipeline drives this connector. */
  function FindLeaseOutputIn(r: Registry, connector: nat): (l: Option<nat>)
    ensures l.Some? ==> (exists k :: 0 <= k < |r.leaseOutputs| && r.leaseOutputs[k] == l.value && LeaseOn(r.leaseOuts, r.pipes, l.value, connector)
                              && forall j :: 0 <= j < k ==> !LeaseOn(r.leaseOuts, r.pipes, r.leaseOutputs[j], connector))
    ensures l.None? <==> forall x :: x in r.leaseOutputs ==> !LeaseOn(r.leaseOuts, r.pipes, x, connector)
  {
    FirstLease(r.leaseOutputs, r.leaseOuts, r.pipes, connector, 0)
  }

  function FirstLease(xs: seq<nat>, leaseOuts: map<nat, LeaseOutput>, pipes: map<nat, Pipeline>, connector: nat, i: nat): (l: Option<nat>)
    requires i <= |xs|
    ensures l.Some? ==> (exists k :: i <= k < |xs| && xs[k] == l.value && LeaseOn(leaseOuts, pipes, l.value, connector)
                              && forall j :: i <= j < k ==> !LeaseOn(leaseOuts, pipes, xs[j], connector))
    ensures l.None? <==> forall k :: i <= k < |xs| ==> !LeaseOn(leaseOuts, pipes, xs[k], connector)
    decreases |xs| - i
  {
    if i == |xs| then None
    else if LeaseOn(leaseOuts, pipes, xs[i], connector) then Some(xs[i])
    else FirstLease(xs, leaseOuts, pipes, connector, i + 1)
  }

  /** removeOutput: drop the output and its pipeline from every list and destroy both. */
  function RemoveOutputSpec(r: Registry, o: nat): Registry
    requires o in r.outs && r.outs[o].DrmOutput?
  {
    var p := r.outs[o].pipeline;
    r.(drmOutputs := RemoveOne(r.drmOutputs, o),
       outputs := RemoveOne(r.outputs, o),
       events := r.events + [OutputRemoved(o)],
       pipelines := if p.Some? then RemoveOne(r.pipelines, p.value) else r.pipelines,
       deleted := r.deleted + {o} + (if p.Some? then {p.value} else {}))
  }

  /**
   * Removing an output keeps the registry consistent, untracks exactly that
   * output and its pipeline, and emits outputRemoved once.
   */
  lemma RemoveOutputEffect(r: Registry, o: nat)
    requires RegOk(r) && o in r.drmOutputs
    ensures var r' := RemoveOutputSpec(r, o);
            && RegOk(r')
            && o !in r'.outputs && o !in r'.drmOutputs && o in r'.deleted
            && (r.outs[o].pipeline.Some? ==> r.outs[o].pipeline.value !in r'.pipelines)
            && (forall x :: x in r.outputs && x != o <==> x in r'.outputs)
            && (forall x :: x in r.drmOutputs && x != o <==> x in r'.drmOutputs)
            && r'.events == r.events + [OutputRemoved(o)]
  {
    var p := r.outs[o].pipeline;
    RemoveOutputOk(r, o);
    RemoveOneGone(r.outputs, o);
    RemoveOneGone(r.drmOutputs, o);
    RemoveOneMultiset(r.outputs, o);
    RemoveOneMultiset(r.drmOutputs, o);
    SubsetOfRemoveOne(r.outputs, o);
    SubsetOfRemoveOne(r.drmOutputs, o);
    if p.Some? {
      RemoveOneGone(r.pipelines, p.value);
    }
  }

  lemma RemoveOutputOk(r: Registry, o: nat)
    requires RegOk(r) && o in r.drmOutputs
    ensures RegOk(RemoveOutputSpec(r, o))
  {
    RemoveOutputUntracks(r, o);
    UntrackOk(r, RemoveOutputSpec(r, o));
  }

  /** The lists removeOutput leaves behind are parts of the old ones and hold nothing destroyed. */
  lemma RemoveOutputUntracks(r: Registry, o: nat)
    requires o in r.outs && r.outs[o].DrmOutput?
    requires NoDup(r.outputs) && NoDup(r.drmOutputs) && NoDup(r.pipelines)
    requires forall x :: x in r.outputs ==> x in r.outs && x !in r.deleted
    requires forall x :: x in r.drmOutputs ==> x in r.outputs
    requires forall x :: x in r.pipelines ==> x in r.pipes && x !in r.deleted
    requires forall k :: k in r.pipes ==> k !in r.outs
    requires r.outs[o].pipeline.Some? ==> r.outs[o].pipeline.value in r.pipes
    ensures var r' := RemoveOutputSpec(r, o);
            && NoDup(r'.outputs) && NoDup(r'.drmOutputs) && NoDup(r'.pipelines)
            && (forall x :: x in r'.outputs ==> x in r.outputs && x !in r'.deleted)
            && (forall x :: x in r'.drmOutputs ==> x in r.drmOutputs && x in r'.outputs)
            && (forall x :: x in r'.pipelines ==> x in r.pipelines && x !in r'.deleted)
  {
    var r' := RemoveOutputSpec(r, o);
    var p := r.outs[o].pipeline;
    RemoveOneGone(r.outputs, o);
    RemoveOneGone(r.drmOutputs, o);
    if p.Some? {
      RemoveOneGone(r.pipelines, p.value);
    }
    assert forall x :: x in r'.outputs ==> x in r.outputs && x !in r'.deleted by {
      SubsetOfRemoveOne(r.outputs, o);
    }
    forall x | x in r'.drmOutputs ensures x in r.drmOutputs && x in r'.outputs {
      SubsetOfRemoveOne(r.drmOutputs, o);
      assert x != o && x in r.outputs;
    }
    assert forall x :: x in r'.pipelines ==> x in r.pipelines && x !in r'.deleted by {
      if p.Some? { SubsetOfRemoveOne(r.pipelines, p.value); }
    }
  }


  /**
   * Dropping objects from the lists keeps the registry consistent as long
   * as the lists stay duplicate-free and no tracked object is destroyed.
   */
  lemma UntrackOk(r: Registry, r': Registry)
    requires RegOk(r)
    requires r'.pipes == r.pipes && r'.outs == r.outs && r'.leaseOuts == r.leaseOuts && r'.nextId == r.nextId
    requires NoDup(r'.outputs) && NoDup(r'.drmOutputs) && NoDup(r'.leaseOutputs) && NoDup(r'.pipelines)
    requires forall x :: x in r'.outputs ==> x in r.outputs && x !in r'.deleted
    requires forall x :: x in r'.drmOutputs ==> x in r.drmOutputs && x in r'.outputs
    requires forall x :: x in r'.leaseOutputs ==> x in r.leaseOutputs && x !in r'.deleted
    requires forall x :: x in r'.pipelines ==> x in r.pipelines && x !in r'.deleted
    requires forall k :: k in r'.deleted ==> k < r.nextId
    ensures RegOk(r')
  {
  }



  /** Every element of RemoveOne(s, x) is an element of s. */
  lemma SubsetOfRemoveOne<T>(s: seq<T>, x: T)
    ensures forall y :: y in RemoveOne(s, x) ==> y in s
  {
    RemoveOneMultiset(s, x);
    forall y | y in RemoveOne(s, x) ensures y in s {
      assert y in multiset(RemoveOne(s, x));
    }
  }

  /** removeLeaseOutput: drop the lease output and its pipeline and destroy both. */
  function RemoveLeaseOutputSpec(r: Registry, l: nat): Registry
    requires l in r.leaseOuts
  {
    var p := r.leaseOuts[l].pipeline;
    r.(leaseOutputs := RemoveOne(r.leaseOutputs, l),
       pipelines := RemoveOne(r.pipelines, p),
       deleted := r.deleted + {l, p})
  }

  lemma RemoveLeaseOutputEffect(r: Registry, l: nat)
    requires RegOk(r) && l in r.leaseOutputs
    ensures var r' := RemoveLeaseOutputSpec(r, l);
            && RegOk(r')
            && l !in r'.leaseOutputs && r.leaseOuts[l].pipeline !in r'.pipelines
            && (forall x :: x in r.leaseOutputs && x != l <==> x in r'.leaseOutputs)
            && r'.outputs == r.outputs && r'.events == r.events
  {
    var p := r.leaseOuts[l].pipeline;
    RemoveOneGone(r.leaseOutputs, l);
    RemoveOneGone(r.pipelines, p);
    SubsetOfRemoveOne(r.leaseOutputs, l);
    RemoveLeaseOutputOk(r, l);
  }

  lemma RemoveLeaseOutputOk(r: Registry, l: nat)
    requires RegOk(r) && l in r.leaseOutputs
    ensures RegOk(RemoveLeaseOutputSpec(r, l))
  {
    var r' := RemoveLeaseOutputSpec(r, l);
    var p := r.leaseOuts[l].pipeline;
    RemoveOneGone(r.leaseOutputs, l);
    RemoveOneGone(r.pipelines, p);
    SubsetOfRemoveOne(r.leaseOutputs, l);
    SubsetOfRemoveOne(r.pipelines, p);
    UntrackOk(r, r');
  }


  /** createVirtualOutput: a new output appended to m_outputs, announced enabled then added. */
  function CreateVirtualOutputSpec(r: Registry, name: string, scale: real, placeholder: bool): Registry
  {
    var id := r.nextId;
    r.(outs := r.outs[id := VirtualOutput(name, scale, placeholder)],
       outputs := r.outputs + [id],
       nextId := id + 1,
       events := r.events + [OutputEnabled(id), OutputAdded(id)])
  }

  lemma CreateVirtualOutputEffect(r: Registry, name: string, scale: real, placeholder: bool)
    requires RegOk(r)
    ensures var r' := CreateVirtualOutputSpec(r, name, scale, placeholder);
            && RegOk(r')
            && r.nextId !in r.outputs && r.nextId in r'.outputs
            && r'.outs[r.nextId] == VirtualOutput(name, scale, placeholder)
            && r'.drmOutputs == r.drmOutputs
  {
    var r' := CreateVirtualOutputSpec(r, name, scale, placeholder);
    assert r.nextId !in r.outputs;
    assert NoDup(r'.outputs);
  }

  /** removeVirtualOutput: if the output is tracked, untrack it, emit outputRemoved and destroy it. */
  function RemoveVirtualOutputSpec(r: Registry, o: nat): Registry
  {
    if o in r.outputs then
      r.(outputs := RemoveOne(r.outputs, o), events := r.events + [OutputRemoved(o)], deleted := r.deleted + {o})
    else r
  }

  lemma RemoveVirtualOutputEffect(r: Registry, o: nat)
    requires RegOk(r) && (o in r.outs ==> r.outs[o].VirtualOutput?)
    ensures var r' := RemoveVirtualOutputSpec(r, o);
            && RegOk(r')
            && o !in r'.outputs
            && (OutputRemoved(o) in r'.events[|r.events|..] <==> o in r.outputs)
            && r'.drmOutputs == r.drmOutputs
  {
    if o in r.outputs {
      RemoveOneGone(r.outputs, o);
      SubsetOfRemoveOne(r.outputs, o);
      var r' := RemoveVirtualOutputSpec(r, o);
      assert r'.events[|r.events|..] == [OutputRemoved(o)];
    }
  }

  /** A lease output that a lease request may claim: tracked and not leased. */
  predicate Leasable(r: Registry, l: nat)
  {
    l in r.leaseOutputs && l in r.leaseOuts && r.leaseOuts[l].lease.None?
  }

  /** The lease outputs handleLeaseRequest collects, in request order. */
  function Collected(r: Registry, conns: seq<nat>): (c: seq<nat>)
    ensures forall l :: l in c <==> l in conns && Leasable(r, l)
    decreases |conns|
  {
    if conns == [] then []
    else
      var last := conns[|conns| - 1];
      assert forall l :: l in conns <==> l in conns[..|conns| - 1] || l == last;
      Collected(r, conns[..|conns| - 1]) + (if Leasable(r, last) then [last] else [])
  }

  /** Mark each of these lease outputs as leased under this lease. */
  function MarkLeased(leaseOuts: map<nat, LeaseOutput>, ls: seq<nat>, lease: Lease): (m: map<nat, LeaseOutput>)
    ensures m.Keys == leaseOuts.Keys
    ensures forall l :: l in m ==> m[l] == if l in ls then leaseOuts[l].(lease := Some(lease)) else leaseOuts[l]
  {
    if ls == [] then leaseOuts
    else
      var m := MarkLeased(leaseOuts, ls[1..], lease);
      if ls[0] in m then m[ls[0] := leaseOuts[ls[0]].(lease := Some(lease))] else m
  }

  /**
   * handleLeaseRequest once drmModeCreateLease has answered with (fd,
   * lessee): a negative fd denies the request; otherwise the request is
   * granted and every collected output is marked leased.
   */
  function LeaseRequestSpec(r: Registry, request: nat, conns: seq<nat>, fd: int, lessee: nat): Registry
  {
    if fd < 0 then r.(events := r.events + [LeaseRequestDenied(request)])
    else
      r.(events := r.events + [LeaseRequestGranted(request, fd, lessee)],
         leaseOuts := MarkLeased(r.leaseOuts, Collected(r, conns), Lease(request, lessee)))
  }

  /** Changing only the leases of the lease outputs, and logging, keeps the registry consistent. */
  lemma RelabelLeasesOk(r: Registry, m: map<nat, LeaseOutput>, es: seq<GpuEvent>)
    requires RegOk(r)
    requires m.Keys == r.leaseOuts.Keys
    requires forall l :: l in m ==> m[l].pipeline == r.leaseOuts[l].pipeline
    ensures RegOk(r.(leaseOuts := m, events := r.events + es))
  {
  }

  /**
   * The outcome of a lease request: granted exactly when the fd is
   * non-negative; then precisely the requested, tracked, unleased outputs
   * carry the new lease, and outputs already leased keep their lease
   * without the request being denied for it.
   */
  lemma LeaseRequestOutcome(r: Registry, request: nat, conns: seq<nat>, fd: int, lessee: nat)
    requires RegOk(r)
    ensures var r' := LeaseRequestSpec(r, request, conns, fd, lessee);
            && RegOk(r')
            && r'.leaseOutputs == r.leaseOutputs
            && (fd < 0 <==> r'.events == r.events + [LeaseRequestDenied(request)])
            && (fd >= 0 <==> r'.events == r.events + [LeaseRequestGranted(request, fd, lessee)])
            && (fd < 0 ==> r'.leaseOuts == r.leaseOuts)
            && (fd >= 0 ==> forall l :: l in r.leaseOuts ==>
                  r'.leaseOuts[l].lease == if l in conns && Leasable(r, l) then Some(Lease(request, lessee)) else r.leaseOuts[l].lease)
  {
    var r' := LeaseRequestSpec(r, request, conns, fd, lessee);
    if fd < 0 {
      assert r'.events[|r.events|] == LeaseRequestDenied(request);
    } else {
      assert r'.events[|r.events|] == LeaseRequestGranted(request, fd, lessee);
      var m := MarkLeased(r.leaseOuts, Collected(r, conns), Lease(request, lessee));
      RelabelLeasesOk(r, m, [LeaseRequestGranted(request, fd, lessee)]);
    }
  }

  /** End the lease of every requested output that is tracked, in order, logging each. */
  function EndLeases(r: Registry, conns: seq<nat>): (r': Registry)
    decreases |conns|
    ensures r'.leaseOuts.Keys == r.leaseOuts.Keys && r'.leaseOutputs == r.leaseOutputs && r'.pipes == r.pipes
    ensures r'.outputs == r.outputs && r'.drmOutputs == r.drmOutputs && r'.pipelines == r.pipelines
    ensures r'.nextId == r.nextId && r'.deleted == r.deleted && r'.outs == r.outs
    ensures forall l :: l in r.leaseOuts ==> r'.leaseOuts[l].pipeline == r.leaseOuts[l].pipeline
  {
    if conns == [] then r
    else
      var l := conns[0];
      var r1 := if l in r.leaseOutputs && l in r.leaseOuts
                then r.(leaseOuts := r.leaseOuts[l := r.leaseOuts[l].(lease := None)], events := r.events + [LeaseEnded(l)])
                else r;
      EndLeases(r1, conns[1..])
  }

  /** handleLeaseRevoked: end the lease on the known outputs, then revoke the lessee. */
  function LeaseRevokedSpec(r: Registry, conns: seq<nat>, lessee: nat): Registry
  {
    var r' := EndLeases(r, conns);
    r'.(events := r'.events + [LesseeRevoked(lessee)])
  }

  /**
   * After a revocation every requested tracked output is free, every
   * other lease output is as before, and the lessee is revoked last.
   */
  lemma LeaseRevokedOutcome(r: Registry, conns: seq<nat>, lessee: nat)
    requires RegOk(r)
    ensures var r' := LeaseRevokedSpec(r, conns, lessee);
            && RegOk(r')
            && (forall l :: l in conns && l in r.leaseOutputs ==> r'.leaseOuts[l].lease.None?)
            && (forall l :: l in r.leaseOuts && !(l in conns && l in r.leaseOutputs) ==> r'.leaseOuts[l] == r.leaseOuts[l])
            && r'.events[|r'.events| - 1] == LesseeRevoked(lessee)
  {
    EndLeasesEffect(r, conns);
  }

  /** Ending leases changes no list and no pipeline, so the registry stays consistent. */
  lemma EndLeasesOk(r: Registry, conns: seq<nat>)
    requires RegOk(r)
    ensures RegOk(EndLeases(r, conns))
  {
  }

  lemma {:induction false} EndLeasesEffect(r: Registry, conns: seq<nat>)
    requires RegOk(r)
    ensures var r' := EndLeases(r, conns);
            && RegOk(r')
            && (forall l :: l in conns && l in r.leaseOutputs ==> r'.leaseOuts[l].lease.None?)
            && (forall l :: l in r.leaseOuts && !(l in conns && l in r.leaseOutputs) ==> r'.leaseOuts[l] == r.leaseOuts[l])
            && (forall l :: l in r.leaseOuts ==> r'.leaseOuts[l].pipeline == r.leaseOuts[l].pipeline)
  {
    EndLeasesOk(r, conns);
    EndLeasesTracked(r, conns);
  }

  /** The requested tracked lease outputs end up free and every other lease output is untouched. */
  lemma {:induction false} EndLeasesTracked(r: Registry, conns: seq<nat>)
    requires forall l :: l in r.leaseOutputs ==> l in r.leaseOuts
    ensures var r' := EndLeases(r, conns);
            && (forall l :: l in conns && l in r.leaseOutputs ==> r'.leaseOuts[l].lease.None?)
            && (forall l :: l in r.leaseOuts && !(l in conns && l in r.leaseOutputs) ==> r'.leaseOuts[l] == r.leaseOuts[l])
    decreases |conns|
  {
    if conns != [] {
      var l := conns[0];
      var r1 := if l in r.leaseOutputs && l in r.leaseOuts
                then r.(leaseOuts := r.leaseOuts[l := r.leaseOuts[l].(lease := None)], events := r.events + [LeaseEnded(l)])
                else r;
      EndLeasesTracked(r1, conns[1..]);
      var r' := EndLeases(r, conns);
      assert r' == EndLeases(r1, conns[1..]);
      forall x | x in conns && x in r.leaseOutputs ensures r'.leaseOuts[x].lease.None? {
        if x != l { assert x in conns[1..]; }
      }
    }
  }

  /** A page flip reported by the kernel for the output registered with it. */
  function PageFlipSpec(r: Registry, o: nat, timestamp: int): Registry
    requires o in r.outs && r.outs[o].DrmOutput?
  {
    if o in r.outputs then
      r.(outs := r.outs[o := r.outs[o].(flipPending := false)], events := r.events + [FrameCompleted(o, timestamp)])
    else r
  }

  /**
   * A flip for an output still tracked clears its pending flag and reports
   * one completed frame; a flip for an output already removed changes nothing.
   */
  lemma PageFlipEffect(r: Registry, o: nat, timestamp: int)
    requires RegOk(r) && o in r.outs && r.outs[o].DrmOutput?
    ensures var r' := PageFlipSpec(r, o, timestamp);
            && RegOk(r')
            && (o !in r.outputs ==> r' == r)
            && (o in r.outputs ==> !r'.outs[o].flipPending && r'.events == r.events + [FrameCompleted(o, timestamp)])
            && (forall x :: x in r.outs && x != o ==> r'.outs[x] == r.outs[x])
  {
  }

  /** No hardware output is waiting for a page flip. */
  predicate AllIdle(r: Registry)
  {
    forall o :: o in r.drmOutputs && o in r.outs && r.outs[o].DrmOutput? ==> !r.outs[o].flipPending
  }
}
