// The rollback of DrmGpu::updateOutputs when no working combination is
// found: the stashed pipelines and those of unleased lease outputs are
// appended to m_pipelines again. Whether that keeps m_pipelines free of
// duplicates depends on which tracked object holds which pipeline, which
// the registry's consistency does not say; Owned says it, the update's
// first half keeps it, and under it the rollback leaves the registry
// consistent with m_pipelines holding its old members and the unleased
// lease outputs' pipelines.
module DrmRollback {
  import opened Common
  import opened DrmObjects
  import opened DrmRegistry
  import opened DrmReconcile
  import opened DrmSearch
  import opened DrmUpdate
  import opened DrmRefresh

  /** The pipeline hardware output o holds, if any. */
  function Held(outs: map<nat, OutputObj>, o: nat): (ps: seq<nat>)
    ensures forall p :: p in ps <==> o in outs && outs[o].DrmOutput? && outs[o].pipeline == Some(p)
  {
    if o in outs && outs[o].DrmOutput? && outs[o].pipeline.Some? then [outs[o].pipeline.value] else []
  }

  /** The pipelines the hardware outputs among os hold, in order. */
  function OutputPipes(outs: map<nat, OutputObj>, os: seq<nat>): seq<nat>
    decreases |os|
  {
    if os == [] then [] else Held(outs, os[0]) + OutputPipes(outs, os[1..])
  }

  /** The pipelines of the lease outputs among ls, leased or not, in order. */
  function LeasePipes(leaseOuts: map<nat, LeaseOutput>, ls: seq<nat>): seq<nat>
    decreases |ls|
  {
    if ls == [] then [] else LeaseHeld(leaseOuts, ls[0]) + LeasePipes(leaseOuts, ls[1..])
  }

  /** The pipeline lease output l holds, if it is one. */
  function LeaseHeld(leaseOuts: map<nat, LeaseOutput>, l: nat): seq<nat>
  {
    if l in leaseOuts then [leaseOuts[l].pipeline] else []
  }

  /** Each pipeline in LeasePipes belongs to a lease output among ls. */
  lemma {:induction false} LeasePipesFrom(leaseOuts: map<nat, LeaseOutput>, ls: seq<nat>)
    ensures forall p :: p in LeasePipes(leaseOuts, ls) ==> exists l :: l in ls && l in leaseOuts && leaseOuts[l].pipeline == p
    decreases |ls|
  {
    if ls != [] {
      LeasePipesFrom(leaseOuts, ls[1..]);
      assert forall l :: l in ls[1..] ==> l in ls;
    }
  }

  /**
   * Who holds which pipeline: a hardware output's pipeline is listed in
   * m_pipelines, no pipeline is held by two tracked outputs, hardware or
   * lease, and no tracked lease output's pipeline has been destroyed.
   */
  predicate Owned(r: Registry)
  {
    && NoDup(OutputPipes(r.outs, r.drmOutputs) + LeasePipes(r.leaseOuts, r.leaseOutputs))
    && (forall p :: p in OutputPipes(r.outs, r.drmOutputs) ==> p in r.pipelines)
    && (forall p :: p in LeasePipes(r.leaseOuts, r.leaseOutputs) ==> p !in r.deleted)
  }

  // ------------------------------------------------------ the rollback

  /** Only the lease outputs and which pipeline ids exist decide which lease pipelines are free. */
  lemma {:induction false} FreeLeasePipesFrame(r: Registry, r': Registry, ls: seq<nat>)
    requires r'.leaseOuts == r.leaseOuts && r'.pipes.Keys == r.pipes.Keys
    ensures FreeLeasePipes(r', ls) == FreeLeasePipes(r, ls)
    decreases |ls|
  {
    if ls != [] {
      FreeLeasePipesFrame(r, r', ls[1..]);
      assert FreeOut(r', ls[0]) == FreeOut(r, ls[0]);
    }
  }

  /** The unleased outputs' pipelines are among all lease outputs' pipelines, no more often. */
  lemma {:induction false} FreeAmongLease(r: Registry, ls: seq<nat>)
    ensures multiset(FreeLeasePipes(r, ls)) <= multiset(LeasePipes(r.leaseOuts, ls))
    decreases |ls|
  {
    if ls != [] {
      FreeAmongLease(r, ls[1..]);
    }
  }

  /** The stash records exactly the pipelines the outputs held, in order. */
  lemma {:induction false} StashedAreOutputPipes(outs: map<nat, OutputObj>, os: seq<nat>, ss: seq<Stashed>)
    requires |ss| == |os|
    requires forall i :: 0 <= i < |os| ==> os[i] in outs && outs[os[i]].DrmOutput? && ss[i] == Stashed(os[i], outs[os[i]].pipeline)
    ensures StashedPipes(ss) == OutputPipes(outs, os)
    decreases |os|
  {
    if os != [] {
      assert forall i :: 0 <= i < |os| - 1 ==> os[1..][i] == os[i + 1] && ss[1..][i] == ss[i + 1];
      StashedAreOutputPipes(outs, os[1..], ss[1..]);
    }
  }

  /** The stash takes each pipeline it records out of m_pipelines once. */
  lemma {:induction false} StashAllMultiset(r: Registry, os: seq<nat>)
    ensures var (r', ss) := StashAll(r, os);
            multiset(r'.pipelines) == multiset(r.pipelines) - multiset(StashedPipes(ss))
    decreases |os|
  {
    if os != [] {
      var (r1, s) := StashStep(r, os[0]);
      StashAllMultiset(r1, os[1..]);
      var (r2, ss) := StashAll(r1, os[1..]);
      assert ([s] + ss)[1..] == ss;
      if s.pipeline.Some? {
        RemoveOneMultiset(r.pipelines, s.pipeline.value);
        assert StashedPipes([s] + ss) == [s.pipeline.value] + StashedPipes(ss);
      } else {
        assert StashedPipes([s] + ss) == StashedPipes(ss);
      }
    }
  }

  /** Leaving out the leased resources takes each unleased output's pipeline out of m_pipelines once. */
  lemma {:induction false} ExcludeAllMultiset(r: Registry, pl: Pools, ls: seq<nat>)
    ensures multiset(ExcludeAll(r, pl, ls).pipelines) == multiset(pl.pipelines) - multiset(FreeLeasePipes(r, ls))
    decreases |ls|
  {
    if ls != [] {
      var pl1 := ExcludeStep(r, pl, ls[0]);
      ExcludeAllMultiset(r, pl1, ls[1..]);
      if FreeOut(r, ls[0]) {
        RemoveOneMultiset(pl.pipelines, r.leaseOuts[ls[0]].pipeline);
      }
    }
  }

  /**
   * Taking s and f out of a duplicate-free list and appending them again
   * gives a duplicate-free list of the old members and those of f, when
   * nothing is in s and f twice and all of s was listed.
   */
  lemma Restored(p: seq<nat>, p5: seq<nat>, s: seq<nat>, f: seq<nat>)
    requires NoDup(p) && NoDup(s + f) && forall x :: x in s ==> x in p
    requires multiset(p5) == multiset(p) - multiset(s) - multiset(f)
    ensures NoDup(p5 + (s + f))
    ensures forall x :: x in p5 + (s + f) <==> x in p || x in f
  {
    var all := p5 + (s + f);
    forall x ensures multiset(all)[x] <= 1 && (x in all <==> x in p || x in f) {
      NoDupCount(p, x);
      NoDupCount(s + f, x);
      assert multiset(s + f) == multiset(s) + multiset(f);
      assert multiset(all) == multiset(p5) + multiset(s) + multiset(f);
    }
    CountsNoDup(all);
  }

  /**
   * Under Owned, the pipelines left after the stash and the exclusion,
   * followed by the stashed ones and the unleased lease outputs', are
   * distinct and are the old m_pipelines together with the unleased ones.
   */
  lemma RevertedPipelines(r: Registry, connected: seq<Connector>, atomic: bool, crtcs: seq<Crtc>)
    requires RegOk(r) && Owned(r)
    ensures var (r4, ss) := StashAll(r, r.drmOutputs);
            var pl := SearchPools(r4, connected, atomic, crtcs);
            var all := pl.pipelines + (StashedPipes(ss) + FreeLeasePipes(r, r.leaseOutputs));
            && StashedPipes(ss) == OutputPipes(r.outs, r.drmOutputs)
            && NoDup(all)
            && forall p :: p in all <==> p in r.pipelines || p in FreeLeasePipes(r, r.leaseOutputs)
  {
    var os := r.drmOutputs;
    StashAllRecords(r, os);
    StashAllState(r, os);
    StashAllMultiset(r, os);
    var (r4, ss) := StashAll(r, os);
    StashedAreOutputPipes(r.outs, os, ss);
    var s := StashedPipes(ss);
    var f := FreeLeasePipes(r, r.leaseOutputs);
    FreeLeasePipesFrame(r, r4, r.leaseOutputs);
    ExcludeAllMultiset(r4, Pools(if atomic then SortByHint(connected) else connected, crtcs, r4.pipelines), r4.leaseOutputs);
    FreeAmongLease(r, r.leaseOutputs);
    var l := LeasePipes(r.leaseOuts, r.leaseOutputs);
    assert multiset(s + f) <= multiset(s + l) by {
      assert multiset(s + f) == multiset(s) + multiset(f);
      assert multiset(s + l) == multiset(s) + multiset(l);
    }
    MultisetNoDup(s + f, s + l);
    var pl := SearchPools(r4, connected, atomic, crtcs);
    Restored(r.pipelines, pl.pipelines, s, f);
  }

  /** Listing distinct, allocated, live pipelines keeps the registry consistent. */
  lemma ListPipelinesOk(r: Registry, ps: seq<nat>)
    requires RegOk(r) && NoDup(ps) && forall p :: p in ps ==> p in r.pipes && p !in r.deleted
    ensures RegOk(r.(pipelines := ps))
  {
  }

  /**
   * The rollback itself, from the registry the search leaves behind: the
   * stashed pipelines get their outputs back, they and the unleased lease
   * outputs' pipelines are appended to m_pipelines and routed, and the
   * registry stays consistent when the appended list has no duplicates
   * and nothing in it was destroyed.
   */
  lemma SettleRevertedOk(r: Registry, r5: Registry, ss: seq<Stashed>, combination: seq<Hyp>, cursorOk: nat -> bool)
    requires RegOk(r5) && RevertReady(r5, ss)
    requires r5.leaseOuts == r.leaseOuts && r5.leaseOutputs == r.leaseOutputs
    requires r5.pipes.Keys == r.pipes.Keys && r5.deleted == r.deleted
    requires forall p :: p in StashedPipes(ss) + FreeLeasePipes(r, r.leaseOutputs) ==> p !in r.deleted
    requires NoDup(r5.pipelines + (StashedPipes(ss) + FreeLeasePipes(r, r.leaseOutputs)))
    ensures var (r6, ps) := Settle(r5, ss, true, combination);
            var r7 := RouteAll(r6.(pipelines := r6.pipelines + ps), ps, cursorOk).0;
            && RegOk(r7)
            && r7.pipelines == r5.pipelines + (StashedPipes(ss) + FreeLeasePipes(r, r.leaseOutputs))
  {
    RevertConfig(r5, ss);
    RevertOk(r5, ss);
    var (r1, s) := Revert(r5, ss);
    FreeLeasePipesFrame(r, r1, r1.leaseOutputs);
    FreeLeasePipesRoutable(r1);
    var ps := s + FreeLeasePipes(r1, r1.leaseOutputs);
    ListPipelinesOk(r1, r1.pipelines + ps);
    var r6 := r1.(pipelines := r1.pipelines + ps);
    assert Routable(r6, ps);
    RouteAllOk(r6, ps, cursorOk);
    RouteAllFrame(r6, ps, cursorOk);
  }

  /**
   * When the search fails and the old configuration is restored, the
   * registry stays consistent and m_pipelines holds exactly what it held
   * before the stash together with the pipelines of unleased lease
   * outputs, provided Owned held.
   */
  lemma NegotiateRevertedOk(r: Registry, cs: seq<Connector>, connected: seq<Connector>, atomic: bool, crtcs: seq<Crtc>,
                            test: seq<Hyp> -> bool, cursorOk: nat -> bool)
    requires RegOk(r) && Owned(r) && NoDup(crtcs)
    ensures var o := Negotiate(r, cs, connected, atomic, crtcs, test, cursorOk);
            o.reverted ==>
              && RegOk(o.reg)
              && forall p :: p in o.reg.pipelines <==> p in r.pipelines || FreePipeline(r, r.leaseOutputs, p)
  {
    var (r4, ss) := StashAll(r, r.drmOutputs);
    var pl := SearchPools(r4, connected, atomic, crtcs);
    var r5 := r4.(pipelines := pl.pipelines);
    var combination := FindWorkingCombination(atomic, test, [], pl.conns, pl.crtcs);
    if combination == [] && pl.conns != [] {
      StashOk(r);
      StashAllState(r, r.drmOutputs);
      PoolsOk(r, connected, atomic, crtcs);
      RevertedPipelines(r, connected, atomic, crtcs);
      assert r5.leaseOuts == r.leaseOuts && r5.leaseOutputs == r.leaseOutputs;
      assert r5.pipes.Keys == r.pipes.Keys && r5.deleted == r.deleted;
      FreeAmongLease(r, r.leaseOutputs);
      var f := FreeLeasePipes(r, r.leaseOutputs);
      forall p | p in StashedPipes(ss) + f ensures p !in r.deleted {
        if p in f {
          assert multiset(f)[p] > 0;
        }
      }
      SettleRevertedOk(r, r5, ss, combination, cursorOk);
    }
  }

  /**
   * After a rollback every hardware output the GPU tracked drives exactly
   * the pipeline it drove before the update, or none if it had none.
   */
  lemma NegotiateRevertedRestores(r: Registry, cs: seq<Connector>, connected: seq<Connector>, atomic: bool, crtcs: seq<Crtc>,
                                  test: seq<Hyp> -> bool, cursorOk: nat -> bool)
    requires RegOk(r) && NoDup(crtcs)
    ensures var o := Negotiate(r, cs, connected, atomic, crtcs, test, cursorOk);
            o.reverted ==>
              forall x :: x in r.drmOutputs ==> x in o.reg.outs && o.reg.outs[x].DrmOutput? && o.reg.outs[x].pipeline == r.outs[x].pipeline
  {
    var os := r.drmOutputs;
    var (r4, ss) := StashAll(r, os);
    var pl := SearchPools(r4, connected, atomic, crtcs);
    var r5 := r4.(pipelines := pl.pipelines);
    var combination := FindWorkingCombination(atomic, test, [], pl.conns, pl.crtcs);
    if combination == [] && pl.conns != [] {
      PoolsOk(r, connected, atomic, crtcs);
      StashAllRecords(r, os);
      assert StashDistinct(ss) by {
        forall i, j | 0 <= i < j < |ss| ensures ss[i].output != ss[j].output {
          assert ss[i].output == os[i] && ss[j].output == os[j];
        }
      }
      RevertRestores(r5, ss);
      var (r6, ps) := Settle(r5, ss, true, combination);
      RouteAllFrame(r6.(pipelines := r6.pipelines + ps), ps, cursorOk);
      forall x | x in os
        ensures x in r6.outs && r6.outs[x].DrmOutput? && r6.outs[x].pipeline == r.outs[x].pipeline
      {
        var i :| 0 <= i < |os| && os[i] == x;
        assert ss[i] == Stashed(x, r.outs[x].pipeline);
      }
    }
  }

  // ------------------------------------------- the update's first half

  /** Taking away part of the second of two multisets can be done after adding them. */
  lemma MultisetShift(a: multiset<nat>, b: multiset<nat>, c: multiset<nat>)
    requires c <= b
    ensures a + (b - c) == (a + b) - c && c <= a + b
  {
  }

  /** Untracking an output takes the pipeline it holds, if any, out of the hardware outputs' pipelines once. */
  lemma {:induction false} OutputPipesRemove(outs: map<nat, OutputObj>, ds: seq<nat>, o: nat)
    requires o in ds
    ensures multiset(OutputPipes(outs, RemoveOne(ds, o))) == multiset(OutputPipes(outs, ds)) - multiset(Held(outs, o))
    ensures multiset(Held(outs, o)) <= multiset(OutputPipes(outs, ds))
    decreases |ds|
  {
    if ds[0] != o {
      OutputPipesRemove(outs, ds[1..], o);
      var rest := RemoveOne(ds[1..], o);
      var h0 := Held(outs, ds[0]);
      assert OutputPipes(outs, RemoveOne(ds, o)) == h0 + OutputPipes(outs, rest) by {
        assert RemoveOne(ds, o) == [ds[0]] + rest;
        assert ([ds[0]] + rest)[1..] == rest;
      }
      MultisetShift(multiset(h0), multiset(OutputPipes(outs, ds[1..])), multiset(Held(outs, o)));
    } else {
      assert RemoveOne(ds, o) == ds[1..];
    }
  }

  /** Untracking a lease output takes its pipeline out of the lease outputs' pipelines once. */
  lemma {:induction false} LeasePipesRemove(leaseOuts: map<nat, LeaseOutput>, ls: seq<nat>, l: nat)
    requires l in ls
    ensures multiset(LeasePipes(leaseOuts, RemoveOne(ls, l))) == multiset(LeasePipes(leaseOuts, ls)) - multiset(LeaseHeld(leaseOuts, l))
    ensures multiset(LeaseHeld(leaseOuts, l)) <= multiset(LeasePipes(leaseOuts, ls))
    decreases |ls|
  {
    if ls[0] != l {
      LeasePipesRemove(leaseOuts, ls[1..], l);
      var rest := RemoveOne(ls[1..], l);
      var h0 := LeaseHeld(leaseOuts, ls[0]);
      assert LeasePipes(leaseOuts, RemoveOne(ls, l)) == h0 + LeasePipes(leaseOuts, rest) by {
        assert RemoveOne(ls, l) == [ls[0]] + rest;
        assert ([ls[0]] + rest)[1..] == rest;
      }
      MultisetShift(multiset(h0), multiset(LeasePipes(leaseOuts, ls[1..])), multiset(LeaseHeld(leaseOuts, l)));
    } else {
      assert RemoveOne(ls, l) == ls[1..];
    }
  }

  /** Fewer pipelines on the left of a duplicate-free concatenation keep it duplicate-free. */
  lemma Shrunk(s: seq<nat>, s': seq<nat>, l: seq<nat>)
    requires NoDup(s + l) && multiset(s') <= multiset(s)
    ensures NoDup(s' + l) && forall p :: p in s' ==> p in s
  {
    assert multiset(s + l) == multiset(s) + multiset(l);
    assert multiset(s' + l) == multiset(s') + multiset(l);
    MultisetNoDup(s' + l, s + l);
    forall p | p in s' ensures p in s {
      assert multiset(s')[p] > 0;
    }
  }

  /** Dropping q from the left of a duplicate-free concatenation leaves q nowhere in it. */
  lemma DropHeld(s: seq<nat>, s': seq<nat>, l: seq<nat>, q: nat)
    requires NoDup(s + l) && q in s && multiset(s') == multiset(s) - multiset{q}
    ensures NoDup(s' + l) && q !in s' && q !in l && forall p :: p in s' ==> p in s
  {
    Shrunk(s, s', l);
    NoDupCount(s + l, q);
    assert multiset(s + l) == multiset(s) + multiset(l);
  }

  /** Dropping q from the right of a duplicate-free concatenation leaves q nowhere in it. */
  lemma DropLeaseHeld(s: seq<nat>, l: seq<nat>, l': seq<nat>, q: nat)
    requires NoDup(s + l) && q in l && multiset(l') == multiset(l) - multiset{q}
    ensures NoDup(s + l') && q !in l' && q !in s && forall p :: p in l' ==> p in l
  {
    assert multiset(s + l) == multiset(s) + multiset(l);
    assert multiset(s + l') == multiset(s) + multiset(l');
    MultisetNoDup(s + l', s + l);
    NoDupCount(s + l, q);
    forall p | p in l' ensures p in l {
      assert multiset(l')[p] > 0;
    }
  }

  /** removeOutput keeps Owned: the output's pipeline was its own, so nothing else loses its listing or is destroyed. */
  lemma RemoveOutputOwned(r: Registry, o: nat)
    requires Owned(r) && o in r.drmOutputs && o in r.outs && r.outs[o].DrmOutput? && o !in r.pipes
    requires NoDup(r.pipelines) && forall p :: p in LeasePipes(r.leaseOuts, r.leaseOutputs) ==> p in r.pipes
    ensures Owned(RemoveOutputSpec(r, o))
  {
    OutputPipesRemove(r.outs, r.drmOutputs, o);
    if r.outs[o].pipeline.Some? {
      var q := r.outs[o].pipeline.value;
      RemoveOutputFields(r, o, q);
      assert multiset(Held(r.outs, o)) == multiset{q} by {
        assert Held(r.outs, o) == [q];
      }
      DropOutputOwned(r, RemoveOutputSpec(r, o), o, q);
    } else {
      var r' := RemoveOutputSpec(r, o);
      Shrunk(OutputPipes(r.outs, r.drmOutputs), OutputPipes(r.outs, r'.drmOutputs), LeasePipes(r.leaseOuts, r.leaseOutputs));
      assert r'.deleted == r.deleted + {o};
    }
  }

  /** What removeOutput changes for an output holding pipeline q. */
  lemma RemoveOutputFields(r: Registry, o: nat, q: nat)
    requires o in r.outs && r.outs[o].DrmOutput? && r.outs[o].pipeline == Some(q)
    ensures var r' := RemoveOutputSpec(r, o);
            && r'.outs == r.outs && r'.leaseOuts == r.leaseOuts && r'.leaseOutputs == r.leaseOutputs
            && r'.drmOutputs == RemoveOne(r.drmOutputs, o) && r'.pipelines == RemoveOne(r.pipelines, q)
            && r'.deleted == r.deleted + {o, q}
  {
  }

  /** Owned survives untracking output o and destroying it and the pipeline q it held. */
  lemma DropOutputOwned(r: Registry, r': Registry, o: nat, q: nat)
    requires Owned(r) && o !in r.pipes
    requires NoDup(r.pipelines) && forall p :: p in LeasePipes(r.leaseOuts, r.leaseOutputs) ==> p in r.pipes
    requires multiset(OutputPipes(r.outs, RemoveOne(r.drmOutputs, o))) == multiset(OutputPipes(r.outs, r.drmOutputs)) - multiset{q}
    requires multiset(OutputPipes(r.outs, r.drmOutputs))[q] > 0
    requires r'.outs == r.outs && r'.leaseOuts == r.leaseOuts && r'.leaseOutputs == r.leaseOutputs
    requires r'.drmOutputs == RemoveOne(r.drmOutputs, o) && r'.pipelines == RemoveOne(r.pipelines, q)
    requires r'.deleted == r.deleted + {o, q}
    ensures Owned(r')
  {
    var s: seq<nat> := OutputPipes(r.outs, r.drmOutputs);
    var s' := OutputPipes(r.outs, r'.drmOutputs);
    var l := LeasePipes(r.leaseOuts, r.leaseOutputs);
    DropHeld(s, s', l, q);
    ListedAfterDrop(s', s, r.pipelines, q);
  }

  /** What was listed, other than q, is still listed once q is removed from the list. */
  lemma ListedAfterDrop(s': seq<nat>, s: seq<nat>, ps: seq<nat>, q: nat)
    requires NoDup(ps) && (forall p :: p in s ==> p in ps) && (forall p :: p in s' ==> p in s) && q !in s'
    ensures forall p :: p in s' ==> p in RemoveOne(ps, q)
  {
    RemoveOneGone(ps, q);
  }

  /** removeLeaseOutput keeps Owned: the lease output's pipeline was its own. */
  lemma RemoveLeaseOutputOwned(r: Registry, l: nat)
    requires Owned(r) && l in r.leaseOutputs && l in r.leaseOuts && l !in r.pipes
    requires NoDup(r.pipelines) && forall p :: p in LeasePipes(r.leaseOuts, r.leaseOutputs) ==> p in r.pipes
    ensures Owned(RemoveLeaseOutputSpec(r, l))
  {
    var r' := RemoveLeaseOutputSpec(r, l);
    var q := r.leaseOuts[l].pipeline;
    var s := OutputPipes(r.outs, r.drmOutputs);
    var ls: seq<nat> := LeasePipes(r.leaseOuts, r.leaseOutputs);
    LeasePipesRemove(r.leaseOuts, r.leaseOutputs, l);
    assert LeaseHeld(r.leaseOuts, l) == [q];
    assert multiset(ls)[q] > 0;
    DropLeaseHeld(s, ls, LeasePipes(r.leaseOuts, r'.leaseOutputs), q);
    ListedAfterDrop(s, s, r.pipelines, q);
    assert r'.deleted == r.deleted + {l, q};
  }

  /** Tearing down a vanished connector keeps Owned. */
  lemma TeardownOwned(r: Registry, id: nat)
    requires RegOk(r) && Owned(r)
    ensures Owned(Teardown(r, id))
  {
    LeasePipesFrom(r.leaseOuts, r.leaseOutputs);
    var o := FindOutputIn(r, id);
    if o.Some? {
      RemoveOutputOwned(r, o.value);
    } else if FindLeaseOutputIn(r, id).Some? {
      var l := FindLeaseOutputIn(r, id).value;
      assert l in r.leaseOuts;
      RemoveLeaseOutputOwned(r, l);
    }
  }

  lemma {:induction false} TeardownAllOwned(r: Registry, ids: seq<nat>)
    requires RegOk(r) && Owned(r)
    ensures Owned(TeardownAll(r, ids))
    decreases |ids|
  {
    if ids != [] {
      TeardownEffect(r, ids[0]);
      TeardownOwned(r, ids[0]);
      TeardownAllOwned(Teardown(r, ids[0]), ids[1..]);
    }
  }

  /** The lessee check, the teardown of vanished connectors and the collecting pass keep Owned. */
  lemma PrepareOwned(r: Registry, conns: seq<Connector>, ids: seq<nat>, lessees: seq<nat>, probe: nat -> ConnectorProbe)
    requires RegOk(r) && Owned(r) && NoDup(Ids(conns))
    ensures Owned(Prepare(r, conns, ids, lessees, probe).0)
  {
    var r1 := LesseeCheck(r, lessees);
    var st := ScanAll(ScanState(conns, Ids(conns)), ids, probe);
    TeardownAllOk(r1, st.removed);
    TeardownAllOwned(r1, st.removed);
    var r2 := TeardownAll(r1, st.removed);
    ReconciledClean(conns, ids, probe);
    CollectAllConnected(r2, [], Reconciled(conns, ids, probe));
  }

  /**
   * An update of a consistent registry that satisfies Owned stays
   * consistent when the search fails and the old configuration is
   * restored.
   */
  lemma UpdateRevertedOk(r: Registry, conns: seq<Connector>, atomic: bool, crtcs: seq<Crtc>, a: Answers)
    requires RegOk(r) && Owned(r) && NoDup(Ids(conns)) && NoDup(crtcs)
    ensures var o := UpdateSpec(r, conns, atomic, crtcs, a);
            o.reverted ==> RegOk(o.reg) && NoDup(Ids(o.conns))
  {
    if a.connectorIds.Some? {
      PrepareOk(r, conns, a.connectorIds.value, a.lessees, a.probe);
      PrepareOwned(r, conns, a.connectorIds.value, a.lessees, a.probe);
      var (r3, cs, connected) := Prepare(r, conns, a.connectorIds.value, a.lessees, a.probe);
      NegotiateRevertedOk(r3, cs, connected, atomic, crtcs, a.test, a.cursorOk);
    }
  }
}
