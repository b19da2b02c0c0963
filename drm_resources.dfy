// DrmGpu::initDrmResources and DrmGpu::isFormatSupported: choosing between
// atomic and legacy mode, giving each CRTC a primary plane, and deciding
// which buffer formats every primary plane can scan out.
module DrmResources {
  import opened Common
  import opened DrmObjects

  /** What drmModeGetPlane and DrmPlane::init() yield for one plane id. */
  datatype PlaneProbe = PlaneProbe(initOk: bool, primary: bool, possibleCrtcs: set<nat>, boundCrtc: nat, formats: seq<nat>)

  /** The plane DrmPlane records for this id. */
  function PlaneOf(id: nat, probe: nat -> PlaneProbe): Plane
  {
    var pr := probe(id);
    Plane(id, pr.primary, pr.possibleCrtcs, pr.boundCrtc, pr.formats)
  }

  /** The planes whose init() succeeds, in kernel order. */
  function InitPlanes(ids: seq<nat>, probe: nat -> PlaneProbe): (r: seq<Plane>)
    ensures |r| <= |ids|
    ensures forall p :: p in r ==> p.id in ids && probe(p.id).initOk
  {
    if ids == [] then []
    else
      var rest := InitPlanes(ids[1..], probe);
      if probe(ids[0]).initOk then [PlaneOf(ids[0], probe)] + rest else rest
  }

  /** One step of the plane loop: the plane at position i is kept first, if its init() succeeds. */
  lemma InitPlanesAt(ids: seq<nat>, probe: nat -> PlaneProbe, i: nat)
    requires i < |ids|
    ensures InitPlanes(ids[i..], probe)
            == (if probe(ids[i]).initOk then [PlaneOf(ids[i], probe)] else []) + InitPlanes(ids[i + 1..], probe)
  {
    assert ids[i..][0] == ids[i] && ids[i..][1..] == ids[i + 1..];
  }

  /** The positions, from i on, of the plane ids whose init() succeeds, in ascending order. */
  function InitPositions(ids: seq<nat>, probe: nat -> PlaneProbe, i: nat): (ps: seq<nat>)
    requires i <= |ids|
    ensures forall k :: 0 <= k < |ps| ==> i <= ps[k] < |ids|
    decreases |ids| - i
  {
    if i == |ids| then []
    else
      var rest := InitPositions(ids, probe, i + 1);
      if probe(ids[i]).initOk then [i] + rest else rest
  }

  /** InitPositions lists, in ascending order, exactly the positions from i on whose init() succeeds. */
  lemma InitPositionsExact(ids: seq<nat>, probe: nat -> PlaneProbe, i: nat)
    requires i <= |ids|
    ensures forall k :: 0 <= k < |InitPositions(ids, probe, i)| ==> probe(ids[InitPositions(ids, probe, i)[k]]).initOk
    ensures forall k, m :: 0 <= k < m < |InitPositions(ids, probe, i)| ==> InitPositions(ids, probe, i)[k] < InitPositions(ids, probe, i)[m]
    ensures forall j :: i <= j < |ids| && probe(ids[j]).initOk ==> j in InitPositions(ids, probe, i)
  {
    InitPositionsSucceed(ids, probe, i);
    InitPositionsAscend(ids, probe, i);
    InitPositionsComplete(ids, probe, i);
  }

  lemma {:induction false} InitPositionsSucceed(ids: seq<nat>, probe: nat -> PlaneProbe, i: nat)
    requires i <= |ids|
    ensures forall k :: 0 <= k < |InitPositions(ids, probe, i)| ==> probe(ids[InitPositions(ids, probe, i)[k]]).initOk
    decreases |ids| - i
  {
    if i < |ids| {
      InitPositionsSucceed(ids, probe, i + 1);
      var rest := InitPositions(ids, probe, i + 1);
      if probe(ids[i]).initOk {
        var ps := [i] + rest;
        assert InitPositions(ids, probe, i) == ps;
        forall k | 0 <= k < |ps| ensures probe(ids[ps[k]]).initOk {
          if k > 0 {
            assert ps[k] == rest[k - 1];
          }
        }
      }
    }
  }

  lemma {:induction false} InitPositionsAscend(ids: seq<nat>, probe: nat -> PlaneProbe, i: nat)
    requires i <= |ids|
    ensures forall k, m :: 0 <= k < m < |InitPositions(ids, probe, i)| ==> InitPositions(ids, probe, i)[k] < InitPositions(ids, probe, i)[m]
    decreases |ids| - i
  {
    if i < |ids| {
      InitPositionsAscend(ids, probe, i + 1);
      var rest := InitPositions(ids, probe, i + 1);
      if probe(ids[i]).initOk {
        var ps := [i] + rest;
        assert InitPositions(ids, probe, i) == ps;
        forall k, m | 0 <= k < m < |ps| ensures ps[k] < ps[m] {
          assert ps[m] == rest[m - 1];
          if k > 0 {
            assert ps[k] == rest[k - 1];
          }
        }
      }
    }
  }

  lemma {:induction false} InitPositionsComplete(ids: seq<nat>, probe: nat -> PlaneProbe, i: nat)
    requires i <= |ids|
    ensures forall j :: i <= j < |ids| && probe(ids[j]).initOk ==> j in InitPositions(ids, probe, i)
    decreases |ids| - i
  {
    if i < |ids| {
      InitPositionsComplete(ids, probe, i + 1);
      var rest := InitPositions(ids, probe, i + 1);
      forall j | i <= j < |ids| && probe(ids[j]).initOk ensures j in InitPositions(ids, probe, i) {
        if j > i {
          assert j in rest;
        }
      }
    }
  }

  /**
   * The planes kept are exactly those at the positions whose init()
   * succeeds, one per position, in kernel order.
   */
  lemma {:induction false} InitPlanesInOrder(ids: seq<nat>, probe: nat -> PlaneProbe, i: nat)
    requires i <= |ids|
    ensures |InitPlanes(ids[i..], probe)| == |InitPositions(ids, probe, i)|
    ensures forall k :: 0 <= k < |InitPlanes(ids[i..], probe)| ==> InitPlanes(ids[i..], probe)[k] == PlaneOf(ids[InitPositions(ids, probe, i)[k]], probe)
    decreases |ids| - i
  {
    if i < |ids| {
      InitPlanesInOrder(ids, probe, i + 1);
      InitPlanesAt(ids, probe, i);
      var all, pos := InitPlanes(ids[i..], probe), InitPositions(ids, probe, i);
      var rest, ps := InitPlanes(ids[i + 1..], probe), InitPositions(ids, probe, i + 1);
      if probe(ids[i]).initOk {
        assert all == [PlaneOf(ids[i], probe)] + rest && pos == [i] + ps;
        forall k | 0 <= k < |all| ensures all[k] == PlaneOf(ids[pos[k]], probe) {
          if k > 0 {
            assert all[k] == rest[k - 1] && pos[k] == ps[k - 1];
          }
        }
      } else {
        assert all == rest && pos == ps;
      }
    }
  }

  /**
   * Atomic mode is used exactly when the atomic client capability was
   * accepted, the plane resources could be read and at least one plane
   * initialised.
   */
  function AtomicMode(capAccepted: bool, planeIds: Option<seq<nat>>, probe: nat -> PlaneProbe): (atomic: bool)
    ensures atomic <==> capAccepted && planeIds.Some? && exists id :: id in planeIds.value && probe(id).initOk
  {
    if !capAccepted || planeIds.None? then false
    else
      var ps := InitPlanes(planeIds.value, probe);
      InitPlanesEmpty(planeIds.value, probe);
      |ps| > 0
  }

  lemma {:induction false} InitPlanesEmpty(ids: seq<nat>, probe: nat -> PlaneProbe)
    ensures InitPlanes(ids, probe) == [] <==> forall id :: id in ids ==> !probe(id).initOk
  {
    if ids != [] {
      InitPlanesEmpty(ids[1..], probe);
      assert forall id :: id in ids <==> id == ids[0] || id in ids[1..];
    }
  }

  /** A plane may become the primary plane of the CRTC with this index. */
  predicate Eligible(p: Plane, index: nat)
  {
    p.primary && index in p.possibleCrtcs
  }

  /**
   * The inner loop of initDrmResources for the CRTC with this index and
   * kernel id: every eligible plane becomes the candidate, and the loop
   * stops at an eligible plane already bound to this CRTC.
   */
  function PickPrimary(planes: seq<Plane>, index: nat, crtcId: nat, candidate: Option<Plane>): Option<Plane>
  {
    if planes == [] then candidate
    else if Eligible(planes[0], index) then
      if planes[0].boundCrtc == crtcId then Some(planes[0])
      else PickPrimary(planes[1..], index, crtcId, Some(planes[0]))
    else PickPrimary(planes[1..], index, crtcId, candidate)
  }

  predicate BoundEligible(p: Plane, index: nat, crtcId: nat)
  {
    Eligible(p, index) && p.boundCrtc == crtcId
  }

  /**
   * The plane chosen for a CRTC: the first eligible plane already bound to
   * it if there is one, otherwise the last eligible plane, and none exactly
   * when no plane is eligible.
   */
  lemma PickPrimaryChoice(planes: seq<Plane>, index: nat, crtcId: nat)
    ensures var r := PickPrimary(planes, index, crtcId, None);
            && (r.None? <==> forall i :: 0 <= i < |planes| ==> !Eligible(planes[i], index))
            && ((exists i :: 0 <= i < |planes| && BoundEligible(planes[i], index, crtcId)) ==>
                  exists i :: 0 <= i < |planes| && r == Some(planes[i]) && BoundEligible(planes[i], index, crtcId)
                              && forall j :: 0 <= j < i ==> !BoundEligible(planes[j], index, crtcId))
            && ((forall i :: 0 <= i < |planes| ==> !BoundEligible(planes[i], index, crtcId)) && r.Some? ==>
                  exists i :: 0 <= i < |planes| && r == Some(planes[i]) && Eligible(planes[i], index)
                              && forall j :: i < j < |planes| ==> !Eligible(planes[j], index))
  {
    PickPrimaryGeneral(planes, index, crtcId, None);
  }

  lemma PickPrimaryGeneral(planes: seq<Plane>, index: nat, crtcId: nat, cand: Option<Plane>)
    requires cand.Some? ==> Eligible(cand.value, index)
    ensures var r := PickPrimary(planes, index, crtcId, cand);
            && (r.None? <==> cand.None? && forall i :: 0 <= i < |planes| ==> !Eligible(planes[i], index))
            && (r.Some? ==> Eligible(r.value, index))
            && ((exists i :: 0 <= i < |planes| && BoundEligible(planes[i], index, crtcId)) ==>
                  exists i :: 0 <= i < |planes| && r == Some(planes[i]) && BoundEligible(planes[i], index, crtcId)
                              && forall j :: 0 <= j < i ==> !BoundEligible(planes[j], index, crtcId))
            && ((forall i :: 0 <= i < |planes| ==> !BoundEligible(planes[i], index, crtcId)) ==>
                  (r == cand && forall i :: 0 <= i < |planes| ==> !Eligible(planes[i], index))
                  || exists i :: 0 <= i < |planes| && r == Some(planes[i]) && Eligible(planes[i], index)
                                 && forall j :: i < j < |planes| ==> !Eligible(planes[j], index))
  {
    PickEligible(planes, index, crtcId, cand);
    PickBound(planes, index, crtcId, cand);
    PickUnbound(planes, index, crtcId, cand);
  }

  /** The scan yields nothing exactly when it starts empty and meets no eligible plane. */
  lemma {:induction false} PickEligible(planes: seq<Plane>, index: nat, crtcId: nat, cand: Option<Plane>)
    requires cand.Some? ==> Eligible(cand.value, index)
    ensures var r := PickPrimary(planes, index, crtcId, cand);
            && (r.None? <==> cand.None? && forall i :: 0 <= i < |planes| ==> !Eligible(planes[i], index))
            && (r.Some? ==> Eligible(r.value, index))
  {
    if planes != [] {
      var tl := planes[1..];
      var next := if Eligible(planes[0], index) then Some(planes[0]) else cand;
      PickEligible(tl, index, crtcId, next);
      var r := PickPrimary(planes, index, crtcId, cand);
      if r.None? {
        forall i | 0 <= i < |planes| ensures !Eligible(planes[i], index) {
          if i > 0 { assert planes[i] == tl[i - 1]; }
        }
      }
    }
  }

  /** An eligible plane bound to the CRTC stops the scan at the first one. */
  lemma {:induction false} PickBound(planes: seq<Plane>, index: nat, crtcId: nat, cand: Option<Plane>)
    ensures var r := PickPrimary(planes, index, crtcId, cand);
            (exists i :: 0 <= i < |planes| && BoundEligible(planes[i], index, crtcId)) ==>
              exists i :: 0 <= i < |planes| && r == Some(planes[i]) && BoundEligible(planes[i], index, crtcId)
                          && forall j :: 0 <= j < i ==> !BoundEligible(planes[j], index, crtcId)
  {
    if planes != [] && exists i :: 0 <= i < |planes| && BoundEligible(planes[i], index, crtcId) {
      var tl := planes[1..];
      var r := PickPrimary(planes, index, crtcId, cand);
      if BoundEligible(planes[0], index, crtcId) {
        assert r == Some(planes[0]);
      } else {
        var next := if Eligible(planes[0], index) then Some(planes[0]) else cand;
        PickBound(tl, index, crtcId, next);
        assert r == PickPrimary(tl, index, crtcId, next);
        var i :| 0 <= i < |planes| && BoundEligible(planes[i], index, crtcId);
        assert BoundEligible(tl[i - 1], index, crtcId);
        var k :| 0 <= k < |tl| && r == Some(tl[k]) && BoundEligible(tl[k], index, crtcId)
                 && forall j :: 0 <= j < k ==> !BoundEligible(tl[j], index, crtcId);
        assert r == Some(planes[k + 1]);
        forall j | 0 <= j < k + 1 ensures !BoundEligible(planes[j], index, crtcId) {
          if j > 0 { assert planes[j] == tl[j - 1]; }
        }
      }
    }
  }

  /** With no bound eligible plane the scan keeps the last eligible plane, or its candidate. */
  lemma {:induction false} PickUnbound(planes: seq<Plane>, index: nat, crtcId: nat, cand: Option<Plane>)
    ensures var r := PickPrimary(planes, index, crtcId, cand);
            (forall i :: 0 <= i < |planes| ==> !BoundEligible(planes[i], index, crtcId)) ==>
              (r == cand && forall i :: 0 <= i < |planes| ==> !Eligible(planes[i], index))
              || exists i :: 0 <= i < |planes| && r == Some(planes[i]) && Eligible(planes[i], index)
                             && forall j :: i < j < |planes| ==> !Eligible(planes[j], index)
  {
    if planes != [] && forall i :: 0 <= i < |planes| ==> !BoundEligible(planes[i], index, crtcId) {
      var p := planes[0];
      var tl := planes[1..];
      var next := if Eligible(p, index) then Some(p) else cand;
      var r := PickPrimary(planes, index, crtcId, cand);
      assert r == PickPrimary(tl, index, crtcId, next);
      forall i | 0 <= i < |tl| ensures !BoundEligible(tl[i], index, crtcId) {
        assert tl[i] == planes[i + 1];
      }
      PickUnbound(tl, index, crtcId, next);
      if r == next && forall i :: 0 <= i < |tl| ==> !Eligible(tl[i], index) {
        if Eligible(p, index) {
          assert r == Some(planes[0]);
          forall j | 0 < j < |planes| ensures !Eligible(planes[j], index) {
            assert planes[j] == tl[j - 1];
          }
        } else {
          forall j | 0 <= j < |planes| ensures !Eligible(planes[j], index) {
            if j > 0 { assert planes[j] == tl[j - 1]; }
          }
        }
      } else {
        var k :| 0 <= k < |tl| && r == Some(tl[k]) && Eligible(tl[k], index)
                 && forall j :: k < j < |tl| ==> !Eligible(tl[j], index);
        assert r == Some(planes[k + 1]);
        forall j | k + 1 < j < |planes| ensures !Eligible(planes[j], index) {
          assert planes[j] == tl[j - 1];
        }
      }
    }
  }

  /** The CRTCs created by initDrmResources and the planes still unassigned. */
  datatype Discovery = Discovery(crtcs: seq<Crtc>, pool: seq<Plane>)

  /**
   * The outer loop of initDrmResources from CRTC index i on: in atomic mode a
   * CRTC without a primary plane is skipped; otherwise the chosen plane
   * leaves the pool (even when the CRTC's own init() then fails) and the
   * CRTC is kept if its init() succeeds.
   */
  function AssignCrtcs(atomic: bool, pool: seq<Plane>, crtcIds: seq<nat>, i: nat, crtcInitOk: nat -> bool): Discovery
    decreases |crtcIds| - i
  {
    if i >= |crtcIds| then Discovery([], pool)
    else
      var primary := PickPrimary(pool, i, crtcIds[i], None);
      if atomic && primary.None? then AssignCrtcs(atomic, pool, crtcIds, i + 1, crtcInitOk)
      else
        var pool' := if primary.Some? then RemoveOne(pool, primary.value) else pool;
        var rest := AssignCrtcs(atomic, pool', crtcIds, i + 1, crtcInitOk);
        if !crtcInitOk(crtcIds[i]) then rest
        else
          var planeId := if primary.Some? then Some(primary.value.id) else None;
          Discovery([Crtc(crtcIds[i], i, planeId)] + rest.crtcs, rest.pool)
  }

  predicate DistinctPlaneIds(ps: seq<Plane>)
  {
    forall i, j :: 0 <= i < j < |ps| ==> ps[i].id != ps[j].id
  }

  /** The plane with this id in a list of planes. */
  predicate HasPlane(ps: seq<Plane>, id: nat, index: nat)
  {
    exists p :: p in ps && p.id == id && Eligible(p, index)
  }

  /**
   * The shape of discovery: each kept CRTC keeps its kernel id and index
   * and passed init(), the CRTCs come in index order, and in atomic mode
   * every kept CRTC has a primary plane.
   */
  lemma DiscoveryShape(atomic: bool, pool: seq<Plane>, crtcIds: seq<nat>, i: nat, crtcInitOk: nat -> bool)
    ensures var d := AssignCrtcs(atomic, pool, crtcIds, i, crtcInitOk);
            && (forall c :: c in d.crtcs ==> i <= c.index < |crtcIds| && c.id == crtcIds[c.index] && crtcInitOk(c.id))
            && (atomic ==> forall c :: c in d.crtcs ==> c.primaryPlane.Some?)
            && InIndexOrder(d.crtcs)
  {
    DiscoveryMembers(atomic, pool, crtcIds, i, crtcInitOk);
    DiscoveryOrder(atomic, pool, crtcIds, i, crtcInitOk);
  }

  /** The CRTCs discovery keeps, one by one. */
  lemma {:induction false} DiscoveryMembers(atomic: bool, pool: seq<Plane>, crtcIds: seq<nat>, i: nat, crtcInitOk: nat -> bool)
    ensures var d := AssignCrtcs(atomic, pool, crtcIds, i, crtcInitOk);
            && (forall c :: c in d.crtcs ==> i <= c.index < |crtcIds| && c.id == crtcIds[c.index] && crtcInitOk(c.id))
            && (atomic ==> forall c :: c in d.crtcs ==> c.primaryPlane.Some?)
    decreases |crtcIds| - i
  {
    if i < |crtcIds| {
      var primary := PickPrimary(pool, i, crtcIds[i], None);
      var pool' := if primary.Some? then RemoveOne(pool, primary.value) else pool;
      var next := if atomic && primary.None? then pool else pool';
      DiscoveryMembers(atomic, next, crtcIds, i + 1, crtcInitOk);
      var rest := AssignCrtcs(atomic, next, crtcIds, i + 1, crtcInitOk);
      var d := AssignCrtcs(atomic, pool, crtcIds, i, crtcInitOk);
      if !(atomic && primary.None?) && crtcInitOk(crtcIds[i]) {
        assert forall c :: c in d.crtcs ==> c == d.crtcs[0] || c in rest.crtcs;
      } else {
        assert d == rest;
      }
    }
  }

  /** The CRTCs come in strictly ascending index order. */
  predicate InIndexOrder(cs: seq<Crtc>)
  {
    forall j, k :: 0 <= j < k < |cs| ==> cs[j].index < cs[k].index
  }

  /** The CRTCs discovery keeps come in index order. */
  lemma {:induction false} DiscoveryOrder(atomic: bool, pool: seq<Plane>, crtcIds: seq<nat>, i: nat, crtcInitOk: nat -> bool)
    ensures InIndexOrder(AssignCrtcs(atomic, pool, crtcIds, i, crtcInitOk).crtcs)
    decreases |crtcIds| - i
  {
    if i < |crtcIds| {
      var primary := PickPrimary(pool, i, crtcIds[i], None);
      var pool' := if primary.Some? then RemoveOne(pool, primary.value) else pool;
      var next := if atomic && primary.None? then pool else pool';
      DiscoveryOrder(atomic, next, crtcIds, i + 1, crtcInitOk);
      var rest := AssignCrtcs(atomic, next, crtcIds, i + 1, crtcInitOk).crtcs;
      var d := AssignCrtcs(atomic, pool, crtcIds, i, crtcInitOk).crtcs;
      if !(atomic && primary.None?) && crtcInitOk(crtcIds[i]) {
        DiscoveryMembers(atomic, next, crtcIds, i + 1, crtcInitOk);
        assert d == [d[0]] + rest && d[0].index == i;
        forall j, k | 0 <= j < k < |d| ensures d[j].index < d[k].index {
          assert d[k] == rest[k - 1] && d[k] in rest;
          if j > 0 { assert d[j] == rest[j - 1]; }
        }
      } else {
        assert d == rest;
      }
    }
  }

  /** PickPrimary returns either its candidate or one of the planes it scans. */
  lemma {:induction false} PickKeeps(planes: seq<Plane>, index: nat, crtcId: nat, cand: Option<Plane>)
    ensures var r := PickPrimary(planes, index, crtcId, cand);
            r == cand || (r.Some? && r.value in planes && Eligible(r.value, index))
  {
    if planes != [] {
      var tl := planes[1..];
      var next := if Eligible(planes[0], index) then Some(planes[0]) else cand;
      PickKeeps(tl, index, crtcId, next);
    }
  }

  /**
   * The planes discovery hands out: each CRTC's primary plane came from the
   * pool and may drive that CRTC, no plane serves two CRTCs, and the planes
   * left over are a part of the pool.
   */
  lemma {:induction false} DiscoveryPlanes(atomic: bool, pool: seq<Plane>, crtcIds: seq<nat>, i: nat, crtcInitOk: nat -> bool)
    requires DistinctPlaneIds(pool)
    ensures var d := AssignCrtcs(atomic, pool, crtcIds, i, crtcInitOk);
            && (forall c :: c in d.crtcs && c.primaryPlane.Some? ==> HasPlane(pool, c.primaryPlane.value, c.index))
            && DistinctPrimaries(d.crtcs)
            && multiset(d.pool) <= multiset(pool)
            && DistinctPlaneIds(d.pool)
    decreases |crtcIds| - i
  {
    if i < |crtcIds| {
      var primary := PickPrimary(pool, i, crtcIds[i], None);
      PickKeeps(pool, i, crtcIds[i], None);
      if atomic && primary.None? {
        DiscoveryPlanes(atomic, pool, crtcIds, i + 1, crtcInitOk);
      } else {
        var pool' := if primary.Some? then RemoveOne(pool, primary.value) else pool;
        PoolShrinks(pool, primary);
        DiscoveryPlanes(atomic, pool', crtcIds, i + 1, crtcInitOk);
        var rest := AssignCrtcs(atomic, pool', crtcIds, i + 1, crtcInitOk);
        RestFromPool(pool, pool', rest.crtcs);
        if crtcInitOk(crtcIds[i]) {
          var d := AssignCrtcs(atomic, pool, crtcIds, i, crtcInitOk);
          assert d.crtcs == [d.crtcs[0]] + rest.crtcs;
          if primary.Some? {
            assert HasPlane(pool, primary.value.id, i);
          }
          forall c | c in rest.crtcs && c.primaryPlane.Some? && d.crtcs[0].primaryPlane.Some?
            ensures d.crtcs[0].primaryPlane != c.primaryPlane
          {
            var p :| p in pool' && p.id == c.primaryPlane.value && Eligible(p, c.index);
          }
          ConsDistinct(d.crtcs[0], rest.crtcs);
        }
      }
    }
  }

  /** No two CRTCs share a primary plane. */
  predicate DistinctPrimaries(cs: seq<Crtc>)
  {
    forall j, k :: 0 <= j < k < |cs| && cs[j].primaryPlane.Some? && cs[k].primaryPlane.Some?
      ==> cs[j].primaryPlane != cs[k].primaryPlane
  }

  lemma ConsDistinct(head: Crtc, rest: seq<Crtc>)
    requires DistinctPrimaries(rest)
    requires forall c :: c in rest && c.primaryPlane.Some? && head.primaryPlane.Some? ==> head.primaryPlane != c.primaryPlane
    ensures DistinctPrimaries([head] + rest)
  {
    var cs := [head] + rest;
    forall j, k | 0 <= j < k < |cs| && cs[j].primaryPlane.Some? && cs[k].primaryPlane.Some?
      ensures cs[j].primaryPlane != cs[k].primaryPlane
    {
      assert cs[k] == rest[k - 1];
      if j > 0 { assert cs[j] == rest[j - 1]; }
    }
  }

  /** A plane found in a part of the pool is found in the pool. */
  lemma RestFromPool(pool: seq<Plane>, pool': seq<Plane>, crtcs: seq<Crtc>)
    requires multiset(pool') <= multiset(pool)
    requires forall c :: c in crtcs && c.primaryPlane.Some? ==> HasPlane(pool', c.primaryPlane.value, c.index)
    ensures forall c :: c in crtcs && c.primaryPlane.Some? ==> HasPlane(pool, c.primaryPlane.value, c.index)
  {
    forall c | c in crtcs && c.primaryPlane.Some? ensures HasPlane(pool, c.primaryPlane.value, c.index) {
      var p :| p in pool' && p.id == c.primaryPlane.value && Eligible(p, c.index);
      assert p in multiset(pool');
      assert p in pool;
    }
  }

  /** Removing the chosen plane keeps plane ids distinct and drops that plane entirely. */
  lemma PoolShrinks(pool: seq<Plane>, primary: Option<Plane>)
    requires DistinctPlaneIds(pool)
    requires primary.Some? ==> primary.value in pool
    ensures var pool' := if primary.Some? then RemoveOne(pool, primary.value) else pool;
            && multiset(pool') <= multiset(pool)
            && DistinctPlaneIds(pool')
            && (primary.Some? ==> forall p :: p in pool' ==> p.id != primary.value.id)
  {
    if primary.Some? {
      var x := primary.value;
      var pool' := RemoveOne(pool, x);
      RemoveOneMultiset(pool, x);
      assert NoDup(pool) by {
        forall i, j | 0 <= i < j < |pool| ensures pool[i] != pool[j] { }
      }
      RemoveOneGone(pool, x);
      forall i, j | 0 <= i < j < |pool'| ensures pool'[i].id != pool'[j].id {
        SubPoolIds(pool, pool', i, j);
      }
      forall p | p in pool' ensures p.id != x.id {
        assert p in multiset(pool');
        assert p in pool;
        var a :| 0 <= a < |pool| && pool[a] == p;
        var b :| 0 <= b < |pool| && pool[b] == x;
        assert a != b;
      }
    }
  }

  lemma SubPoolIds(pool: seq<Plane>, sub: seq<Plane>, i: nat, j: nat)
    requires DistinctPlaneIds(pool) && NoDup(sub) && multiset(sub) <= multiset(pool)
    requires i < j < |sub|
    ensures sub[i].id != sub[j].id
  {
    assert sub[i] in multiset(sub) && sub[j] in multiset(sub);
    assert sub[i] in pool && sub[j] in pool;
    var a :| 0 <= a < |pool| && pool[a] == sub[i];
    var b :| 0 <= b < |pool| && pool[b] == sub[j];
    assert a != b;
  }

  /**
   * isFormatSupported. Legacy mode accepts only XRGB8888 and ARGB8888;
   * atomic mode accepts a format exactly when every primary plane lists it.
   */
  function IsFormatSupported(atomic: bool, planes: seq<Plane>, format: nat): (ok: bool)
    ensures !atomic ==> (ok <==> format == DRM_FORMAT_XRGB8888 || format == DRM_FORMAT_ARGB8888)
    ensures atomic ==> (ok <==> forall i :: 0 <= i < |planes| && planes[i].primary ==> format in planes[i].formats)
  {
    if !atomic then format == DRM_FORMAT_XRGB8888 || format == DRM_FORMAT_ARGB8888
    else PrimariesList(planes, format)
  }

  /** The loop over m_planes in isFormatSupported, which returns false at the first primary plane lacking the format. */
  function PrimariesList(planes: seq<Plane>, format: nat): (ok: bool)
    ensures ok <==> forall i :: 0 <= i < |planes| && planes[i].primary ==> format in planes[i].formats
  {
    if planes == [] then true
    else if planes[0].primary && format !in planes[0].formats then false
    else
      var ok := PrimariesList(planes[1..], format);
      assert forall i :: 1 <= i < |planes| ==> planes[i] == planes[1..][i - 1];
      ok
  }
}
