// The connector half of DrmGpu::updateOutputs: the scan of the kernel's
// connector ids against m_connectors (hot-plug add and remove), and the
// removal of connectors that disappeared or were disconnected.
module DrmReconcile {
  import opened Common
  import opened DrmObjects

  /** m_connectors and the ids still in removedConnectors while the scan runs. */
  datatype ScanState = ScanState(conns: seq<Connector>, removed: seq<nat>)

  /** The position of the first tracked connector with this id (the std::find_if). */
  function IndexOfConnector(cs: seq<Connector>, id: nat): (k: Option<nat>)
    ensures k.Some? ==> k.value < |cs| && cs[k.value].id == id && forall j :: 0 <= j < k.value ==> cs[j].id != id
    ensures k.None? ==> forall j :: 0 <= j < |cs| ==> cs[j].id != id
  {
    if cs == [] then None
    else if cs[0].id == id then Some(0)
    else
      var k := IndexOfConnector(cs[1..], id);
      if k.Some? then Some(k.value + 1) else None
  }

  /** DrmConnector::updateProperties: re-read the connector's properties. */
  function Refresh(c: Connector, p: ConnectorProbe): Connector
  {
    Connector(c.id, p.connected, p.encoders, p.nonDesktop, p.crtcHint)
  }

  /**
   * One iteration of the scan for kernel connector id `id`: an unknown id
   * becomes a tracked connector only if init() succeeds and it is
   * connected; a known one is refreshed and, if connected, is no longer
   * scheduled for removal.
   */
  function ScanStep(st: ScanState, id: nat, probe: nat -> ConnectorProbe): ScanState
  {
    var k := IndexOfConnector(st.conns, id);
    if k.None? then
      var p := probe(id);
      if p.initOk && p.connected then st.(conns := st.conns + [Connector(id, true, p.encoders, p.nonDesktop, p.crtcHint)])
      else st
    else
      var c := Refresh(st.conns[k.value], probe(id));
      st.(conns := st.conns[k.value := c], removed := if c.connected then RemoveOne(st.removed, id) else st.removed)
  }

  /** The scan over the kernel's connector ids, left to right. */
  function ScanAll(st: ScanState, ids: seq<nat>, probe: nat -> ConnectorProbe): ScanState
    decreases |ids|
  {
    if ids == [] then st else ScanAll(ScanStep(st, ids[0], probe), ids[1..], probe)
  }

  /** m_connectors.removeOne for the connector with this id. */
  function RemoveConnector(cs: seq<Connector>, id: nat): (r: seq<Connector>)
    ensures |r| <= |cs|
  {
    if cs == [] then []
    else if cs[0].id == id then cs[1..]
    else [cs[0]] + RemoveConnector(cs[1..], id)
  }

  /** The removal loop over removedConnectors. */
  function RemoveConnectors(cs: seq<Connector>, ids: seq<nat>): seq<Connector>
    decreases |ids|
  {
    if ids == [] then cs else RemoveConnectors(RemoveConnector(cs, ids[0]), ids[1..])
  }

  /** The connectors tracked after reconciliation against the kernel's connector ids. */
  function Reconciled(old_: seq<Connector>, resIds: seq<nat>, probe: nat -> ConnectorProbe): seq<Connector>
  {
    var st := ScanAll(ScanState(old_, Ids(old_)), resIds, probe);
    RemoveConnectors(st.conns, st.removed)
  }

  /** The scan's running invariant after the ids in `done` were processed. */
  ghost predicate ScanInv(st: ScanState, old_: seq<Connector>, done: seq<nat>, probe: nat -> ConnectorProbe)
  {
    ScanInvConns(st, old_, done, probe) && ScanInvRemoved(st, old_, done, probe)
  }

  /** What the scan keeps true of the tracked connectors. */
  ghost predicate ScanInvConns(st: ScanState, old_: seq<Connector>, done: seq<nat>, probe: nat -> ConnectorProbe)
  {
    && NoDup(Ids(st.conns))
    && (forall c :: c in st.conns ==> c.id in Ids(old_) || (c.id in done && c.connected && probe(c.id).initOk))
    && (forall c :: c in st.conns && c.id in done ==> c.connected == probe(c.id).connected)
    && (forall id :: id in done && probe(id).connected && (id in Ids(old_) || probe(id).initOk) ==> id in Ids(st.conns))
    && (forall id :: id in Ids(old_) ==> id in Ids(st.conns))
  }

  /** What the scan keeps true of the ids scheduled for removal. */
  ghost predicate ScanInvRemoved(st: ScanState, old_: seq<Connector>, done: seq<nat>, probe: nat -> ConnectorProbe)
  {
    && NoDup(st.removed)
    && (forall id :: id in st.removed ==> id in Ids(old_))
    && (forall c :: c in st.conns && c.id in done && c.connected && c.id in Ids(old_) ==> c.id !in st.removed)
    && (forall id :: id in Ids(old_) && id !in done ==> id in st.removed)
    && (forall id :: id in Ids(old_) && !probe(id).connected ==> id in st.removed)
  }

  lemma ScanStepInv(st: ScanState, old_: seq<Connector>, done: seq<nat>, id: nat, probe: nat -> ConnectorProbe)
    requires ScanInv(st, old_, done, probe)
    ensures ScanInv(ScanStep(st, id, probe), old_, done + [id], probe)
  {
    if IndexOfConnector(st.conns, id).None? {
      ScanStepNewConns(st, old_, done, id, probe);
      ScanStepNewRemoved(st, old_, done, id, probe);
    } else {
      ScanStepKnownConns(st, old_, done, id, probe);
      ScanStepKnownRemoved(st, old_, done, id, probe);
    }
  }

  /** The scan step for an id not yet tracked, as far as the tracked connectors go. */
  lemma ScanStepNewConns(st: ScanState, old_: seq<Connector>, done: seq<nat>, id: nat, probe: nat -> ConnectorProbe)
    requires ScanInvConns(st, old_, done, probe)
    requires IndexOfConnector(st.conns, id).None?
    ensures ScanInvConns(ScanStep(st, id, probe), old_, done + [id], probe)
  {
    var p := probe(id);
    assert id !in Ids(st.conns);
    if p.initOk && p.connected {
      var c := Connector(id, true, p.encoders, p.nonDesktop, p.crtcHint);
      assert ScanStep(st, id, probe).conns == st.conns + [c];
      IdsAppend(st.conns, c);
      NoDupSnoc(Ids(st.conns), id);
    }
  }

  /** The id list of a list grown at its end. */
  lemma IdsAppend(cs: seq<Connector>, c: Connector)
    ensures Ids(cs + [c]) == Ids(cs) + [c.id]
  {
  }

  /** The scan step for an id not yet tracked, as far as the removal schedule goes. */
  lemma ScanStepNewRemoved(st: ScanState, old_: seq<Connector>, done: seq<nat>, id: nat, probe: nat -> ConnectorProbe)
    requires ScanInv(st, old_, done, probe)
    requires IndexOfConnector(st.conns, id).None?
    ensures ScanInvRemoved(ScanStep(st, id, probe), old_, done + [id], probe)
  {
    var st' := ScanStep(st, id, probe);
    var p := probe(id);
    assert id !in Ids(st.conns);
    assert id !in Ids(old_);
    if p.initOk && p.connected {
      var c := Connector(id, true, p.encoders, p.nonDesktop, p.crtcHint);
      assert st'.conns == st.conns + [c];
    }
  }

  /** The scan step for a tracked id, as far as the tracked connectors go. */
  lemma ScanStepKnownConns(st: ScanState, old_: seq<Connector>, done: seq<nat>, id: nat, probe: nat -> ConnectorProbe)
    requires ScanInvConns(st, old_, done, probe)
    requires IndexOfConnector(st.conns, id).Some?
    ensures ScanInvConns(ScanStep(st, id, probe), old_, done + [id], probe)
  {
    var i := IndexOfConnector(st.conns, id).value;
    var c := Refresh(st.conns[i], probe(id));
    assert ScanStep(st, id, probe).conns == st.conns[i := c];
    IdsUpdate(st.conns, i, c);
    KnownConnsOrigin(st, old_, done, id, probe);
    KnownConnsState(st, old_, done, id, probe);
  }

  /** After refreshing a tracked connector, every tracked connector is old or newly initialised. */
  lemma KnownConnsOrigin(st: ScanState, old_: seq<Connector>, done: seq<nat>, id: nat, probe: nat -> ConnectorProbe)
    requires ScanInvConns(st, old_, done, probe)
    requires IndexOfConnector(st.conns, id).Some?
    ensures var st' := ScanStep(st, id, probe);
            forall x :: x in st'.conns ==> x.id in Ids(old_) || (x.id in done + [id] && x.connected && probe(x.id).initOk)
  {
    var st' := ScanStep(st, id, probe);
    var i := IndexOfConnector(st.conns, id).value;
    var c := Refresh(st.conns[i], probe(id));
    assert st'.conns == st.conns[i := c];
    forall x | x in st'.conns ensures x.id in Ids(old_) || (x.id in done + [id] && x.connected && probe(x.id).initOk) {
      var j :| 0 <= j < |st'.conns| && st'.conns[j] == x;
      if j != i { assert x in st.conns; }
      else if st.conns[i].id !in Ids(old_) {
        assert st.conns[i] in st.conns;
      }
    }
  }

  /** After refreshing a tracked connector, every scanned connector's state is the kernel's. */
  lemma KnownConnsState(st: ScanState, old_: seq<Connector>, done: seq<nat>, id: nat, probe: nat -> ConnectorProbe)
    requires ScanInvConns(st, old_, done, probe)
    requires IndexOfConnector(st.conns, id).Some?
    ensures var st' := ScanStep(st, id, probe);
            forall x :: x in st'.conns && x.id in done + [id] ==> x.connected == probe(x.id).connected
  {
    var st' := ScanStep(st, id, probe);
    var i := IndexOfConnector(st.conns, id).value;
    var c := Refresh(st.conns[i], probe(id));
    assert st'.conns == st.conns[i := c];
    forall x | x in st'.conns && x.id in done + [id] ensures x.connected == probe(x.id).connected {
      var j :| 0 <= j < |st'.conns| && st'.conns[j] == x;
      if j != i { assert x in st.conns; assert x.id != id; }
    }
  }

  /** Replacing a connector by one with the same id keeps the id list. */
  lemma IdsUpdate(cs: seq<Connector>, i: nat, c: Connector)
    requires i < |cs| && c.id == cs[i].id
    ensures Ids(cs[i := c]) == Ids(cs)
  {
  }

  /** The scan step for a tracked id, as far as the removal schedule goes. */
  lemma ScanStepKnownRemoved(st: ScanState, old_: seq<Connector>, done: seq<nat>, id: nat, probe: nat -> ConnectorProbe)
    requires ScanInv(st, old_, done, probe)
    requires IndexOfConnector(st.conns, id).Some?
    ensures ScanInvRemoved(ScanStep(st, id, probe), old_, done + [id], probe)
  {
    var st' := ScanStep(st, id, probe);
    var done' := done + [id];
    var i := IndexOfConnector(st.conns, id).value;
    var c := Refresh(st.conns[i], probe(id));
    assert st'.conns == st.conns[i := c];
    if c.connected {
      RemoveOneGone(st.removed, id);
      SubsetOfRemoved(st.removed, id);
    }
    forall x | x in st'.conns && x.id in done' && x.connected && x.id in Ids(old_) ensures x.id !in st'.removed {
      var j :| 0 <= j < |st'.conns| && st'.conns[j] == x;
      if j != i { assert x in st.conns; assert x.id != id; }
    }
  }

  lemma SubsetOfRemoved(s: seq<nat>, x: nat)
    ensures forall y :: y in RemoveOne(s, x) ==> y in s
  {
    RemoveOneMultiset(s, x);
    forall y | y in RemoveOne(s, x) ensures y in s {
      assert y in multiset(RemoveOne(s, x));
    }
  }

  lemma {:induction false} ScanAllInv(st: ScanState, old_: seq<Connector>, done: seq<nat>, ids: seq<nat>, probe: nat -> ConnectorProbe)
    requires ScanInv(st, old_, done, probe)
    ensures ScanInv(ScanAll(st, ids, probe), old_, done + ids, probe)
    decreases |ids|
  {
    if ids != [] {
      ScanStepInv(st, old_, done, ids[0], probe);
      ScanAllInv(ScanStep(st, ids[0], probe), old_, done + [ids[0]], ids[1..], probe);
      assert done + [ids[0]] + ids[1..] == done + ids;
    }
  }

  /** Removing connectors by id from a list with distinct ids keeps exactly the others. */
  lemma {:induction false} RemoveConnectorsKeeps(cs: seq<Connector>, ids: seq<nat>)
    requires NoDup(Ids(cs))
    ensures NoDup(Ids(RemoveConnectors(cs, ids)))
    ensures forall c :: c in RemoveConnectors(cs, ids) <==> c in cs && c.id !in ids
    decreases |ids|
  {
    if ids != [] {
      RemoveConnectorKeeps(cs, ids[0]);
      RemoveConnectorsKeeps(RemoveConnector(cs, ids[0]), ids[1..]);
    }
  }

  lemma {:induction false} RemoveConnectorKeeps(cs: seq<Connector>, id: nat)
    requires NoDup(Ids(cs))
    ensures NoDup(Ids(RemoveConnector(cs, id)))
    ensures forall c :: c in RemoveConnector(cs, id) <==> c in cs && c.id != id
  {
    RemoveConnectorMembers(cs, id);
    if cs != [] {
      IdsTail(cs);
      if cs[0].id != id {
        RemoveConnectorKeeps(cs[1..], id);
        var t := RemoveConnector(cs[1..], id);
        NotInIds(t, cs[0].id);
        NoDupCons(cs[0].id, Ids(t));
        assert Ids(RemoveConnector(cs, id)) == [cs[0].id] + Ids(t);
      }
    }
  }

  /** An id no connector of the list carries is not in its id list. */
  lemma NotInIds(cs: seq<Connector>, x: nat)
    requires forall c :: c in cs ==> c.id != x
    ensures x !in Ids(cs)
  {
    forall j | 0 <= j < |cs| ensures Ids(cs)[j] != x {
      assert cs[j] in cs;
    }
  }

  /** Removal by id only drops elements, and drops none with another id. */
  lemma {:induction false} RemoveConnectorMembers(cs: seq<Connector>, id: nat)
    ensures forall c :: c in RemoveConnector(cs, id) ==> c in cs
    ensures forall c :: c in cs && c.id != id ==> c in RemoveConnector(cs, id)
  {
    if cs != [] {
      assert cs == [cs[0]] + cs[1..];
      if cs[0].id != id {
        RemoveConnectorMembers(cs[1..], id);
      }
    }
  }

  /** With distinct ids, the tail has distinct ids and none of them is the head's. */
  lemma IdsTail(cs: seq<Connector>)
    requires NoDup(Ids(cs)) && cs != []
    ensures NoDup(Ids(cs[1..]))
    ensures forall c :: c in cs[1..] ==> c.id != cs[0].id
  {
    var a := Ids(cs[1..]);
    forall i, j | 0 <= i < j < |a| ensures a[i] != a[j] {
      assert a[i] == Ids(cs)[i + 1] && a[j] == Ids(cs)[j + 1];
    }
    forall c | c in cs[1..] ensures c.id != cs[0].id {
      var j :| 0 <= j < |cs[1..]| && cs[1..][j] == c;
      assert Ids(cs)[j + 1] == c.id;
    }
  }

  /**
   * Connector reconciliation ends with a clean list: every tracked
   * connector is connected and reported by the kernel; ids stay distinct;
   * a connector that was not tracked before is kept only if its init()
   * succeeded; and every reported connected connector that is tracked or
   * initialises is tracked.
   */
  lemma ReconciledClean(old_: seq<Connector>, resIds: seq<nat>, probe: nat -> ConnectorProbe)
    requires NoDup(Ids(old_))
    ensures var r := Reconciled(old_, resIds, probe);
            && NoDup(Ids(r))
            && (forall c :: c in r ==> c.connected && c.id in resIds)
            && (forall c :: c in r && c.id !in Ids(old_) ==> probe(c.id).initOk)
            && (forall id :: id in resIds && probe(id).connected && (id in Ids(old_) || probe(id).initOk) ==> id in Ids(r))
  {
    var st0 := ScanState(old_, Ids(old_));
    assert ScanInv(st0, old_, [], probe);
    ScanAllInv(st0, old_, [], resIds, probe);
    assert [] + resIds == resIds;
    var st := ScanAll(st0, resIds, probe);
    RemoveConnectorsKeeps(st.conns, st.removed);
    CleanConnected(st, old_, resIds, probe);
    CleanComplete(st, old_, resIds, probe);
  }

  /** After the scan and the removals, every connector left is connected, reported, and initialised if new. */
  lemma CleanConnected(st: ScanState, old_: seq<Connector>, resIds: seq<nat>, probe: nat -> ConnectorProbe)
    requires ScanInv(st, old_, resIds, probe)
    ensures var r := RemoveConnectors(st.conns, st.removed);
            && (forall c :: c in r ==> c.connected && c.id in resIds)
            && (forall c :: c in r && c.id !in Ids(old_) ==> probe(c.id).initOk)
  {
    RemoveConnectorsKeeps(st.conns, st.removed);
    var r := RemoveConnectors(st.conns, st.removed);
    forall c | c in r ensures c.connected && c.id in resIds {
      assert c in st.conns && c.id !in st.removed;
    }
  }

  /** After the scan and the removals, every reported connected connector that is tracked or initialises is left. */
  lemma CleanComplete(st: ScanState, old_: seq<Connector>, resIds: seq<nat>, probe: nat -> ConnectorProbe)
    requires ScanInv(st, old_, resIds, probe)
    ensures var r := RemoveConnectors(st.conns, st.removed);
            forall id :: id in resIds && probe(id).connected && (id in Ids(old_) || probe(id).initOk) ==> id in Ids(r)
  {
    RemoveConnectorsKeeps(st.conns, st.removed);
    var r := RemoveConnectors(st.conns, st.removed);
    forall id | id in resIds && probe(id).connected && (id in Ids(old_) || probe(id).initOk) ensures id in Ids(r) {
      var j :| 0 <= j < |st.conns| && Ids(st.conns)[j] == id;
      assert st.conns[j] in st.conns;
      assert st.conns[j] in r;
      var j' :| 0 <= j' < |r| && r[j'] == st.conns[j];
      assert Ids(r)[j'] == id;
    }
  }
}
