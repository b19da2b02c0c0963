// The backend-independent part of src/core/platform.cpp: applying an output
// configuration, looking outputs up by name, the ready flag, the monotonic
// millisecond clock and the fallbacks used when there is no input
// redirection.
module PlatformCore {
  import opened Common
  import opened OutputTypes
  import opened Outputs

  /** The indices of the change sets whose enabled flag is `want`, in platform order. */
  function Group(config: seq<OutputChangeSet>, want: bool): (r: seq<nat>)
    ensures forall k :: 0 <= k < |r| ==> r[k] < |config| && config[r[k]].enabled == want
    ensures forall i :: 0 <= i < |config| && config[i].enabled == want ==> i in r
    ensures forall p, q :: 0 <= p < q < |r| ==> r[p] < r[q]
  {
    if config == [] then []
    else
      var n := |config| - 1;
      var front := Group(config[..n], want);
      front + (if config[n].enabled == want then [n] else [])
  }

  /** The order applyOutputChanges applies the outputs in: the enabled ones, then the disabled ones. */
  function ApplicationOrder(config: seq<OutputChangeSet>): seq<nat>
  {
    Group(config, true) + Group(config, false)
  }

  /** Every output is applied exactly once. */
  lemma ApplicationOrderPermutation(config: seq<OutputChangeSet>)
    ensures NoDup(ApplicationOrder(config))
    ensures forall i :: i in ApplicationOrder(config) <==> 0 <= i < |config|
  {
    ApplicationOrderNoDup(config);
    ApplicationOrderCovers(config);
  }

  lemma ApplicationOrderNoDup(config: seq<OutputChangeSet>)
    ensures NoDup(ApplicationOrder(config))
  {
    var e, d := Group(config, true), Group(config, false);
    var order := e + d;
    forall p, q | 0 <= p < q < |order| ensures order[p] != order[q] {
      if q < |e| {
      } else if p >= |e| {
        assert order[p] == d[p - |e|] && order[q] == d[q - |e|];
      } else {
        assert config[order[p]].enabled && !config[order[q]].enabled;
      }
    }
  }

  lemma ApplicationOrderCovers(config: seq<OutputChangeSet>)
    ensures forall i :: i in ApplicationOrder(config) <==> 0 <= i < |config|
  {
    ApplicationOrderInRange(config);
    ApplicationOrderComplete(config);
  }

  lemma ApplicationOrderInRange(config: seq<OutputChangeSet>)
    ensures forall i :: i in ApplicationOrder(config) ==> 0 <= i < |config|
  {
    var e, d := Group(config, true), Group(config, false);
    var order := e + d;
    forall i | i in order ensures i < |config| {
      var k :| 0 <= k < |order| && order[k] == i;
      if k >= |e| {
        assert order[k] == d[k - |e|];
      }
    }
  }

  lemma ApplicationOrderComplete(config: seq<OutputChangeSet>)
    ensures forall i :: 0 <= i < |config| ==> i in ApplicationOrder(config)
  {
    var e, d := Group(config, true), Group(config, false);
    var order := e + d;
    forall i | 0 <= i < |config| ensures i in order {
      if config[i].enabled {
        var k :| 0 <= k < |e| && e[k] == i;
        assert order[k] == i;
      } else {
        var k :| 0 <= k < |d| && d[k] == i;
        assert order[|e| + k] == i;
      }
    }
  }

  /** No output marked disabled is applied before one marked enabled. */
  lemma ApplicationOrderEnabledFirst(config: seq<OutputChangeSet>)
    ensures var order := ApplicationOrder(config);
      forall p, q :: 0 <= p < q < |order| && order[q] < |config| && config[order[q]].enabled ==>
        order[p] < |config| && config[order[p]].enabled
  {
    var e, d := Group(config, true), Group(config, false);
    var order := e + d;
    forall p, q | 0 <= p < q < |order| && order[q] < |config| && config[order[q]].enabled
      ensures order[p] < |config| && config[order[p]].enabled
    {
      if p >= |e| {
        assert false;
      }
    }
  }

  /** Within each group, the platform order is kept. */
  lemma ApplicationOrderStable(config: seq<OutputChangeSet>)
    ensures var order := ApplicationOrder(config);
      forall p, q :: (0 <= p < q < |order| && order[p] < |config| && order[q] < |config|
        && config[order[p]].enabled == config[order[q]].enabled) ==> order[p] < order[q]
  {
    var e, d := Group(config, true), Group(config, false);
    var order := e + d;
    forall p, q | 0 <= p < q < |order| && order[p] < |config| && order[q] < |config|
      ensures config[order[p]].enabled == config[order[q]].enabled ==> order[p] < order[q]
    {
      if p >= |e| {
        assert order[p] == d[p - |e|] && order[q] == d[q - |e|];
      } else if q >= |e| {
        assert order[q] == d[q - |e|];
      }
    }
  }

  /** The first output with the given name. */
  function FindByName(outputs: seq<Output>, name: string): (r: Option<nat>)
    reads outputs
    ensures r.Some? ==> (r.value < |outputs| && outputs[r.value].name == name
      && forall j :: 0 <= j < r.value ==> outputs[j].name != name)
    ensures r.None? <==> forall j :: 0 <= j < |outputs| ==> outputs[j].name != name
  {
    if outputs == [] then None
    else if outputs[0].name == name then Some(0)
    else
      var r := FindByName(outputs[1..], name);
      if r.Some? then Some(r.value + 1) else None
  }

  const MONOTONIC_MODULUS: nat := 0x1_0000_0000

  /**
   * monotonicTime: milliseconds of a CLOCK_MONOTONIC reading, truncated to
   * quint32. The 64-bit product may wrap first, which does not change the
   * low 32 bits.
   */
  function MonotonicTime(sec: nat, nsec: nat): (t: nat)
    requires nsec < 1000000000
    ensures t < MONOTONIC_MODULUS
    ensures sec * 1000 + nsec / 1000000 < MONOTONIC_MODULUS ==> t == sec * 1000 + nsec / 1000000
  {
    (sec * 1000 + nsec / 1000000) % MONOTONIC_MODULUS
  }

  /** Two readings less than 2^32 ms apart: their wrapped difference is the elapsed time. */
  lemma MonotonicElapsed(sec1: nat, nsec1: nat, sec2: nat, nsec2: nat)
    requires nsec1 < 1000000000 && nsec2 < 1000000000
    requires var a, b := sec1 * 1000 + nsec1 / 1000000, sec2 * 1000 + nsec2 / 1000000;
      a <= b < a + MONOTONIC_MODULUS
    ensures (MonotonicTime(sec2, nsec2) - MonotonicTime(sec1, nsec1)) % MONOTONIC_MODULUS
         == (sec2 * 1000 + nsec2 / 1000000) - (sec1 * 1000 + nsec1 / 1000000)
  {
    var a, b := sec1 * 1000 + nsec1 / 1000000, sec2 * 1000 + nsec2 / 1000000;
    var qa, qb := a / MONOTONIC_MODULUS, b / MONOTONIC_MODULUS;
    assert a == qa * MONOTONIC_MODULUS + MonotonicTime(sec1, nsec1);
    assert b == qb * MONOTONIC_MODULUS + MonotonicTime(sec2, nsec2);
    var diff := MonotonicTime(sec2, nsec2) - MonotonicTime(sec1, nsec1);
    if qb == qa {
      assert diff == b - a;
    } else {
      assert qb == qa + 1 by {
        assert qb * MONOTONIC_MODULUS <= b < a + MONOTONIC_MODULUS < (qa + 2) * MONOTONIC_MODULUS;
        assert qb > qa;
      }
      assert diff == b - a - MONOTONIC_MODULUS;
    }
  }

  /** What Platform announces. */
  datatype PlatformSignal =
    | ReadyChanged(ready: bool)
      /** A window selection's callback was invoked with this window (None: null). */
    | WindowSelected(window: Option<nat>)
      /** A position selection's callback was invoked with this point. */
    | PositionSelected(position: Point)
      /** The selection was handed to the input redirection. */
    | SelectionStarted

  /** The invalid position handed to a position selection when there is no input. */
  const NO_POSITION := Point(-1, -1)

  /**
   * What applyOutputChanges works on, output by output: the settings each
   * output reports (its render loop's VRR policy included) and the signals
   * it has emitted.
   */
  datatype ApplyState = ApplyState(settings: seq<Settings>, events: seq<seq<OutputSignal>>)

  predicate Sized(st: ApplyState, n: nat)
  {
    |st.settings| == n && |st.events| == n
  }

  /**
   * applyChanges on output n as every output sees it: n's settings and
   * signals follow ApplySettings and ApplySignals, and an output sharing n's
   * render loop reports the VRR policy n left on it.
   */
  function ApplyStep(loops: seq<RenderLoop>, routes: seq<TransformRoute>, st: ApplyState, n: nat, props: OutputChangeSet): (r: ApplyState)
    requires Sized(st, |loops|) && |routes| == |loops| && n < |loops|
    ensures Sized(r, |loops|)
  {
    var s1 := ApplySettings(st.settings[n], props, routes[n]);
    ApplyState(
      seq(|loops|, i requires 0 <= i < |loops| =>
        if i == n then s1
        else if loops[i] == loops[n] then st.settings[i].(vrrPolicy := s1.vrrPolicy)
        else st.settings[i]),
      st.events[n := st.events[n] + ApplySignals(st.settings[n], props, routes[n])])
  }

  /** The outputs at `indices` applied in turn, each from its own change set. */
  function ApplyAll(loops: seq<RenderLoop>, routes: seq<TransformRoute>, st: ApplyState, indices: seq<nat>, config: seq<OutputChangeSet>): (r: ApplyState)
    requires Sized(st, |loops|) && |routes| == |loops| && |config| == |loops|
    requires forall k :: 0 <= k < |indices| ==> indices[k] < |loops|
    ensures Sized(r, |loops|)
    decreases |indices|
  {
    if indices == [] then st
    else ApplyAll(loops, routes, ApplyStep(loops, routes, st, indices[0], config[indices[0]]), indices[1..], config)
  }

  /** Applying two lists in turn is applying their concatenation. */
  lemma {:induction false} ApplyAllConcat(loops: seq<RenderLoop>, routes: seq<TransformRoute>, st: ApplyState,
                                          a: seq<nat>, b: seq<nat>, ab: seq<nat>, config: seq<OutputChangeSet>)
    requires Sized(st, |loops|) && |routes| == |loops| && |config| == |loops|
    requires ab == a + b
    requires forall k :: 0 <= k < |a| ==> a[k] < |loops|
    requires forall k :: 0 <= k < |b| ==> b[k] < |loops|
    requires forall k :: 0 <= k < |ab| ==> ab[k] < |loops|
    ensures ApplyAll(loops, routes, ApplyAll(loops, routes, st, a, config), b, config)
         == ApplyAll(loops, routes, st, ab, config)
    decreases |a|
  {
    if a == [] {
      assert ab == b;
    } else {
      var st1 := ApplyStep(loops, routes, st, a[0], config[a[0]]);
      assert ab[0] == a[0] && ab[1..] == a[1..] + b;
      ApplyAllConcat(loops, routes, st1, a[1..], b, ab[1..], config);
    }
  }

  /** The state after applying a, then b, is the state after applying a + b. */
  lemma ApplyInTurn(loops: seq<RenderLoop>, routes: seq<TransformRoute>, st: ApplyState,
                    a: seq<nat>, b: seq<nat>, config: seq<OutputChangeSet>, mid: ApplyState, last: ApplyState)
    requires Sized(st, |loops|) && |routes| == |loops| && |config| == |loops|
    requires forall k :: 0 <= k < |a| ==> a[k] < |loops|
    requires forall k :: 0 <= k < |b| ==> b[k] < |loops|
    requires mid == ApplyAll(loops, routes, st, a, config) && last == ApplyAll(loops, routes, mid, b, config)
    ensures last == ApplyAll(loops, routes, st, a + b, config)
  {
    ApplyAllConcat(loops, routes, st, a, b, a + b, config);
  }

  /** The render loops are pairwise distinct. */
  predicate LoopsDistinct(loops: seq<RenderLoop>)
  {
    forall a, b :: 0 <= a < b < |loops| ==> loops[a] != loops[b]
  }

  /** What one step does to output i: n's loop takes n's new policy, other loops' outputs keep their settings. */
  lemma StepOnLoop(loops: seq<RenderLoop>, routes: seq<TransformRoute>, st: ApplyState, n: nat, props: OutputChangeSet, i: nat)
    requires Sized(st, |loops|) && |routes| == |loops| && n < |loops| && i < |loops|
    ensures loops[i] == loops[n] ==>
              ApplyStep(loops, routes, st, n, props).settings[i].vrrPolicy == ApplySettings(st.settings[n], props, routes[n]).vrrPolicy
    ensures loops[i] != loops[n] ==> ApplyStep(loops, routes, st, n, props).settings[i] == st.settings[i]
    ensures i != n ==> ApplyStep(loops, routes, st, n, props).events[i] == st.events[i]
  {
  }

  /**
   * With a render loop per output, an output is applied from its own state
   * exactly when it is listed (once), and an output not listed keeps its
   * settings and signals.
   */
  lemma {:induction false} ApplyAllSeparate(loops: seq<RenderLoop>, routes: seq<TransformRoute>, st: ApplyState,
                                            indices: seq<nat>, config: seq<OutputChangeSet>, i: nat)
    requires Sized(st, |loops|) && |routes| == |loops| && |config| == |loops|
    requires forall k :: 0 <= k < |indices| ==> indices[k] < |loops|
    requires NoDup(indices) && LoopsDistinct(loops) && i < |loops|
    ensures ApplyAll(loops, routes, st, indices, config).settings[i]
         == if i in indices then ApplySettings(st.settings[i], config[i], routes[i]) else st.settings[i]
    ensures ApplyAll(loops, routes, st, indices, config).events[i]
         == if i in indices then st.events[i] + ApplySignals(st.settings[i], config[i], routes[i]) else st.events[i]
    decreases |indices|
  {
    if indices != [] {
      var n := indices[0];
      var st1 := ApplyStep(loops, routes, st, n, config[n]);
      assert indices == [n] + indices[1..];
      NoDupCons(n, indices[1..]);
      ApplyAllSeparate(loops, routes, st1, indices[1..], config, i);
      StepOnLoop(loops, routes, st, n, config[n], i);
    }
  }

  /**
   * With a render loop per output, applyOutputChanges leaves every output as
   * its own applyChanges call leaves it from the output's state before the
   * call: the enabled-first order makes no difference.
   */
  lemma ApplicationOrderSeparate(loops: seq<RenderLoop>, routes: seq<TransformRoute>, st: ApplyState,
                                 config: seq<OutputChangeSet>, i: nat)
    requires Sized(st, |loops|) && |routes| == |loops| && |config| == |loops|
    requires LoopsDistinct(loops) && i < |loops|
    ensures forall k :: 0 <= k < |ApplicationOrder(config)| ==> ApplicationOrder(config)[k] < |loops|
    ensures ApplyAll(loops, routes, st, ApplicationOrder(config), config).settings[i]
         == ApplySettings(st.settings[i], config[i], routes[i])
    ensures ApplyAll(loops, routes, st, ApplicationOrder(config), config).events[i]
         == st.events[i] + ApplySignals(st.settings[i], config[i], routes[i])
  {
    ApplicationOrderPermutation(config);
    var order := ApplicationOrder(config);
    assert forall k :: 0 <= k < |order| ==> order[k] in order;
    ApplyAllSeparate(loops, routes, st, order, config, i);
  }

  /** ApplicationOrderSeparate for every output at once. */
  lemma ApplicationOrderEach(loops: seq<RenderLoop>, routes: seq<TransformRoute>, st: ApplyState,
                             config: seq<OutputChangeSet>, last: ApplyState)
    requires Sized(st, |loops|) && |routes| == |loops| && |config| == |loops| && LoopsDistinct(loops)
    requires forall k :: 0 <= k < |ApplicationOrder(config)| ==> ApplicationOrder(config)[k] < |loops|
    requires last == ApplyAll(loops, routes, st, ApplicationOrder(config), config)
    ensures forall i :: 0 <= i < |loops| ==>
      && last.settings[i] == ApplySettings(st.settings[i], config[i], routes[i])
      && last.events[i] == st.events[i] + ApplySignals(st.settings[i], config[i], routes[i])
  {
    forall i | 0 <= i < |loops|
      ensures last.settings[i] == ApplySettings(st.settings[i], config[i], routes[i])
      ensures last.events[i] == st.events[i] + ApplySignals(st.settings[i], config[i], routes[i])
    {
      ApplicationOrderSeparate(loops, routes, st, config, i);
    }
  }

  /** applyChanges never changes an output's capabilities. */
  lemma {:induction false} ApplyAllKeepsCapabilities(loops: seq<RenderLoop>, routes: seq<TransformRoute>, st: ApplyState,
                                                     indices: seq<nat>, config: seq<OutputChangeSet>, i: nat)
    requires Sized(st, |loops|) && |routes| == |loops| && |config| == |loops|
    requires forall k :: 0 <= k < |indices| ==> indices[k] < |loops|
    requires i < |loops|
    ensures ApplyAll(loops, routes, st, indices, config).settings[i].capabilities == st.settings[i].capabilities
    decreases |indices|
  {
    if indices != [] {
      var st1 := ApplyStep(loops, routes, st, indices[0], config[indices[0]]);
      assert st1.settings[i].capabilities == st.settings[i].capabilities;
      ApplyAllKeepsCapabilities(loops, routes, st1, indices[1..], config, i);
    }
  }

  /** Applying only outputs on other render loops leaves output i's settings as they were. */
  lemma {:induction false} OtherLoopsKeep(loops: seq<RenderLoop>, routes: seq<TransformRoute>, st: ApplyState,
                                          indices: seq<nat>, config: seq<OutputChangeSet>, i: nat)
    requires Sized(st, |loops|) && |routes| == |loops| && |config| == |loops|
    requires forall k :: 0 <= k < |indices| ==> indices[k] < |loops|
    requires i < |loops| && forall k :: 0 <= k < |indices| ==> loops[indices[k]] != loops[i]
    ensures ApplyAll(loops, routes, st, indices, config).settings[i] == st.settings[i]
    decreases |indices|
  {
    if indices != [] {
      var st1 := ApplyStep(loops, routes, st, indices[0], config[indices[0]]);
      StepOnLoop(loops, routes, st, indices[0], config[indices[0]], i);
      OtherLoopsKeep(loops, routes, st1, indices[1..], config, i);
    }
  }

  /**
   * On a shared render loop the last output applied decides the VRR policy:
   * every output on that loop reports the policy that output's own
   * applyChanges left, which is the requested one when that output has the
   * Vrr capability.
   */
  lemma LastOnLoopDecides(loops: seq<RenderLoop>, routes: seq<TransformRoute>, st: ApplyState,
                          indices: seq<nat>, config: seq<OutputChangeSet>, m: nat, i: nat)
    requires Sized(st, |loops|) && |routes| == |loops| && |config| == |loops|
    requires forall k :: 0 <= k < |indices| ==> indices[k] < |loops|
    requires m < |indices| && i < |loops| && loops[i] == loops[indices[m]]
    requires forall k :: m < k < |indices| ==> loops[indices[k]] != loops[i]
    ensures ApplyAll(loops, routes, st, indices, config).settings[i].vrrPolicy
         == ApplySettings(ApplyAll(loops, routes, st, indices[..m], config).settings[indices[m]],
                          config[indices[m]], routes[indices[m]]).vrrPolicy
    ensures VrrCapability in st.settings[indices[m]].capabilities ==>
              ApplyAll(loops, routes, st, indices, config).settings[i].vrrPolicy == config[indices[m]].vrrPolicy
  {
    LastOnLoopFrom(loops, routes, st, indices, config, m, i, indices[..m]);
    ApplyAllKeepsCapabilities(loops, routes, st, indices[..m], config, indices[m]);
  }

  /** The first half of LastOnLoopDecides, by induction on the applied indices; pre is indices[..m]. */
  lemma {:induction false} LastOnLoopFrom(loops: seq<RenderLoop>, routes: seq<TransformRoute>, st: ApplyState,
                                          indices: seq<nat>, config: seq<OutputChangeSet>, m: nat, i: nat, pre: seq<nat>)
    requires Sized(st, |loops|) && |routes| == |loops| && |config| == |loops|
    requires forall k :: 0 <= k < |indices| ==> indices[k] < |loops|
    requires m < |indices| && i < |loops| && loops[i] == loops[indices[m]]
    requires forall k :: m < k < |indices| ==> loops[indices[k]] != loops[i]
    requires pre == indices[..m]
    ensures ApplyAll(loops, routes, st, indices, config).settings[i].vrrPolicy
         == ApplySettings(ApplyAll(loops, routes, st, pre, config).settings[indices[m]],
                          config[indices[m]], routes[indices[m]]).vrrPolicy
    decreases |indices|
  {
    var n, rest := indices[0], indices[1..];
    var st1 := ApplyStep(loops, routes, st, n, config[n]);
    if m == 0 {
      StepOnLoop(loops, routes, st, n, config[n], i);
      OtherLoopsKeep(loops, routes, st1, rest, config, i);
    } else {
      assert forall k :: 0 <= k < |rest| ==> rest[k] == indices[k + 1];
      assert pre[0] == n && pre[1..] == rest[..m - 1];
      LastOnLoopFrom(loops, routes, st1, rest, config, m - 1, i, pre[1..]);
    }
  }

  class Platform {
    /** The backend's outputs, in its order. */
    const outputs: seq<Output>
    var ready: bool
    var events: seq<PlatformSignal>
    /** The indices of the outputs applyChanges was called on, in call order. */
    var applied: seq<nat>

    constructor(outputs: seq<Output>)
      ensures this.outputs == outputs && !ready && events == [] && applied == []
    {
      this.outputs := outputs;
      ready := false;
      events := [];
      applied := [];
    }

    /** The outputs are distinct objects. */
    predicate OutputsDistinct()
    {
      forall i, j :: 0 <= i < j < |outputs| ==> outputs[i] != outputs[j]
    }

    /** The outputs' render loops, in platform order. */
    function Loops(): (r: seq<RenderLoop>)
      ensures |r| == |outputs| && forall i :: 0 <= i < |outputs| ==> r[i] == outputs[i].renderLoop
    {
      var os := outputs;
      seq(|os|, i requires 0 <= i < |os| => os[i].renderLoop)
    }

    /** The outputs' transform routes, in platform order. */
    function Routes(): (r: seq<TransformRoute>)
      ensures |r| == |outputs| && forall i :: 0 <= i < |outputs| ==> r[i] == outputs[i].route
    {
      var os := outputs;
      seq(|os|, i requires 0 <= i < |os| => os[i].route)
    }

    /** Every output's current settings and signal log. */
    function Snapshot(): (st: ApplyState)
      reads outputs, Loops()
      ensures Sized(st, |outputs|)
      ensures forall i :: 0 <= i < |outputs| ==>
        st.settings[i] == outputs[i].CurrentSettings() && st.events[i] == outputs[i].events
    {
      var os, ls := outputs, Loops();
      ApplyState(
        seq(|os|, i requires 0 <= i < |os| reads os, ls => os[i].CurrentSettings()),
        seq(|os|, i requires 0 <= i < |os| reads os => os[i].events))
    }

    /** findOutput by name. */
    function FindOutput(name: string): (r: Option<Output>)
      reads outputs
      ensures r.Some? <==> exists j :: 0 <= j < |outputs| && outputs[j].name == name
      ensures r.Some? ==> r.value in outputs && r.value.name == name
    {
      var i := FindByName(outputs, name);
      if i.Some? then Some(outputs[i.value]) else None
    }

    /** setReady: readyChanged only on an actual change. */
    method SetReady(r: bool)
      modifies this`ready, this`events
      ensures ready == r
      ensures events == old(events) + (if old(ready) != r then [ReadyChanged(r)] else [])
    {
      if ready == r {
        return;
      }
      ready := r;
      events := events + [ReadyChanged(ready)];
    }

    /** startInteractiveWindowSelection: without input the callback gets null at once. */
    method StartInteractiveWindowSelection(hasInput: bool)
      modifies this`events
      ensures events == old(events) + [if hasInput then SelectionStarted else WindowSelected(None)]
    {
      if !hasInput {
        events := events + [WindowSelected(None)];
        return;
      }
      events := events + [SelectionStarted];
    }

    /** startInteractivePositionSelection: without input the callback gets (-1, -1) at once. */
    method StartInteractivePositionSelection(hasInput: bool)
      modifies this`events
      ensures events == old(events) + [if hasInput then SelectionStarted else PositionSelected(NO_POSITION)]
    {
      if !hasInput {
        events := events + [PositionSelected(NO_POSITION)];
        return;
      }
      events := events + [SelectionStarted];
    }

    /**
     * applyOutputChanges: splits the outputs by their enabled flag in the
     * configuration, applies the enabled ones, then the disabled ones, and
     * reports success. Outputs may share a render loop; with a loop per
     * output, each output ends as applyChanges leaves it from its own state.
     */
    method ApplyOutputChanges(config: seq<OutputChangeSet>) returns (ok: bool)
      requires |config| == |outputs| && OutputsDistinct()
      modifies this`applied, set o | o in outputs, set o | o in outputs :: o.renderLoop
      ensures ok && applied == old(applied) + ApplicationOrder(config)
      ensures Snapshot() == ApplyAll(Loops(), Routes(), old(Snapshot()), ApplicationOrder(config), config)
      ensures LoopsDistinct(Loops()) ==> forall i :: 0 <= i < |outputs| ==>
        && outputs[i].CurrentSettings() == ApplySettings(old(outputs[i].CurrentSettings()), config[i], outputs[i].route)
        && outputs[i].events == old(outputs[i].events) + ApplySignals(old(outputs[i].CurrentSettings()), config[i], outputs[i].route)
    {
      ghost var s0 := Snapshot();
      var toBeEnabled, toBeDisabled := Partition(config);
      ApplyGroups(toBeEnabled, toBeDisabled, config);
      if LoopsDistinct(Loops()) {
        ghost var s1, rs := Snapshot(), Routes();
        ApplicationOrderEach(Loops(), rs, s0, config, s1);
        forall i | 0 <= i < |outputs|
          ensures outputs[i].CurrentSettings() == ApplySettings(s0.settings[i], config[i], outputs[i].route)
          ensures outputs[i].events == s0.events[i] + ApplySignals(s0.settings[i], config[i], outputs[i].route)
        {
          assert s1.settings[i] == outputs[i].CurrentSettings() && s1.events[i] == outputs[i].events;
          assert rs[i] == outputs[i].route;
        }
      }
      ok := true;
    }

    /** The first loop of applyOutputChanges: the indices to enable and those to disable. */
    static method Partition(config: seq<OutputChangeSet>) returns (toBeEnabled: seq<nat>, toBeDisabled: seq<nat>)
      ensures toBeEnabled == Group(config, true) && toBeDisabled == Group(config, false)
    {
      toBeEnabled, toBeDisabled := [], [];
      for i := 0 to |config|
        invariant toBeEnabled == Group(config[..i], true) && toBeDisabled == Group(config[..i], false)
      {
        assert config[..i + 1][..i] == config[..i];
        if config[i].enabled {
          toBeEnabled := toBeEnabled + [i];
        } else {
          toBeDisabled := toBeDisabled + [i];
        }
      }
      assert config[..|config|] == config;
    }

    /** The two loops of applyOutputChanges: the outputs to enable, then those to disable. */
    method ApplyGroups(toBeEnabled: seq<nat>, toBeDisabled: seq<nat>, config: seq<OutputChangeSet>)
      requires |config| == |outputs| && OutputsDistinct()
      requires forall k :: 0 <= k < |toBeEnabled| ==> toBeEnabled[k] < |outputs|
      requires forall k :: 0 <= k < |toBeDisabled| ==> toBeDisabled[k] < |outputs|
      modifies this`applied, set o | o in outputs, set o | o in outputs :: o.renderLoop
      ensures applied == old(applied) + (toBeEnabled + toBeDisabled)
      ensures Snapshot() == ApplyAll(Loops(), Routes(), old(Snapshot()), toBeEnabled + toBeDisabled, config)
    {
      ghost var s0 := Snapshot();
      ApplyEach(toBeEnabled, config);
      ghost var s1 := Snapshot();
      ApplyEach(toBeDisabled, config);
      SeqAssoc(old(applied), toBeEnabled, toBeDisabled);
      ApplyInTurn(Loops(), Routes(), s0, toBeEnabled, toBeDisabled, config, s1, Snapshot());
    }

    /** Applies the given outputs' change sets in turn, logging each index. */
    method ApplyEach(indices: seq<nat>, config: seq<OutputChangeSet>)
      requires |config| == |outputs| && OutputsDistinct()
      requires forall k :: 0 <= k < |indices| ==> indices[k] < |outputs|
      modifies this`applied, set o | o in outputs, set o | o in outputs :: o.renderLoop
      ensures applied == old(applied) + indices
      ensures Snapshot() == ApplyAll(Loops(), Routes(), old(Snapshot()), indices, config)
    {
      ghost var goal := ApplyAll(Loops(), Routes(), Snapshot(), indices, config);
      for k := 0 to |indices|
        invariant applied + indices[k..] == old(applied) + indices
        invariant ApplyAll(Loops(), Routes(), Snapshot(), indices[k..], config) == goal
      {
        var n := indices[k];
        assert indices[k..] == [n] + indices[k + 1..];
        label pre:
        ApplyOne(n, config[n]);
        SeqAssoc(old@pre(applied), [n], indices[k + 1..]);
      }
    }

    /** One applyChanges call of applyOutputChanges, as every output sees it. */
    method ApplyOne(n: nat, props: OutputChangeSet)
      requires n < |outputs| && OutputsDistinct()
      modifies this`applied, outputs[n], outputs[n].renderLoop
      ensures applied == old(applied) + [n]
      ensures Snapshot() == ApplyStep(Loops(), Routes(), old(Snapshot()), n, props)
    {
      ghost var before := Snapshot();
      outputs[n].ApplyChanges(props);
      applied := applied + [n];
      ghost var after := ApplyStep(Loops(), Routes(), before, n, props);
      forall i | 0 <= i < |outputs|
        ensures outputs[i].CurrentSettings() == after.settings[i]
        ensures outputs[i].events == after.events[i]
      {
        if i != n {
          assert outputs[i] != outputs[n];
        }
      }
      assert Snapshot().settings == after.settings;
      assert Snapshot().events == after.events;
    }
  }
}
