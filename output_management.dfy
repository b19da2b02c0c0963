// The kde_output_configuration_v2 requests of
// src/wayland/outputmanagement_v2_interface.cpp: a client collects pending
// changes per output device and applies them once. Devices and the mode
// resources a client names are ids; the platform's outputs are given to
// apply as a value snapshot in platform order.
module OutputManagement {
  import opened Common
  import opened OutputTypes
  import opened Outputs

  /**
   * OutputChangeSetV2: what a client asked for one device. A fresh change
   * set starts from the device's current state.
   */
  datatype ChangeSetV2 = ChangeSetV2(
    enabled: bool, size: Size, refreshRate: int, transform: Transform, position: Point,
    scale: real, overscan: nat, vrrPolicy: VrrPolicy, rgbRange: RgbRange)

  /** An OutputDeviceModeV2Interface resource: the mode's size and refresh rate. */
  datatype DeviceMode = DeviceMode(size: Size, refreshRate: int)

  /**
   * A platform output as apply sees it: its uuid, its modes, and the change
   * set OutputConfiguration gives it when the client did not touch it.
   */
  datatype PlatformOutput = PlatformOutput(uuid: Uuid, modes: seq<Mode>, current: OutputChangeSet)

  /** What the client is told. */
  datatype Reply = Applied | Failed | ErrorAlreadyApplied

  /** The wl_output.transform values 0..7 (normal, 90, 180, 270, flipped, flipped_90, flipped_180, flipped_270). */
  function ToTransform(value: int): (t: Transform)
    ensures 0 <= value < 8 ==> TransformOrdinal(t) == value
    ensures !(0 <= value < 8) ==> t == Normal
  {
    if 0 <= value < 8 then TransformFromOrdinal(value) else Normal
  }

  /** A wl_fixed_t is a 24.8 fixed-point number. */
  function FixedToReal(f: int): real
  {
    f as real / 256.0
  }

  /** wl_fixed_to_double(f) <= 0 exactly when the raw value is <= 0. */
  lemma FixedSign(f: int)
    ensures FixedToReal(f) <= 0.0 <==> f <= 0
  {
  }

  /** findOutput by uuid: the first platform output with this uuid. */
  function FindByUuid(outputs: seq<PlatformOutput>, uuid: Uuid): (r: Option<nat>)
    ensures r.Some? ==> (r.value < |outputs| && outputs[r.value].uuid == uuid
      && forall j :: 0 <= j < r.value ==> outputs[j].uuid != uuid)
    ensures r.None? ==> forall j :: 0 <= j < |outputs| ==> outputs[j].uuid != uuid
  {
    if outputs == [] then None
    else if outputs[0].uuid == uuid then Some(0)
    else
      var r := FindByUuid(outputs[1..], uuid);
      if r.Some? then Some(r.value + 1) else None
  }

  /** The first mode with the requested size and refresh rate (the std::find_if of apply). */
  function FindMode(modes: seq<Mode>, size: Size, refreshRate: int): (r: Option<Mode>)
    ensures r.Some? ==> r.value in modes && r.value.size == size && r.value.refreshRate == refreshRate
    ensures r.None? <==> forall m :: m in modes ==> m.size != size || m.refreshRate != refreshRate
  {
    if modes == [] then None
    else if modes[0].size == size && modes[0].refreshRate == refreshRate then Some(modes[0])
    else
      assert forall m :: m in modes[1..] ==> m in modes;
      FindMode(modes[1..], size, refreshRate)
  }

  /** The output's change set that apply fills from a client's change set and the matched mode. */
  function Props(cs: ChangeSetV2, mode: Mode): OutputChangeSet
  {
    OutputChangeSet(cs.enabled, cs.position, cs.scale, mode.size, mode.refreshRate, cs.transform, cs.overscan, cs.rgbRange, cs.vrrPolicy)
  }

  /** The configuration: the change set of each platform output, by index. */
  type Config = map<nat, OutputChangeSet>

  /** OutputConfiguration::changeSet: an explicit change set, or the output's default. */
  function ChangeFor(cfg: Config, outputs: seq<PlatformOutput>, i: nat): OutputChangeSet
    requires i < |outputs|
  {
    if i in cfg then cfg[i] else outputs[i].current
  }

  /** A device of the client's change list refers to a platform output whose modes do not offer its size and refresh rate. */
  predicate ModeMissing(changes: map<nat, ChangeSetV2>, devUuid: nat -> Uuid, outputs: seq<PlatformOutput>, dev: nat)
    requires dev in changes
  {
    var o := FindByUuid(outputs, devUuid(dev));
    o.Some? && FindMode(outputs[o.value].modes, changes[dev].size, changes[dev].refreshRate).None?
  }

  /**
   * The loop of apply over the change list in hash order: a device with no
   * platform output is skipped, a device with no matching mode aborts (None),
   * the others fill the configuration.
   */
  function BuildConfig(changes: map<nat, ChangeSetV2>, order: seq<nat>, devUuid: nat -> Uuid,
                       outputs: seq<PlatformOutput>, cfg: Config): (r: Option<Config>)
    requires forall d :: d in order ==> d in changes
    requires forall i :: i in cfg ==> i < |outputs|
    ensures r.Some? ==> forall i :: i in r.value ==> i < |outputs|
    decreases |order|
  {
    if order == [] then Some(cfg)
    else
      var dev := order[0];
      assert dev in order;
      assert forall d :: d in order[1..] ==> d in order;
      var o := FindByUuid(outputs, devUuid(dev));
      if o.None? then BuildConfig(changes, order[1..], devUuid, outputs, cfg)
      else
        var cs := changes[dev];
        var m := FindMode(outputs[o.value].modes, cs.size, cs.refreshRate);
        if m.None? then None
        else BuildConfig(changes, order[1..], devUuid, outputs, cfg[o.value := Props(cs, m.value)])
  }

  /** The configuration is missing exactly when some listed device's platform output lacks the requested mode, whatever the order. */
  lemma {:induction false} BuildConfigFails(changes: map<nat, ChangeSetV2>, order: seq<nat>, devUuid: nat -> Uuid,
                                            outputs: seq<PlatformOutput>, cfg: Config)
    requires forall d :: d in order ==> d in changes
    requires forall i :: i in cfg ==> i < |outputs|
    ensures BuildConfig(changes, order, devUuid, outputs, cfg).None? <==>
            exists d :: d in order && ModeMissing(changes, devUuid, outputs, d)
    decreases |order|
  {
    if order != [] {
      var dev := order[0];
      assert dev in order;
      assert forall d :: d in order[1..] ==> d in order;
      assert forall d :: d in order ==> d == dev || d in order[1..];
      var o := FindByUuid(outputs, devUuid(dev));
      if o.None? {
        BuildConfigFails(changes, order[1..], devUuid, outputs, cfg);
      } else {
        var cs := changes[dev];
        var m := FindMode(outputs[o.value].modes, cs.size, cs.refreshRate);
        if m.Some? {
          BuildConfigFails(changes, order[1..], devUuid, outputs, cfg[o.value := Props(cs, m.value)]);
        }
      }
    }
  }

  /** Some platform output would be enabled under the configuration. */
  predicate AnyEnabled(cfg: Config, outputs: seq<PlatformOutput>)
  {
    exists i :: 0 <= i < |outputs| && ChangeFor(cfg, outputs, i).enabled
  }

  /** The first output enabled under the configuration (the fallback primary). */
  function FirstEnabled(cfg: Config, outputs: seq<PlatformOutput>, from: nat): (r: Option<nat>)
    requires from <= |outputs|
    ensures r.Some? ==> (from <= r.value < |outputs| && ChangeFor(cfg, outputs, r.value).enabled
      && forall j :: from <= j < r.value ==> !ChangeFor(cfg, outputs, j).enabled)
    ensures r.None? <==> forall j :: from <= j < |outputs| ==> !ChangeFor(cfg, outputs, j).enabled
    decreases |outputs| - from
  {
    if from == |outputs| then None
    else if ChangeFor(cfg, outputs, from).enabled then Some(from)
    else FirstEnabled(cfg, outputs, from + 1)
  }

  /**
   * The primary output after a successful apply, as written: when a primary
   * was requested or the current one ends up disabled, the requested device
   * is looked up, and if it has no enabled platform output the first enabled
   * output is taken. None stands for the dereference of an empty
   * primaryOutput, which happens when nothing was requested and the current
   * primary ends up disabled.
   */
  function PrimaryAsWritten(cfg: Config, outputs: seq<PlatformOutput>, devUuid: nat -> Uuid,
                            requested: Option<nat>, current: nat): Option<Option<nat>>
    requires current < |outputs|
  {
    if requested.Some? || !ChangeFor(cfg, outputs, current).enabled then
      if requested.None? then None
      else
        var r := FindByUuid(outputs, devUuid(requested.value));
        if r.Some? && ChangeFor(cfg, outputs, r.value).enabled then Some(r)
        else Some(FirstEnabled(cfg, outputs, 0))
    else Some(Some(current))
  }

  /** Disabling the current primary without requesting one reaches the empty-optional dereference. */
  lemma PrimaryAsWrittenUndefined(cfg: Config, outputs: seq<PlatformOutput>, devUuid: nat -> Uuid, current: nat)
    requires current < |outputs| && !ChangeFor(cfg, outputs, current).enabled
    ensures PrimaryAsWritten(cfg, outputs, devUuid, None, current).None?
  {
  }

  /**
   * The primary output after a successful apply, with the requested device
   * consulted only when one was requested: an enabled requested output,
   * else the current primary if it stays enabled and nothing was requested,
   * else the first enabled output.
   */
  function PrimaryChoice(cfg: Config, outputs: seq<PlatformOutput>, devUuid: nat -> Uuid,
                         requested: Option<nat>, current: nat): (r: Option<nat>)
    requires current < |outputs|
    ensures PrimaryAsWritten(cfg, outputs, devUuid, requested, current).Some? ==>
            r == PrimaryAsWritten(cfg, outputs, devUuid, requested, current).value
  {
    if requested.Some? then
      var r := FindByUuid(outputs, devUuid(requested.value));
      if r.Some? && ChangeFor(cfg, outputs, r.value).enabled then r
      else FirstEnabled(cfg, outputs, 0)
    else if ChangeFor(cfg, outputs, current).enabled then Some(current)
    else FirstEnabled(cfg, outputs, 0)
  }

  /** When some output stays enabled, the chosen primary is an enabled output, and an enabled requested one wins. */
  lemma PrimaryChoiceEnabled(cfg: Config, outputs: seq<PlatformOutput>, devUuid: nat -> Uuid,
                             requested: Option<nat>, current: nat)
    requires current < |outputs| && AnyEnabled(cfg, outputs)
    ensures var r := PrimaryChoice(cfg, outputs, devUuid, requested, current);
      r.Some? && r.value < |outputs| && ChangeFor(cfg, outputs, r.value).enabled
    ensures requested.Some? ==> var f := FindByUuid(outputs, devUuid(requested.value));
      f.Some? && ChangeFor(cfg, outputs, f.value).enabled ==> PrimaryChoice(cfg, outputs, devUuid, requested, current) == f
  {
    var i :| 0 <= i < |outputs| && ChangeFor(cfg, outputs, i).enabled;
    assert FirstEnabled(cfg, outputs, 0).Some?;
  }

  /** The result of apply: the configuration handed to the platform and the new primary. */
  datatype ApplyOutcome = AlreadyApplied | ApplyFailed | ApplyDone(cfg: Config, primary: Option<nat>)

  /** apply on values, given the state of the configuration object and the platform. */
  function ApplySpec(applied: bool, changes: map<nat, ChangeSetV2>, order: seq<nat>, devUuid: nat -> Uuid,
                     outputs: seq<PlatformOutput>, requested: Option<nat>, current: nat): ApplyOutcome
    requires forall d :: d in order ==> d in changes
    requires current < |outputs|
  {
    if applied then AlreadyApplied
    else
      var cfg := BuildConfig(changes, order, devUuid, outputs, map[]);
      if cfg.None? || !AnyEnabled(cfg.value, outputs) then ApplyFailed
      else ApplyDone(cfg.value, PrimaryChoice(cfg.value, outputs, devUuid, requested, current))
  }

  /**
   * apply fails exactly when some listed device lacks its mode or no output
   * would stay enabled; on success the primary is an enabled output.
   */
  lemma ApplyOutcomes(changes: map<nat, ChangeSetV2>, order: seq<nat>, devUuid: nat -> Uuid,
                      outputs: seq<PlatformOutput>, requested: Option<nat>, current: nat)
    requires forall d :: d in order ==> d in changes
    requires current < |outputs|
    ensures var r := ApplySpec(false, changes, order, devUuid, outputs, requested, current);
      var c := BuildConfig(changes, order, devUuid, outputs, map[]);
      r.ApplyFailed? <==> (exists d :: d in order && ModeMissing(changes, devUuid, outputs, d))
                          || (c.Some? && !AnyEnabled(c.value, outputs))
    ensures var r := ApplySpec(false, changes, order, devUuid, outputs, requested, current);
      r.ApplyDone? ==> r.primary.Some? && r.primary.value < |outputs| && ChangeFor(r.cfg, outputs, r.primary.value).enabled
  {
    BuildConfigFails(changes, order, devUuid, outputs, map[]);
    var cfg := BuildConfig(changes, order, devUuid, outputs, map[]);
    if cfg.Some? && AnyEnabled(cfg.value, outputs) {
      PrimaryChoiceEnabled(cfg.value, outputs, devUuid, requested, current);
    }
  }

  /** OutputConfigurationV2Interface. */
  class OutputConfigurationV2 {
    /** The change set a device starts from (OutputChangeSetV2's constructor reads the device). */
    const initial: nat -> ChangeSetV2
    var applied: bool
    var changes: map<nat, ChangeSetV2>
    var primaryOutput: Option<nat>
    var replies: seq<Reply>

    constructor(initial: nat -> ChangeSetV2)
      ensures this.initial == initial && !applied && changes == map[] && primaryOutput.None? && replies == []
    {
      this.initial := initial;
      applied := false;
      changes := map[];
      primaryOutput := None;
      replies := [];
    }

    /** pendingChanges: the device's change set, created from the device on first use only. */
    function Pending(dev: nat): (cs: ChangeSetV2)
      reads this
      ensures dev in changes ==> cs == changes[dev]
      ensures dev !in changes ==> cs == initial(dev)
    {
      if dev in changes then changes[dev] else initial(dev)
    }

    /** Store a device's updated change set; every other device keeps its own. */
    method Put(dev: nat, cs: ChangeSetV2)
      modifies this`changes
      ensures changes == old(changes)[dev := cs]
    {
      changes := changes[dev := cs];
    }

    /** enable: enabled is set to whether the argument is exactly 1. */
    method Enable(dev: nat, enable: int)
      modifies this`changes
      ensures changes == old(changes)[dev := old(Pending(dev)).(enabled := enable == 1)]
    {
      Put(dev, Pending(dev).(enabled := enable == 1));
    }

    /** mode: an unknown mode resource changes nothing, not even the list of devices. */
    method SetMode(dev: nat, mode: Option<DeviceMode>)
      modifies this`changes
      ensures mode.None? ==> changes == old(changes)
      ensures mode.Some? ==> changes == old(changes)[dev := old(Pending(dev)).(size := mode.value.size, refreshRate := mode.value.refreshRate)]
    {
      if mode.None? {
        return;
      }
      Put(dev, Pending(dev).(size := mode.value.size, refreshRate := mode.value.refreshRate));
    }

    method SetTransform(dev: nat, value: int)
      modifies this`changes
      ensures changes == old(changes)[dev := old(Pending(dev)).(transform := ToTransform(value))]
    {
      Put(dev, Pending(dev).(transform := ToTransform(value)));
    }

    method SetPosition(dev: nat, x: int, y: int)
      modifies this`changes
      ensures changes == old(changes)[dev := old(Pending(dev)).(position := Point(x, y))]
    {
      Put(dev, Pending(dev).(position := Point(x, y)));
    }

    /** scale: a non-positive scale is refused and changes nothing. */
    method SetScale(dev: nat, scale: int)
      modifies this`changes
      ensures scale <= 0 ==> changes == old(changes)
      ensures scale > 0 ==> changes == old(changes)[dev := old(Pending(dev)).(scale := FixedToReal(scale))]
    {
      FixedSign(scale);
      if FixedToReal(scale) <= 0.0 {
        return;
      }
      Put(dev, Pending(dev).(scale := FixedToReal(scale)));
    }

    /** overscan: more than 100 is refused. */
    method SetOverscan(dev: nat, overscan: nat)
      modifies this`changes
      ensures overscan > 100 ==> changes == old(changes)
      ensures overscan <= 100 ==> changes == old(changes)[dev := old(Pending(dev)).(overscan := overscan)]
    {
      if overscan > 100 {
        return;
      }
      Put(dev, Pending(dev).(overscan := overscan));
    }

    /** set_vrr_policy: a value past Automatic is refused. */
    method SetVrrPolicy(dev: nat, policy: nat)
      modifies this`changes
      ensures policy > VrrPolicyOrdinal(VrrAutomatic) ==> changes == old(changes)
      ensures policy <= VrrPolicyOrdinal(VrrAutomatic) ==>
        changes == old(changes)[dev := old(Pending(dev)).(vrrPolicy := VrrPolicyFromOrdinal(policy))]
    {
      if policy > VrrPolicyOrdinal(VrrAutomatic) {
        return;
      }
      Put(dev, Pending(dev).(vrrPolicy := VrrPolicyFromOrdinal(policy)));
    }

    /** set_rgb_range: a value past Limited is refused. */
    method SetRgbRange(dev: nat, range: nat)
      modifies this`changes
      ensures range > RgbRangeOrdinal(Limited) ==> changes == old(changes)
      ensures range <= RgbRangeOrdinal(Limited) ==>
        changes == old(changes)[dev := old(Pending(dev)).(rgbRange := RgbRangeFromOrdinal(range))]
    {
      if range > RgbRangeOrdinal(Limited) {
        return;
      }
      Put(dev, Pending(dev).(rgbRange := RgbRangeFromOrdinal(range)));
    }

    method SetPrimaryOutput(dev: nat)
      modifies this`primaryOutput
      ensures primaryOutput == Some(dev)
    {
      primaryOutput := Some(dev);
    }

    /**
     * apply, in the hash iteration order `order` of the change list:
     * proved against ApplySpec; the reply is error_already_applied, failed
     * or applied accordingly, and the object is marked applied.
     */
    method Apply(order: seq<nat>, devUuid: nat -> Uuid, outputs: seq<PlatformOutput>, current: nat)
      returns (outcome: ApplyOutcome)
      requires NoDup(order) && (forall d :: d in order <==> d in changes)
      requires current < |outputs|
      modifies this`applied, this`replies
      ensures outcome == ApplySpec(old(applied), changes, order, devUuid, outputs, primaryOutput, current)
      ensures applied
      ensures replies == old(replies) + [match outcome
                                         case AlreadyApplied => ErrorAlreadyApplied
                                         case ApplyFailed => Failed
                                         case ApplyDone(_, _) => Applied]
    {
      if applied {
        replies := replies + [ErrorAlreadyApplied];
        return AlreadyApplied;
      }
      applied := true;
      var cfg: Config := map[];
      var rest := order;
      while rest != []
        invariant forall d :: d in rest ==> d in changes
        invariant forall i :: i in cfg ==> i < |outputs|
        invariant BuildConfig(changes, rest, devUuid, outputs, cfg) == BuildConfig(changes, order, devUuid, outputs, map[])
        decreases |rest|
      {
        var dev := rest[0];
        assert dev in rest;
        assert forall d :: d in rest[1..] ==> d in rest;
        var o := FindByUuid(outputs, devUuid(dev));
        if o.Some? {
          var cs := changes[dev];
          var m := FindMode(outputs[o.value].modes, cs.size, cs.refreshRate);
          if m.None? {
            replies := replies + [Failed];
            return ApplyFailed;
          }
          cfg := cfg[o.value := Props(cs, m.value)];
        }
        rest := rest[1..];
      }
      var anyEnabled := FirstEnabled(cfg, outputs, 0).Some?;
      if !anyEnabled {
        replies := replies + [Failed];
        return ApplyFailed;
      }
      var primary := PrimaryChoice(cfg, outputs, devUuid, primaryOutput, current);
      replies := replies + [Applied];
      return ApplyDone(cfg, primary);
    }
  }
}
