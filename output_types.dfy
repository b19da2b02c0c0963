// The value types of KWin's output abstraction (src/abstract_output.h and
// the pure helpers of src/abstract_output.cpp / src/output.cpp): the enums
// and flag bits, display modes, the gamma ramp layout, the orientation of a
// size under a transform, and the payload the output uuid is derived from.
module OutputTypes {
  import opened Common

  /** Output::Transform, in declaration order (ordinals 0..7). */
  datatype Transform = Normal | Rotated90 | Rotated180 | Rotated270 | Flipped | Flipped90 | Flipped180 | Flipped270

  /** Output::DpmsMode. */
  datatype DpmsMode = On | Standby | Suspend | Off

  /** Output::SubPixel. */
  datatype SubPixel = Unknown | NoSubPixel | HorizontalRgb | HorizontalBgr | VerticalRgb | VerticalBgr

  /** Output::RgbRange: Automatic = 0, Full = 1, Limited = 2. */
  datatype RgbRange = Automatic | Full | Limited

  /** RenderLoop::VrrPolicy: Never = 0, Always = 1, Automatic = 2. */
  datatype VrrPolicy = VrrNever | VrrAlways | VrrAutomatic

  /** The members of Output::Capability. */
  datatype Capability = DpmsCapability | OverscanCapability | VrrCapability | RgbRangeCapability

  /** The members of Output::ModeFlag. */
  datatype ModeFlag = CurrentMode | PreferredMode

  /** Output::Mode: size, refresh rate in mHz, flags and a backend id. */
  datatype Mode = Mode(size: Size, refreshRate: int, flags: set<ModeFlag>, id: int)

  function TransformOrdinal(t: Transform): (n: nat)
    ensures n < 8
  {
    match t
    case Normal => 0
    case Rotated90 => 1
    case Rotated180 => 2
    case Rotated270 => 3
    case Flipped => 4
    case Flipped90 => 5
    case Flipped180 => 6
    case Flipped270 => 7
  }

  /** A static_cast from an ordinal back to a Transform. */
  function TransformFromOrdinal(n: nat): Transform
    requires n < 8
  {
    if n == 0 then Normal
    else if n == 1 then Rotated90
    else if n == 2 then Rotated180
    else if n == 3 then Rotated270
    else if n == 4 then Flipped
    else if n == 5 then Flipped90
    else if n == 6 then Flipped180
    else Flipped270
  }

  /** The ordinals number the eight transforms one to one. */
  lemma TransformOrdinalRoundTrip(t: Transform, n: nat)
    requires n < 8
    ensures TransformFromOrdinal(TransformOrdinal(t)) == t
    ensures TransformOrdinal(TransformFromOrdinal(n)) == n
  {
  }

  /** Output::SubPixel in declaration order: Unknown = 0 .. Vertical_BGR = 5. */
  function SubPixelOrdinal(s: SubPixel): (n: nat)
    ensures n < 6
  {
    match s
    case Unknown => 0
    case NoSubPixel => 1
    case HorizontalRgb => 2
    case HorizontalBgr => 3
    case VerticalRgb => 4
    case VerticalBgr => 5
  }

  function SubPixelFromOrdinal(n: nat): SubPixel
    requires n < 6
  {
    if n == 0 then Unknown
    else if n == 1 then NoSubPixel
    else if n == 2 then HorizontalRgb
    else if n == 3 then HorizontalBgr
    else if n == 4 then VerticalRgb
    else VerticalBgr
  }

  lemma SubPixelOrdinalRoundTrip(s: SubPixel, n: nat)
    requires n < 6
    ensures SubPixelFromOrdinal(SubPixelOrdinal(s)) == s
    ensures SubPixelOrdinal(SubPixelFromOrdinal(n)) == n
  {
  }

  function RgbRangeOrdinal(r: RgbRange): (n: nat)
    ensures n <= 2
  {
    match r
    case Automatic => 0
    case Full => 1
    case Limited => 2
  }

  function RgbRangeFromOrdinal(n: nat): RgbRange
    requires n <= 2
  {
    if n == 0 then Automatic else if n == 1 then Full else Limited
  }

  lemma RgbRangeOrdinalRoundTrip(r: RgbRange, n: nat)
    requires n <= 2
    ensures RgbRangeFromOrdinal(RgbRangeOrdinal(r)) == r
    ensures RgbRangeOrdinal(RgbRangeFromOrdinal(n)) == n
  {
  }

  function VrrPolicyOrdinal(p: VrrPolicy): (n: nat)
    ensures n <= 2
  {
    match p
    case VrrNever => 0
    case VrrAlways => 1
    case VrrAutomatic => 2
  }

  function VrrPolicyFromOrdinal(n: nat): VrrPolicy
    requires n <= 2
  {
    if n == 0 then VrrNever else if n == 1 then VrrAlways else VrrAutomatic
  }

  lemma VrrPolicyOrdinalRoundTrip(p: VrrPolicy, n: nat)
    requires n <= 2
    ensures VrrPolicyFromOrdinal(VrrPolicyOrdinal(p)) == p
    ensures VrrPolicyOrdinal(VrrPolicyFromOrdinal(n)) == n
  {
  }

  /**
   * The numeric value of each capability: Dpms = 0x1, Overscan = 0x2,
   * Vrr = 0x4, RgbRange = 0x8. A QFlags word is modelled as the set of
   * members whose bits it holds.
   */
  function CapabilityBit(c: Capability): nat
  {
    match c
    case DpmsCapability => 0x1
    case OverscanCapability => 0x2
    case VrrCapability => 0x4
    case RgbRangeCapability => 0x8
  }

  /** The numeric value of each mode flag: Current = 0x1, Preferred = 0x2. */
  function ModeFlagBit(f: ModeFlag): nat
  {
    match f
    case CurrentMode => 0x1
    case PreferredMode => 0x2
  }

  /** The value of a flags word: the sum of its members' bits. */
  function CapabilityWord(caps: set<Capability>): (w: nat)
    ensures w < 16
  {
    (if DpmsCapability in caps then 1 else 0) + (if OverscanCapability in caps then 2 else 0)
    + (if VrrCapability in caps then 4 else 0) + (if RgbRangeCapability in caps then 8 else 0)
  }

  /** Bit i of a word. */
  function Bit(w: nat, i: nat): bool
  {
    if i == 0 then w % 2 == 1 else Bit(w / 2, i - 1)
  }

  /** The position of each capability's bit. */
  function CapabilityIndex(c: Capability): (i: nat)
    ensures i < 4
  {
    match c
    case DpmsCapability => 0
    case OverscanCapability => 1
    case VrrCapability => 2
    case RgbRangeCapability => 3
  }

  /**
   * Each capability has its own bit: the word of a set holds a capability's
   * bit exactly when the capability is in the set, so sets and words
   * correspond one to one.
   */
  lemma CapabilityWordBits(caps: set<Capability>, c: Capability)
    ensures CapabilityBit(c) == Pow2(CapabilityIndex(c))
    ensures Bit(CapabilityWord(caps), CapabilityIndex(c)) <==> c in caps
  {
    var d := if DpmsCapability in caps then 1 else 0;
    var o := if OverscanCapability in caps then 1 else 0;
    var v := if VrrCapability in caps then 1 else 0;
    var g := if RgbRangeCapability in caps then 1 else 0;
    var w3 := g;
    var w2 := v + 2 * w3;
    var w1 := o + 2 * w2;
    var w := d + 2 * w1;
    assert CapabilityWord(caps) == w;
    assert w % 2 == d && w / 2 == w1;
    assert w1 % 2 == o && w1 / 2 == w2;
    assert w2 % 2 == v && w2 / 2 == w3;
    assert w3 % 2 == g;
    assert Bit(w, 3) == Bit(w1, 2) == Bit(w2, 1) == Bit(w3, 0);
    assert Bit(w, 2) == Bit(w1, 1) == Bit(w2, 0);
    assert Pow2(3) == 2 * Pow2(2) == 4 * Pow2(1) == 8;
  }

  /** QFlags::setFlag: the capability is set as asked and every other member is kept. */
  function WithCapability(caps: set<Capability>, c: Capability, on: bool): (r: set<Capability>)
    ensures (c in r) == on
    ensures r - {c} == caps - {c}
  {
    if on then caps + {c} else caps - {c}
  }

  /** The transforms that turn the picture by 90 or 270 degrees. */
  predicate SwapsAxes(t: Transform)
  {
    t == Rotated90 || t == Rotated270 || t == Flipped90 || t == Flipped270
  }

  /** The quarter-turn transforms are exactly those with an odd ordinal. */
  lemma SwapsAxesOdd(t: Transform)
    ensures SwapsAxes(t) <==> TransformOrdinal(t) % 2 == 1
  {
  }

  /**
   * orientateSize: the size transposed under a quarter-turn transform and
   * unchanged otherwise. Only a non-square size is changed.
   */
  function OrientateSize(t: Transform, s: Size): (r: Size)
    ensures r.width * r.height == s.width * s.height
    ensures r == s <==> !SwapsAxes(t) || s.width == s.height
    ensures SwapsAxes(t) ==> r.width == s.height
  {
    if SwapsAxes(t) then Size(s.height, s.width) else s
  }

  /** Orienting twice restores the size. */
  lemma OrientateInvolution(t: Transform, s: Size)
    ensures OrientateSize(t, OrientateSize(t, s)) == s
  {
  }

  /** The inline rect(): the geometry's size anchored at the origin. */
  function LocalRect(geometry: Rect): (r: Rect)
    ensures r.topLeft == Point(0, 0) && r.size == geometry.size
  {
    Rect(Point(0, 0), geometry.size)
  }

  /**
   * A GammaRamp of `size` entries per channel: one table of 3 * size
   * 16-bit values, red, then green, then blue.
   */
  datatype GammaRamp = GammaRamp(size: nat, table: seq<bv16>)

  predicate RampOk(g: GammaRamp)
  {
    |g.table| == 3 * g.size
  }

  /** The constructor: a value-initialised (all-zero) table of 3 * size entries. */
  function NewGammaRamp(size: nat): (g: GammaRamp)
    ensures RampOk(g) && g.size == size
    ensures forall i :: 0 <= i < |g.table| ==> g.table[i] == 0
  {
    GammaRamp(size, seq(3 * size, _ => 0))
  }

  /** red(): the table from offset 0. */
  function Red(g: GammaRamp): (r: seq<bv16>)
    requires RampOk(g)
    ensures |r| == g.size
  {
    g.table[..g.size]
  }

  /** green(): the table from offset size. */
  function Green(g: GammaRamp): (r: seq<bv16>)
    requires RampOk(g)
    ensures |r| == g.size
  {
    g.table[g.size..2 * g.size]
  }

  /** blue(): the table from offset 2 * size. */
  function Blue(g: GammaRamp): (r: seq<bv16>)
    requires RampOk(g)
    ensures |r| == g.size
  {
    g.table[2 * g.size..]
  }

  /** The three channels tile the table without overlap, in the order red, green, blue. */
  lemma ChannelsTileTable(g: GammaRamp)
    requires RampOk(g)
    ensures Red(g) + Green(g) + Blue(g) == g.table
    ensures forall i :: 0 <= i < g.size ==>
      Red(g)[i] == g.table[i] && Green(g)[i] == g.table[g.size + i] && Blue(g)[i] == g.table[2 * g.size + i]
  {
    assert g.table == g.table[..g.size] + g.table[g.size..2 * g.size] + g.table[2 * g.size..];
  }

  /** A name-based (version 5) uuid in KWin's output namespace, identified by its name. */
  datatype Uuid = NullUuid | NameBased(name: string)

  predicate ColonFree(s: string)
  {
    ':' !in s
  }

  /** QStringList{name, eisaId, model, serialNumber}.join(':'). */
  function Payload(name: string, eisaId: string, model: string, serialNumber: string): string
  {
    name + ":" + (eisaId + ":" + (model + ":" + serialNumber))
  }

  /** generateOutputId: the uuid is the name-based uuid of the payload. */
  function OutputUuid(eisaId: string, model: string, serialNumber: string, name: string): (u: Uuid)
    ensures u.NameBased? && u.name == Payload(name, eisaId, model, serialNumber)
  {
    NameBased(Payload(name, eisaId, model, serialNumber))
  }

  /** Splitting at the first colon: a colon-free head is determined by the joined string. */
  lemma {:induction false} SplitAtColon(a: string, x: string, b: string, y: string)
    requires ColonFree(a) && ColonFree(b)
    requires a + ":" + x == b + ":" + y
    ensures a == b && x == y
  {
    var l := a + ":" + x;
    if |a| < |b| {
      ColonBeforeEnd(a, x, b, y);
    } else if |b| < |a| {
      ColonBeforeEnd(b, y, a, x);
    } else {
      assert a == l[..|a|] == b;
      assert x == l[|a| + 1..] == y;
    }
  }

  /** A string whose first colon comes earlier than the end of a colon-free head cannot equal it joined. */
  lemma ColonBeforeEnd(a: string, x: string, b: string, y: string)
    requires ColonFree(b) && |a| < |b|
    ensures a + ":" + x != b + ":" + y
  {
    assert (a + ":" + x)[|a|] == ':';
    assert (b + ":" + y)[|a|] == b[|a|];
    assert b[|a|] in b;
  }

  /** When no part contains a colon, different parts give different payloads, hence different uuids. */
  lemma {:induction false} PayloadInjective(n: string, e: string, m: string, s: string, n': string, e': string, m': string, s': string)
    requires ColonFree(n) && ColonFree(e) && ColonFree(m)
    requires ColonFree(n') && ColonFree(e') && ColonFree(m')
    requires Payload(n, e, m, s) == Payload(n', e', m', s')
    ensures n == n' && e == e' && m == m' && s == s'
  {
    SplitAtColon(n, e + ":" + (m + ":" + s), n', e' + ":" + (m' + ":" + s'));
    SplitAtColon(e, m + ":" + s, e', m' + ":" + s');
    SplitAtColon(m, s, m', s');
  }

  /** With a colon inside a part, two different outputs share a payload and so a uuid. */
  lemma PayloadAmbiguous()
    ensures Payload("a:b", "c", "", "") == Payload("a", "b:c", "", "")
    ensures OutputUuid("c", "", "", "a:b") == OutputUuid("b:c", "", "", "a")
  {
  }
}
