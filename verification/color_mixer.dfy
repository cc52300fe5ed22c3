/**
 * The colour-mixer view-model: a selected channel, one hue/saturation/
 * luminance triple per channel, and two display flags. The mutable map the
 * view-model edits in place is an immutable map here; each operation returns
 * the next state.
 */
module ColorMixer {
  import opened Channels

  /** Offsets are clamped to this range by every update. */
  const Lo: int := -100
  const Hi: int := 100

  /** The triple's class is not part of this model; its default (the reset value) is taken as (0, 0, 0). */
  datatype HslTriple = HslTriple(hue: int, saturation: int, luminance: int)

  const DefaultTriple: HslTriple := HslTriple(0, 0, 0)

  datatype HslAdjustState = HslAdjustState(
    selected: ColorChannel,
    channels: map<ColorChannel, HslTriple>,
    isPreviewHeld: bool,
    enableTargeted: bool)

  /** ORANGE selected, the default triple for every channel, both flags off. */
  const DefaultState: HslAdjustState :=
    HslAdjustState(Orange, map c | c in Entries :: DefaultTriple, false, false)

  /** The pill shows a channel as edited when any component is non-zero. */
  predicate IsChanged(t: HslTriple) {
    t.hue != 0 || t.saturation != 0 || t.luminance != 0
  }

  predicate InRange(v: int) {
    Lo <= v <= Hi
  }

  predicate TripleInRange(t: HslTriple) {
    InRange(t.hue) && InRange(t.saturation) && InRange(t.luminance)
  }

  /** The state invariant: every channel has an entry and every stored component is in range. */
  ghost predicate Valid(s: HslAdjustState) {
    && (forall c :: c in s.channels)
    && (forall c :: c in s.channels ==> TripleInRange(s.channels[c]))
  }

  /** Kotlin's `coerceIn(lo, hi)`. */
  function CoerceIn(v: int, lo: int, hi: int): (r: int)
    requires lo <= hi
    ensures lo <= r <= hi
    ensures lo <= v <= hi ==> r == v
    ensures v < lo ==> r == lo
    ensures v > hi ==> r == hi
  {
    if v < lo then lo else if v > hi then hi else v
  }

  datatype Component = Hue | Sat | Lum

  function Get(t: HslTriple, k: Component): int {
    match k
    case Hue => t.hue
    case Sat => t.saturation
    case Lum => t.luminance
  }

  function With(t: HslTriple, k: Component, v: int): (u: HslTriple)
    ensures Get(u, k) == v
    ensures forall j :: j != k ==> Get(u, j) == Get(t, j)
  {
    match k
    case Hue => t.(hue := v)
    case Sat => t.(saturation := v)
    case Lum => t.(luminance := v)
  }

  /** The selected channel's triple, or a default one when the map has no entry for it. */
  function Current(s: HslAdjustState): HslTriple {
    if s.selected in s.channels then s.channels[s.selected] else DefaultTriple
  }

  function Select(s: HslAdjustState, c: ColorChannel): (r: HslAdjustState)
    ensures r.selected == c
    ensures r.channels == s.channels && r.isPreviewHeld == s.isPreviewHeld && r.enableTargeted == s.enableTargeted
  {
    s.(selected := c)
  }

  /**
   * Writes one component of the selected channel, clamped to [-100, 100].
   * Every other channel, the other two components, the selection and the
   * flags stay as they were.
   */
  function UpdateCurrent(s: HslAdjustState, k: Component, v: int): (r: HslAdjustState)
    ensures r.selected == s.selected && r.isPreviewHeld == s.isPreviewHeld && r.enableTargeted == s.enableTargeted
    ensures r.channels.Keys == s.channels.Keys + {s.selected}
    ensures Get(r.channels[s.selected], k) == CoerceIn(v, Lo, Hi)
    ensures forall j :: j != k ==> Get(r.channels[s.selected], j) == Get(Current(s), j)
    ensures forall c :: c in s.channels && c != s.selected ==> r.channels[c] == s.channels[c]
  {
    s.(channels := s.channels[s.selected := With(Current(s), k, CoerceIn(v, Lo, Hi))])
  }

  function UpdateHue(s: HslAdjustState, v: int): HslAdjustState {
    UpdateCurrent(s, Hue, v)
  }

  function UpdateSat(s: HslAdjustState, v: int): HslAdjustState {
    UpdateCurrent(s, Sat, v)
  }

  function UpdateLum(s: HslAdjustState, v: int): HslAdjustState {
    UpdateCurrent(s, Lum, v)
  }

  /** The selected channel goes back to the default triple; nothing else changes. */
  function ResetCurrent(s: HslAdjustState): (r: HslAdjustState)
    ensures r.selected == s.selected && r.isPreviewHeld == s.isPreviewHeld && r.enableTargeted == s.enableTargeted
    ensures r.channels.Keys == s.channels.Keys + {s.selected}
    ensures r.channels[s.selected] == DefaultTriple && !IsChanged(r.channels[s.selected])
    ensures forall c :: c in s.channels && c != s.selected ==> r.channels[c] == s.channels[c]
  {
    s.(channels := s.channels[s.selected := DefaultTriple])
  }

  function ResetAll(s: HslAdjustState): (r: HslAdjustState)
    ensures r.selected == Orange && !r.isPreviewHeld && !r.enableTargeted
    ensures forall c :: c in r.channels && r.channels[c] == DefaultTriple
  {
    EntriesEnumerateChannels();
    DefaultState
  }

  function SetPreviewHeld(s: HslAdjustState, b: bool): (r: HslAdjustState)
    ensures r.isPreviewHeld == b
    ensures r.selected == s.selected && r.channels == s.channels && r.enableTargeted == s.enableTargeted
  {
    s.(isPreviewHeld := b)
  }

  function ToggleTargeted(s: HslAdjustState): (r: HslAdjustState)
    ensures r.enableTargeted != s.enableTargeted
    ensures r.selected == s.selected && r.channels == s.channels && r.isPreviewHeld == s.isPreviewHeld
  {
    s.(enableTargeted := !s.enableTargeted)
  }

  /** Toggling twice restores the state. */
  lemma ToggleInvolution(s: HslAdjustState)
    ensures ToggleTargeted(ToggleTargeted(s)) == s
  {
  }

  /** The default state selects ORANGE, has one default entry per channel (eight in all) and both flags off. */
  lemma DefaultStateShape()
    ensures DefaultState.selected == Orange
    ensures DefaultState.channels.Keys == {Red, Orange, Yellow, Green, Aqua, Blue, Purple, Magenta}
    ensures |DefaultState.channels.Keys| == 8
    ensures forall c :: c in DefaultState.channels && DefaultState.channels[c] == DefaultTriple
    ensures !DefaultState.isPreviewHeld && !DefaultState.enableTargeted
    ensures Valid(DefaultState)
  {
    DefaultKeys();
    EightChannels();
  }

  lemma DefaultKeys()
    ensures forall c :: c in DefaultState.channels && DefaultState.channels[c] == DefaultTriple
    ensures DefaultState.channels.Keys == {Red, Orange, Yellow, Green, Aqua, Blue, Purple, Magenta}
  {
    EntriesEnumerateChannels();
    var all: set<ColorChannel> := {Red, Orange, Yellow, Green, Aqua, Blue, Purple, Magenta};
    forall c ensures c in all {
      match c
      case Red => case Orange => case Yellow => case Green =>
      case Aqua => case Blue => case Purple => case Magenta =>
    }
  }

  lemma EightChannels()
    ensures |{Red, Orange, Yellow, Green, Aqua, Blue, Purple, Magenta}| == 8
  {
    EntriesEnumerateChannels();
    DistinctChannelsCount(Entries);
    assert (set c | c in Entries) == {Red, Orange, Yellow, Green, Aqua, Blue, Purple, Magenta};
  }

  /** A list of pairwise distinct channels has as many elements as its set. */
  lemma {:induction false} DistinctChannelsCount(s: seq<ColorChannel>)
    requires forall i, j :: 0 <= i < j < |s| ==> s[i] != s[j]
    ensures |set c | c in s| == |s|
  {
    if |s| > 0 {
      var t := s[1..];
      DistinctChannelsCount(t);
      assert (set c | c in s) == {s[0]} + (set c | c in t);
      assert s[0] !in t;
    }
  }

  /** The view-model's operations, as one closed enumeration. */
  datatype Op =
    | SelectOp(c: ColorChannel)
    | UpdateOp(k: Component, v: int)
    | ResetCurrentOp
    | ResetAllOp
    | SetPreviewHeldOp(b: bool)
    | ToggleTargetedOp

  function Step(s: HslAdjustState, op: Op): HslAdjustState {
    match op
    case SelectOp(c) => Select(s, c)
    case UpdateOp(k, v) => UpdateCurrent(s, k, v)
    case ResetCurrentOp => ResetCurrent(s)
    case ResetAllOp => ResetAll(s)
    case SetPreviewHeldOp(b) => SetPreviewHeld(s, b)
    case ToggleTargetedOp => ToggleTargeted(s)
  }

  function Run(s: HslAdjustState, ops: seq<Op>): HslAdjustState
    decreases |ops|
  {
    if |ops| == 0 then s else Run(Step(s, ops[0]), ops[1..])
  }

  /** Every single operation keeps every channel present and every component within [-100, 100]. */
  lemma StepPreservesValid(s: HslAdjustState, op: Op)
    requires Valid(s)
    ensures Valid(Step(s, op))
  {
    match op
    case ResetAllOp => DefaultStateShape();
    case UpdateOp(k, v) =>
      var r := UpdateCurrent(s, k, v);
      var t := r.channels[s.selected];
      assert TripleInRange(Current(s));
      assert Get(t, Hue) == t.hue && Get(t, Sat) == t.saturation && Get(t, Lum) == t.luminance;
      assert TripleInRange(t);
    case _ =>
  }

  /** Starting from the default state, no sequence of operations stores an out-of-range component. */
  lemma {:induction false} RunPreservesValid(s: HslAdjustState, ops: seq<Op>)
    requires Valid(s)
    ensures Valid(Run(s, ops))
    decreases |ops|
  {
    if |ops| > 0 {
      StepPreservesValid(s, ops[0]);
      RunPreservesValid(Step(s, ops[0]), ops[1..]);
    }
  }
}
