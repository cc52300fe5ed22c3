/**
 * The parameter set of one editing session and the dirty-mask calculator
 * that derives, from it, which adjustment groups need rendering.
 */
module Params {
  import opened Wrappers
  import opened Mask

  /** The sixteen scalar adjustments, in declaration order. */
  datatype Field =
    | Exposure | Brightness | Contrast | Highlights | Shadows | Whites | Blacks
    | Temperature | Tint | Vibrance | Saturation
    | Texture | Clarity | Dehaze
    | Vignette
    | Grain

  /** The adjustment groups that own one mask bit each. */
  datatype Group = Light | Color | Detail | VignetteGroup | GrainGroup

  function GroupOf(f: Field): Group {
    match f
    case Exposure | Brightness | Contrast | Highlights | Shadows | Whites | Blacks => Light
    case Temperature | Tint | Vibrance | Saturation => Color
    case Texture | Clarity | Dehaze => Detail
    case Vignette => VignetteGroup
    case Grain => GrainGroup
  }

  function GroupBit(g: Group): Mask {
    match g
    case Light => LIGHT
    case Color => COLOR
    case Detail => DETAIL
    case VignetteGroup => VIGNETTE
    case GrainGroup => GRAIN
  }

  /** Number of hue channels; each HSL array has one entry per channel. */
  const HslChannels: nat := 8

  /**
   * The Kotlin floats are modelled as reals. The HSL arrays, the LUT path and
   * amount, and a mutable active mask are used by the view-models but are not
   * declared by the parameter class itself; they are added here.
   */
  datatype AdjustParams = AdjustParams(
    exposure: real, brightness: real, contrast: real, highlights: real,
    shadows: real, whites: real, blacks: real,
    temperature: real, tint: real, vibrance: real, saturation: real,
    texture: real, clarity: real, dehaze: real, vignette: real, grain: real,
    hslHue: seq<real>, hslSaturation: seq<real>, hslLuminance: seq<real>,
    lutPath: Option<string>,
    lutAmount: real,
    activeMask: Mask)

  function Zeros(n: nat): (z: seq<real>)
    ensures |z| == n
    ensures forall i :: 0 <= i < n ==> z[i] == 0.0
  {
    seq(n, _ => 0.0)
  }

  /** Every scalar at 0, empty HSL table, no LUT, full LUT strength, empty mask. */
  const Default: AdjustParams := AdjustParams(
    0.0, 0.0, 0.0, 0.0, 0.0, 0.0, 0.0,
    0.0, 0.0, 0.0, 0.0,
    0.0, 0.0, 0.0, 0.0, 0.0,
    Zeros(HslChannels), Zeros(HslChannels), Zeros(HslChannels),
    None, 1.0, 0)

  function Get(p: AdjustParams, f: Field): real {
    match f
    case Exposure => p.exposure
    case Brightness => p.brightness
    case Contrast => p.contrast
    case Highlights => p.highlights
    case Shadows => p.shadows
    case Whites => p.whites
    case Blacks => p.blacks
    case Temperature => p.temperature
    case Tint => p.tint
    case Vibrance => p.vibrance
    case Saturation => p.saturation
    case Texture => p.texture
    case Clarity => p.clarity
    case Dehaze => p.dehaze
    case Vignette => p.vignette
    case Grain => p.grain
  }

  /** Everything but the sixteen scalar fields is the same in both parameter sets. */
  predicate SameExtras(p: AdjustParams, q: AdjustParams) {
    && p.hslHue == q.hslHue && p.hslSaturation == q.hslSaturation && p.hslLuminance == q.hslLuminance
    && p.lutPath == q.lutPath && p.lutAmount == q.lutAmount && p.activeMask == q.activeMask
  }

  /** Assigning one scalar field writes that field and nothing else. */
  function Set(p: AdjustParams, f: Field, v: real): (q: AdjustParams)
    ensures Get(q, f) == v
    ensures forall g :: g != f ==> Get(q, g) == Get(p, g)
    ensures SameExtras(p, q)
  {
    match GroupOf(f)
    case Light => SetLight(p, f, v)
    case Color => SetColor(p, f, v)
    case Detail => SetDetail(p, f, v)
    case _ => SetSingles(p, f, v)
  }

  function SetLight(p: AdjustParams, f: Field, v: real): (q: AdjustParams)
    requires GroupOf(f) == Light
    ensures Get(q, f) == v
    ensures forall g :: g != f ==> Get(q, g) == Get(p, g)
    ensures SameExtras(p, q)
  {
    match f
    case Exposure => p.(exposure := v)
    case Brightness => p.(brightness := v)
    case Contrast => p.(contrast := v)
    case Highlights => p.(highlights := v)
    case Shadows => p.(shadows := v)
    case Whites => p.(whites := v)
    case Blacks => p.(blacks := v)
  }

  function SetColor(p: AdjustParams, f: Field, v: real): (q: AdjustParams)
    requires GroupOf(f) == Color
    ensures Get(q, f) == v
    ensures forall g :: g != f ==> Get(q, g) == Get(p, g)
    ensures SameExtras(p, q)
  {
    match f
    case Temperature => p.(temperature := v)
    case Tint => p.(tint := v)
    case Vibrance => p.(vibrance := v)
    case Saturation => p.(saturation := v)
  }

  function SetDetail(p: AdjustParams, f: Field, v: real): (q: AdjustParams)
    requires GroupOf(f) == Detail
    ensures Get(q, f) == v
    ensures forall g :: g != f ==> Get(q, g) == Get(p, g)
    ensures SameExtras(p, q)
  {
    match f
    case Texture => p.(texture := v)
    case Clarity => p.(clarity := v)
    case Dehaze => p.(dehaze := v)
  }

  function SetSingles(p: AdjustParams, f: Field, v: real): (q: AdjustParams)
    requires GroupOf(f) == VignetteGroup || GroupOf(f) == GrainGroup
    ensures Get(q, f) == v
    ensures forall g :: g != f ==> Get(q, g) == Get(p, g)
    ensures SameExtras(p, q)
  {
    match f
    case Vignette => p.(vignette := v)
    case Grain => p.(grain := v)
  }

  function Abs(v: real): real {
    if v < 0.0 then -v else v
  }

  /** The calculator's `nz` test: strictly beyond the threshold. */
  predicate Active(v: real, eps: real) {
    Abs(v) > eps
  }

  /** The default threshold, 1e-6. */
  const DefaultEps: real := 0.000001

  /** Reference meaning of a group bit: some field of the group is active. */
  ghost predicate GroupActive(p: AdjustParams, g: Group, eps: real) {
    exists f :: GroupOf(f) == g && Active(Get(p, f), eps)
  }

  /** The calculator's accumulation: OR in each group bit whose test passed. */
  function Accumulate(light: bool, color: bool, detail: bool, vignette: bool, grain: bool): Mask {
    var m0: Mask := 0;
    var m1 := if light then m0 | LIGHT else m0;
    var m2 := if color then m1 | COLOR else m1;
    var m3 := if detail then m2 | DETAIL else m2;
    var m4 := if vignette then m3 | VIGNETTE else m3;
    if grain then m4 | GRAIN else m4
  }

  lemma AccumulateBits(light: bool, color: bool, detail: bool, vignette: bool, grain: bool)
    ensures var m := Accumulate(light, color, detail, vignette, grain);
      && (Has(m, LIGHT) <==> light) && (Has(m, COLOR) <==> color) && (Has(m, DETAIL) <==> detail)
      && (Has(m, VIGNETTE) <==> vignette) && (Has(m, GRAIN) <==> grain)
      && m & !GroupBits == 0
  {
  }

  /** The calculator's Light test, on the named fields. */
  predicate LightTest(p: AdjustParams, eps: real) {
    Active(p.exposure, eps) || Active(p.brightness, eps) || Active(p.contrast, eps)
    || Active(p.highlights, eps) || Active(p.shadows, eps) || Active(p.whites, eps) || Active(p.blacks, eps)
  }

  predicate ColorTest(p: AdjustParams, eps: real) {
    Active(p.temperature, eps) || Active(p.tint, eps) || Active(p.saturation, eps) || Active(p.vibrance, eps)
  }

  predicate DetailTest(p: AdjustParams, eps: real) {
    Active(p.texture, eps) || Active(p.clarity, eps) || Active(p.dehaze, eps)
  }

  /** The named-field tests agree with the reference definition of an active group. */
  lemma TestsMatchGroups(p: AdjustParams, eps: real)
    ensures LightTest(p, eps) <==> GroupActive(p, Light, eps)
    ensures ColorTest(p, eps) <==> GroupActive(p, Color, eps)
    ensures DetailTest(p, eps) <==> GroupActive(p, Detail, eps)
    ensures Active(p.vignette, eps) <==> GroupActive(p, VignetteGroup, eps)
    ensures Active(p.grain, eps) <==> GroupActive(p, GrainGroup, eps)
  {
    LightTestMatches(p, eps);
    ColorTestMatches(p, eps);
    DetailTestMatches(p, eps);
    assert Get(p, Vignette) == p.vignette;
    assert Get(p, Grain) == p.grain;
  }

  lemma LightTestMatches(p: AdjustParams, eps: real)
    ensures LightTest(p, eps) <==> GroupActive(p, Light, eps)
  {
    if LightTest(p, eps) {
      assert Get(p, Exposure) == p.exposure && Get(p, Brightness) == p.brightness;
      assert Get(p, Contrast) == p.contrast && Get(p, Highlights) == p.highlights;
      assert Get(p, Shadows) == p.shadows && Get(p, Whites) == p.whites && Get(p, Blacks) == p.blacks;
    }
  }

  lemma ColorTestMatches(p: AdjustParams, eps: real)
    ensures ColorTest(p, eps) <==> GroupActive(p, Color, eps)
  {
    if ColorTest(p, eps) {
      assert Get(p, Temperature) == p.temperature && Get(p, Tint) == p.tint;
      assert Get(p, Vibrance) == p.vibrance && Get(p, Saturation) == p.saturation;
    }
  }

  lemma DetailTestMatches(p: AdjustParams, eps: real)
    ensures DetailTest(p, eps) <==> GroupActive(p, Detail, eps)
  {
    if DetailTest(p, eps) {
      assert Get(p, Texture) == p.texture && Get(p, Clarity) == p.clarity && Get(p, Dehaze) == p.dehaze;
    }
  }

  /**
   * The dirty mask, computed group by group exactly as the calculator tests
   * the named fields. The stored `activeMask`, the HSL table and the LUT
   * fields are not consulted.
   */
  function BuildMask(p: AdjustParams, eps: real): (r: Mask)
    ensures forall g :: Has(r, GroupBit(g)) <==> GroupActive(p, g, eps)
    ensures r & !GroupBits == 0
    ensures !Has(r, MASK_HSL) && !Has(r, MASK_LUT)
  {
    var light, color, detail := LightTest(p, eps), ColorTest(p, eps), DetailTest(p, eps);
    var vignette, grain := Active(p.vignette, eps), Active(p.grain, eps);
    AccumulateBits(light, color, detail, vignette, grain);
    TestsMatchGroups(p, eps);
    HslLutOutsideGroups(Accumulate(light, color, detail, vignette, grain));
    Accumulate(light, color, detail, vignette, grain)
  }

  lemma HslLutOutsideGroups(m: Mask)
    requires m & !GroupBits == 0
    ensures !Has(m, MASK_HSL) && !Has(m, MASK_LUT)
  {
  }

  /** A parameter set with every scalar at its default marks no group. */
  lemma DefaultMaskIsZero(p: AdjustParams, eps: real)
    requires eps >= 0.0
    requires forall f :: Get(p, f) == 0.0
    ensures BuildMask(p, eps) == 0
  {
    var r := BuildMask(p, eps);
    assert forall f :: !Active(Get(p, f), eps);
    AllGroupBitsClear(r);
  }

  lemma AllGroupBitsClear(m: Mask)
    requires m & !GroupBits == 0
    requires forall g :: !Has(m, GroupBit(g))
    ensures m == 0
  {
    SameGroupBitsSameMask(m, 0);
  }

  /** Two masks that use only group bits and agree on every group bit are equal. */
  lemma SameGroupBitsSameMask(m: Mask, n: Mask)
    requires m & !GroupBits == 0 && n & !GroupBits == 0
    requires forall g :: Has(m, GroupBit(g)) == Has(n, GroupBit(g))
    ensures m == n
  {
    assert Has(m, GroupBit(Light)) == Has(n, GroupBit(Light));
    assert Has(m, GroupBit(Color)) == Has(n, GroupBit(Color));
    assert Has(m, GroupBit(Detail)) == Has(n, GroupBit(Detail));
    assert Has(m, GroupBit(VignetteGroup)) == Has(n, GroupBit(VignetteGroup));
    assert Has(m, GroupBit(GrainGroup)) == Has(n, GroupBit(GrainGroup));
    assert Has(m, LIGHT) == Has(n, LIGHT) && Has(m, COLOR) == Has(n, COLOR) && Has(m, DETAIL) == Has(n, DETAIL);
    assert Has(m, VIGNETTE) == Has(n, VIGNETTE) && Has(m, GRAIN) == Has(n, GRAIN);
  }

  /** Writing one field can only move the bit of that field's own group. */
  lemma SetFieldIsolation(p: AdjustParams, f: Field, v: real, eps: real, g: Group)
    requires g != GroupOf(f)
    ensures Has(BuildMask(Set(p, f, v), eps), GroupBit(g)) == Has(BuildMask(p, eps), GroupBit(g))
  {
    var q := Set(p, f, v);
    if GroupActive(q, g, eps) {
      var h :| GroupOf(h) == g && Active(Get(q, h), eps);
      assert h != f && Get(p, h) == Get(q, h);
    }
    if GroupActive(p, g, eps) {
      var h :| GroupOf(h) == g && Active(Get(p, h), eps);
      assert h != f && Get(p, h) == Get(q, h);
    }
  }

  /** The threshold is strict: a value exactly at `eps` does not mark its group. */
  lemma ThresholdIsStrict(p: AdjustParams, f: Field, eps: real)
    requires eps >= 0.0
    requires forall h :: Get(p, h) == 0.0
    ensures BuildMask(Set(p, f, eps), eps) == 0
    ensures BuildMask(Set(p, f, -eps), eps) == 0
  {
    var q1, q2 := Set(p, f, eps), Set(p, f, -eps);
    assert forall h :: Abs(Get(q1, h)) <= eps;
    assert forall h :: Abs(Get(q2, h)) <= eps;
    forall g ensures !Has(BuildMask(q1, eps), GroupBit(g)) && !Has(BuildMask(q2, eps), GroupBit(g)) {
    }
    AllGroupBitsClear(BuildMask(q1, eps));
    AllGroupBitsClear(BuildMask(q2, eps));
  }

  /**
   * From an all-default parameter set, moving one field beyond the threshold
   * marks exactly that field's group.
   */
  lemma SingleFieldMarksItsGroup(p: AdjustParams, f: Field, v: real, eps: real)
    requires eps >= 0.0 && Abs(v) > eps
    requires forall h :: Get(p, h) == 0.0
    ensures BuildMask(Set(p, f, v), eps) == GroupBit(GroupOf(f))
  {
    var q := Set(p, f, v);
    var r := BuildMask(q, eps);
    assert GroupActive(q, GroupOf(f), eps) by {
      assert Active(Get(q, f), eps);
    }
    forall g | g != GroupOf(f) ensures !Has(r, GroupBit(g)) {
      SetFieldIsolation(p, f, v, eps, g);
      DefaultMaskIsZero(p, eps);
    }
    OnlyOneGroupBit(r, GroupOf(f));
  }

  lemma OnlyOneGroupBit(m: Mask, g: Group)
    requires m & !GroupBits == 0
    requires Has(m, GroupBit(g))
    requires forall h :: h != g ==> !Has(m, GroupBit(h))
    ensures m == GroupBit(g)
  {
    forall h ensures Has(m, GroupBit(h)) == Has(GroupBit(g), GroupBit(h)) {
      GroupBitsDistinct(g, h);
    }
    SameGroupBitsSameMask(m, GroupBit(g));
  }

  lemma GroupBitsDistinct(g: Group, h: Group)
    ensures Has(GroupBit(g), GroupBit(h)) <==> g == h
    ensures GroupBit(g) & !GroupBits == 0
  {
  }

  /** The mask depends on the sixteen scalars only: the stored mask, HSL table and LUT are ignored. */
  lemma MaskIgnoresExtras(p: AdjustParams, q: AdjustParams, eps: real)
    requires forall f :: Get(p, f) == Get(q, f)
    ensures BuildMask(p, eps) == BuildMask(q, eps)
  {
    forall g ensures GroupActive(p, g, eps) == GroupActive(q, g, eps) {
      if GroupActive(p, g, eps) {
        var f :| GroupOf(f) == g && Active(Get(p, f), eps);
        assert Active(Get(q, f), eps);
      }
      if GroupActive(q, g, eps) {
        var f :| GroupOf(f) == g && Active(Get(q, f), eps);
        assert Active(Get(p, f), eps);
      }
    }
    SameGroupBitsSameMask(BuildMask(p, eps), BuildMask(q, eps));
  }

  /** The default parameter set renders nothing. */
  lemma DefaultParamsMaskZero(eps: real)
    requires eps >= 0.0
    ensures BuildMask(Default, eps) == 0
  {
    DefaultMaskIsZero(Default, eps);
  }

  // Group resets. The session manager's reset operations are called by the
  // view-model but are not part of the manager class as written; each sets the
  // fields of its group back to the default 0.

  /** The fields each reset clears. `Effects` is the effects tab: Detail, Vignette and Grain. */
  datatype ResetGroup = LightReset | ColorReset | EffectsReset

  predicate InResetGroup(f: Field, rg: ResetGroup) {
    match rg
    case LightReset => GroupOf(f) == Light
    case ColorReset => GroupOf(f) == Color
    case EffectsReset => GroupOf(f) in {Detail, VignetteGroup, GrainGroup}
  }

  function ResetFields(p: AdjustParams, rg: ResetGroup): (q: AdjustParams)
    ensures forall f :: Get(q, f) == if InResetGroup(f, rg) then 0.0 else Get(p, f)
    ensures SameExtras(p, q)
  {
    match rg
    case LightReset =>
      p.(exposure := 0.0, brightness := 0.0, contrast := 0.0, highlights := 0.0,
         shadows := 0.0, whites := 0.0, blacks := 0.0)
    case ColorReset =>
      p.(temperature := 0.0, tint := 0.0, vibrance := 0.0, saturation := 0.0)
    case EffectsReset =>
      p.(texture := 0.0, clarity := 0.0, dehaze := 0.0, vignette := 0.0, grain := 0.0)
  }

  /** Zeroes the three HSL arrays, keeping their lengths; nothing else changes. */
  function ResetHsl(p: AdjustParams): (q: AdjustParams)
    ensures forall f :: Get(q, f) == Get(p, f)
    ensures |q.hslHue| == |p.hslHue| && |q.hslSaturation| == |p.hslSaturation| && |q.hslLuminance| == |p.hslLuminance|
    ensures forall i :: 0 <= i < |q.hslHue| ==> q.hslHue[i] == 0.0
    ensures forall i :: 0 <= i < |q.hslSaturation| ==> q.hslSaturation[i] == 0.0
    ensures forall i :: 0 <= i < |q.hslLuminance| ==> q.hslLuminance[i] == 0.0
    ensures q.lutPath == p.lutPath && q.lutAmount == p.lutAmount && q.activeMask == p.activeMask
  {
    p.(hslHue := Zeros(|p.hslHue|), hslSaturation := Zeros(|p.hslSaturation|),
       hslLuminance := Zeros(|p.hslLuminance|))
  }
}
