/**
 * The two view-models that mutate the session's parameter set. Each
 * operation returns the new parameter set together with the effects it
 * triggers, in order, so that "ends by requesting exactly one render" can
 * be stated. `Perform` replays those effects against the session manager.
 */
module ViewModels {
  import opened Wrappers
  import opened Mask
  import opened Params
  import Session

  /** Reset modes shared by both view-models. */
  const FILTER: int := 1
  const ADJUST: int := 2
  const HSL: int := 3

  datatype Effect =
    | SetOriginalOnManager(b: Session.Bitmap)  // the manager receives a new original
    | PostPreview(b: Session.Bitmap)           // the observable preview is set directly
    | EmitRequiredThumb(required: bool)        // launched emission on the thumbnail flow
    | EmitReset(mode: int)                     // launched emission of the mode on the reset flow
    | EmitResetDone                            // launched emission of `true` on the reset flow
    | ClearLutCache                            // the bridge's LUT cache is cleared
    | ApplyAdjust                              // a render is requested from the manager

  datatype VmStep = VmStep(params: AdjustParams, effects: seq<Effect>)

  function CountApply(es: seq<Effect>): nat {
    multiset(es)[ApplyAdjust]
  }

  /** The effects end with a render request, and it is the only one. */
  predicate EndsWithOneApply(es: seq<Effect>) {
    |es| > 0 && es[|es| - 1] == ApplyAdjust && CountApply(es) == 1
  }

  predicate HslIndexValid(p: AdjustParams, i: int) {
    0 <= i < |p.hslHue| && i < |p.hslSaturation| && i < |p.hslLuminance|
  }

  /**
   * Writes index `i` of the three HSL arrays (as floats) and nothing else.
   * An index outside the arrays raises in the source; callers must stay inside.
   */
  function WriteHsl(p: AdjustParams, i: int, hue: int, sat: int, lum: int): (q: AdjustParams)
    requires HslIndexValid(p, i)
    ensures |q.hslHue| == |p.hslHue| && |q.hslSaturation| == |p.hslSaturation| && |q.hslLuminance| == |p.hslLuminance|
    ensures q.hslHue[i] == hue as real && q.hslSaturation[i] == sat as real && q.hslLuminance[i] == lum as real
    ensures forall j :: 0 <= j < |p.hslHue| && j != i ==> q.hslHue[j] == p.hslHue[j]
    ensures forall j :: 0 <= j < |p.hslSaturation| && j != i ==> q.hslSaturation[j] == p.hslSaturation[j]
    ensures forall j :: 0 <= j < |p.hslLuminance| && j != i ==> q.hslLuminance[j] == p.hslLuminance[j]
    ensures forall f :: Get(q, f) == Get(p, f)
    ensures q.lutPath == p.lutPath && q.lutAmount == p.lutAmount && q.activeMask == p.activeMask
  {
    p.(hslHue := p.hslHue[i := hue as real],
       hslSaturation := p.hslSaturation[i := sat as real],
       hslLuminance := p.hslLuminance[i := lum as real])
  }

  // ---------------------------------------------------------------------------
  // The shared view-model (filter, adjust and HSL screens)

  /** Sets the original, posts it as the preview, announces whether thumbnails are wanted, and renders. */
  function ShareSetOriginal(p: AdjustParams, b: Session.Bitmap, requiredCreateThumb: bool): (r: VmStep)
    ensures r.params == p
    ensures |r.effects| == 4 && r.effects[0] == SetOriginalOnManager(b)
    ensures PostPreview(b) in r.effects && EmitRequiredThumb(requiredCreateThumb) in r.effects
    ensures EndsWithOneApply(r.effects)
  {
    VmStep(p, [SetOriginalOnManager(b), PostPreview(b), EmitRequiredThumb(requiredCreateThumb), ApplyAdjust])
  }

  /** `updateHsl`, written identically in both view-models: store the channel's values, then render. */
  function UpdateHsl(p: AdjustParams, i: int, hue: int, sat: int, lum: int): (r: VmStep)
    requires HslIndexValid(p, i)
    ensures r.params == WriteHsl(p, i, hue, sat, lum)
    ensures EndsWithOneApply(r.effects)
  {
    VmStep(WriteHsl(p, i, hue, sat, lum), [ApplyAdjust])
  }

  /** Stores the path (even a null one) and sets the LUT bit; every other mask bit and field is kept. */
  function ShareUpdateLutPath(p: AdjustParams, path: Option<string>): (r: VmStep)
    ensures r.params.lutPath == path
    ensures Has(r.params.activeMask, MASK_LUT)
    ensures r.params.activeMask & !MASK_LUT == p.activeMask & !MASK_LUT
    ensures r.params == p.(lutPath := path, activeMask := r.params.activeMask)
    ensures ClearLutCache in r.effects && EndsWithOneApply(r.effects)
  {
    VmStep(p.(lutPath := path, activeMask := p.activeMask | MASK_LUT), [ClearLutCache, ApplyAdjust])
  }

  /**
   * Stores the amount unclamped. The LUT bit is set first and cleared again
   * when the amount is exactly zero; no other mask bit moves.
   */
  function ShareUpdateLutAmount(p: AdjustParams, amount: real): (r: VmStep)
    ensures r.params.lutAmount == amount
    ensures Has(r.params.activeMask, MASK_LUT) <==> amount != 0.0
    ensures r.params.activeMask & !MASK_LUT == p.activeMask & !MASK_LUT
    ensures r.params == p.(lutAmount := amount, activeMask := r.params.activeMask)
    ensures ClearLutCache in r.effects && EndsWithOneApply(r.effects)
  {
    var withLut := p.activeMask | MASK_LUT;
    var mask := if amount == 0.0 then withLut & !MASK_LUT else withLut;
    VmStep(p.(lutAmount := amount, activeMask := mask), [ClearLutCache, ApplyAdjust])
  }

  /** Resetting here only clears the LUT cache and announces the mode; no parameter changes and no render. */
  function ShareReset(p: AdjustParams, mode: int): (r: VmStep)
    ensures r.params == p
    ensures CountApply(r.effects) == 0
    ensures |r.effects| == 2 && r.effects[0] == ClearLutCache && EmitReset(mode) in r.effects
  {
    VmStep(p, [ClearLutCache, EmitReset(mode)])
  }

  /** The three reset modes are distinct values. */
  lemma ResetModesDistinct()
    ensures FILTER != ADJUST && ADJUST != HSL && FILTER != HSL
  {
  }

  /** A LUT can stay selected while switched off: a zero amount after a path leaves the path but clears the bit. */
  lemma LutPinnedButInactive(p: AdjustParams, path: string)
    ensures var q := ShareUpdateLutAmount(ShareUpdateLutPath(p, Some(path)).params, 0.0).params;
      q.lutPath == Some(path) && !Has(q.activeMask, MASK_LUT)
  {
  }

  /** The LUT bit lies outside the group bits, so LUT updates never change the dirty mask. */
  lemma LutUpdatesKeepDirtyMask(p: AdjustParams, path: Option<string>, amount: real, eps: real)
    ensures BuildMask(ShareUpdateLutPath(p, path).params, eps) == BuildMask(p, eps)
    ensures BuildMask(ShareUpdateLutAmount(p, amount).params, eps) == BuildMask(p, eps)
  {
    MaskIgnoresExtras(p, ShareUpdateLutPath(p, path).params, eps);
    MaskIgnoresExtras(p, ShareUpdateLutAmount(p, amount).params, eps);
  }

  // ---------------------------------------------------------------------------
  // The adjust-screen view-model

  /** Sets the original and posts it as the preview; no render is requested. */
  function AdjustSetOriginal(p: AdjustParams, b: Session.Bitmap): (r: VmStep)
    ensures r.params == p
    ensures SetOriginalOnManager(b) in r.effects && PostPreview(b) in r.effects
    ensures CountApply(r.effects) == 0
  {
    VmStep(p, [SetOriginalOnManager(b), PostPreview(b)])
  }

  function AdjustResetHsl(p: AdjustParams): (r: VmStep)
    ensures r.params == ResetHsl(p)
    ensures EndsWithOneApply(r.effects)
  {
    VmStep(ResetHsl(p), [EmitResetDone, ApplyAdjust])
  }

  /**
   * ADJUST resets the light, colour and effects groups, HSL resets the HSL
   * table, and any other mode (FILTER included) resets nothing. Every mode
   * then announces the reset and requests one render.
   */
  function AdjustReset(p: AdjustParams, mode: int): (r: VmStep)
    ensures mode == ADJUST ==> forall f :: Get(r.params, f) == 0.0
    ensures mode == ADJUST ==> SameExtras(r.params, p)
    ensures mode == HSL ==> r.params == ResetHsl(p)
    ensures mode != ADJUST && mode != HSL ==> r.params == p
    ensures EndsWithOneApply(r.effects)
  {
    var q :=
      if mode == FILTER then p
      else if mode == ADJUST then ResetFields(ResetFields(ResetFields(p, LightReset), ColorReset), EffectsReset)
      else if mode == HSL then ResetHsl(p)
      else p;
    assert mode == ADJUST ==> forall f :: InResetGroup(f, LightReset) || InResetGroup(f, ColorReset) || InResetGroup(f, EffectsReset);
    VmStep(q, [EmitResetDone, ApplyAdjust])
  }

  /**
   * Revert: after an ADJUST reset the dirty mask is empty, whatever the
   * parameters were before.
   */
  lemma AdjustResetClearsMask(p: AdjustParams, eps: real)
    requires eps >= 0.0
    ensures BuildMask(AdjustReset(p, ADJUST).params, eps) == 0
  {
    DefaultMaskIsZero(AdjustReset(p, ADJUST).params, eps);
  }

  /** An HSL reset leaves the dirty mask as it was: the mask calculator does not look at the HSL table. */
  lemma HslResetKeepsDirtyMask(p: AdjustParams, eps: real)
    ensures BuildMask(AdjustReset(p, HSL).params, eps) == BuildMask(p, eps)
  {
    MaskIgnoresExtras(p, AdjustReset(p, HSL).params, eps);
  }

  // ---------------------------------------------------------------------------
  // Replaying effects against the session manager

  /** Applies a view-model step to the manager: parameters first, then each effect in order. */
  function Perform(m: Session.Manager, step: VmStep): Session.Step {
    Replay(m.(params := step.params), step.effects)
  }

  function Replay(m: Session.Manager, es: seq<Effect>): Session.Step
    decreases |es|
  {
    if |es| == 0 then Session.Step(m, [])
    else
      var first :=
        match es[0]
        case SetOriginalOnManager(b) => Session.Step(Session.SetOriginalBitmap(m, b), [])
        case ApplyAdjust => Session.ApplyAdjust(m)
        case _ => Session.Step(m, []);
      var rest := Replay(first.next, es[1..]);
      Session.Step(rest.next, first.events + rest.events)
  }

  /** Effects that do not touch the manager leave the replay unchanged. */
  lemma ReplaySkips(m: Session.Manager, es: seq<Effect>)
    requires |es| > 0 && !es[0].SetOriginalOnManager? && !es[0].ApplyAdjust?
    ensures Replay(m, es) == Replay(m, es[1..])
  {
    assert [] + Replay(m, es[1..]).events == Replay(m, es[1..]).events;
  }

  /** On an idle manager, the shared view-model's `setOriginal` launches one render of the new original. */
  lemma ShareSetOriginalRenders(m: Session.Manager, p: AdjustParams, b: Session.Bitmap, required: bool)
    requires !m.isProcessing
    ensures Perform(m, ShareSetOriginal(p, b, required)).events == [Session.Launched(b)]
  {
    var es := ShareSetOriginal(p, b, required).effects;
    var m1 := Session.SetOriginalBitmap(m.(params := p), b);
    var launch := Session.ApplyAdjust(m1);
    assert launch.events == [Session.Launched(b)];
    assert Replay(launch.next, []) == Session.Step(launch.next, []);
    assert Replay(m1, [ApplyAdjust]).events == [Session.Launched(b)];
    var tail := es[1..];
    assert tail == [PostPreview(b), EmitRequiredThumb(required), ApplyAdjust];
    ReplaySkips(m1, tail);
    assert tail[1..] == [EmitRequiredThumb(required), ApplyAdjust];
    ReplaySkips(m1, tail[1..]);
    assert tail[1..][1..] == [ApplyAdjust];
    assert Replay(m1, tail).events == [Session.Launched(b)];
  }

  /** The adjust view-model's `setOriginal` shows the new original without rendering. */
  lemma AdjustSetOriginalShowsOriginal(m: Session.Manager, p: AdjustParams, b: Session.Bitmap)
    ensures Perform(m, AdjustSetOriginal(p, b)).events == []
    ensures Perform(m, AdjustSetOriginal(p, b)).next.preview == Some(b)
  {
    var m1 := Session.SetOriginalBitmap(m.(params := p), b);
    var es := AdjustSetOriginal(p, b).effects;
    assert es[1..] == [PostPreview(b)] && es[1..][1..] == [];
    assert Replay(m1, []) == Session.Step(m1, []);
    assert Replay(m1, es[1..]) == Session.Step(m1, []);
  }
}
