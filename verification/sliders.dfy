/**
 * Sliders and their mapping onto the parameter set: the default tab layout,
 * the two `map` directions (parameters to slider values and one slider value
 * to its parameter), and the adjust screen's slider list and selection
 * callback.
 */
module Sliders {
  import opened Wrappers
  import opened Params
  import ViewModels

  /** A slider; `caption` is the display label. */
  datatype AdjustSlider = AdjustSlider(key: string, caption: string, min: int, max: int, value: int)

  datatype AdjustTab = AdjustTab(key: string, caption: string, sliders: seq<AdjustSlider>)

  /** The slider key of each field. */
  function FieldKey(f: Field): string {
    match f
    case Exposure => "exposure"
    case Brightness => "brightness"
    case Contrast => "contrast"
    case Highlights => "highlights"
    case Shadows => "shadows"
    case Whites => "whites"
    case Blacks => "blacks"
    case Temperature => "temperature"
    case Tint => "tint"
    case Vibrance => "vibrance"
    case Saturation => "saturation"
    case Texture => "texture"
    case Clarity => "clarity"
    case Dehaze => "dehaze"
    case Vignette => "vignette"
    case Grain => "grain"
  }

  /** The `when (key)` dispatch shared by both `map` functions: which field a key names, if any. */
  function KeyField(k: string): (r: Option<Field>)
    ensures r.Some? ==> FieldKey(r.value) == k
  {
    if k == "exposure" then Some(Exposure)
    else if k == "brightness" then Some(Brightness)
    else if k == "contrast" then Some(Contrast)
    else if k == "highlights" then Some(Highlights)
    else if k == "shadows" then Some(Shadows)
    else if k == "whites" then Some(Whites)
    else if k == "blacks" then Some(Blacks)
    else if k == "temperature" then Some(Temperature)
    else if k == "tint" then Some(Tint)
    else if k == "vibrance" then Some(Vibrance)
    else if k == "saturation" then Some(Saturation)
    else if k == "texture" then Some(Texture)
    else if k == "clarity" then Some(Clarity)
    else if k == "dehaze" then Some(Dehaze)
    else if k == "vignette" then Some(Vignette)
    else if k == "grain" then Some(Grain)
    else None
  }

  /** Every field has a key the dispatch recognises, and distinct fields have distinct keys. */
  lemma KeyFieldInverse(f: Field)
    ensures KeyField(FieldKey(f)) == Some(f)
  {
  }

  lemma FieldKeysDistinct(f: Field, g: Field)
    requires f != g
    ensures FieldKey(f) != FieldKey(g)
  {
    KeyFieldInverse(f);
    KeyFieldInverse(g);
  }

  /** `Float.toInt()`: truncation toward zero (saturation at the Int bounds is not modelled). */
  function TruncToInt(x: real): (n: int)
    ensures x >= 0.0 ==> n as real <= x < n as real + 1.0
    ensures x < 0.0 ==> n as real - 1.0 < x <= n as real
  {
    if x >= 0.0 then x.Floor else -((-x).Floor)
  }

  /**
   * `map(slider, params)`: a recognised key writes its field with value/100
   * and nothing else; an unknown key changes nothing.
   */
  function MapSlider(s: AdjustSlider, p: AdjustParams): (q: AdjustParams)
    ensures forall f :: KeyField(s.key) == Some(f) ==>
      Get(q, f) == s.value as real / 100.0 && forall g :: g != f ==> Get(q, g) == Get(p, g)
    ensures KeyField(s.key).None? ==> q == p
    ensures SameExtras(p, q)
  {
    match KeyField(s.key)
    case Some(f) => Set(p, f, s.value as real / 100.0)
    case None => p
  }

  /** The slider value a recognised slider shows for the current parameters. */
  function SliderValue(s: AdjustSlider, p: AdjustParams): int {
    match KeyField(s.key)
    case Some(f) => TruncToInt(Get(p, f) * 100.0)
    case None => s.value
  }

  /**
   * `map(list, params)`: each recognised slider's value becomes its field
   * times 100, truncated; keys, labels, bounds and order are kept, and
   * unknown sliders are left alone.
   */
  function MapList(list: seq<AdjustSlider>, p: AdjustParams): (r: seq<AdjustSlider>)
    ensures |r| == |list|
    ensures forall i :: 0 <= i < |list| ==>
      r[i].key == list[i].key && r[i].caption == list[i].caption && r[i].min == list[i].min && r[i].max == list[i].max
    ensures forall i :: 0 <= i < |list| && KeyField(list[i].key).None? ==> r[i] == list[i]
    ensures forall i, f :: 0 <= i < |list| && KeyField(list[i].key) == Some(f) ==>
      r[i].value == TruncToInt(Get(p, f) * 100.0)
  {
    seq(|list|, i requires 0 <= i < |list| => list[i].(value := SliderValue(list[i], p)))
  }

  /**
   * Over exact arithmetic, a slider value written into the parameters and
   * read back by `map(list, params)` is the same value.
   */
  lemma SliderRoundTrip(s: AdjustSlider, p: AdjustParams)
    requires KeyField(s.key).Some?
    ensures MapList([s], MapSlider(s, p)) == [s]
  {
    var f := KeyField(s.key).value;
    var q := MapSlider(s, p);
    assert Get(q, f) * 100.0 == s.value as real;
    assert TruncToInt(s.value as real) == s.value;
    assert MapList([s], q)[0] == s;
  }

  /**
   * And a parameter that sits on a slider step survives the opposite round
   * trip: shown as a slider value, then written back.
   */
  lemma ParamRoundTrip(s: AdjustSlider, p: AdjustParams, k: int)
    requires KeyField(s.key).Some? && Get(p, KeyField(s.key).value) == k as real / 100.0
    ensures MapSlider(MapList([s], p)[0], p) == p
  {
    var f := KeyField(s.key).value;
    assert Get(p, f) * 100.0 == k as real;
    assert TruncToInt(k as real) == k;
    var q := MapSlider(MapList([s], p)[0], p);
    assert Get(q, f) == Get(p, f);
    assert forall g :: Get(q, g) == Get(p, g);
    assert q == p;
  }

  // ---------------------------------------------------------------------------
  // The default tab layout

  function Slider(key: string, caption: string, min: int, max: int): AdjustSlider {
    AdjustSlider(key, caption, min, max, 0)
  }

  const LightSliders: seq<AdjustSlider> := [
    Slider("exposure", "Exposure", -500, 500),
    Slider("brightness", "Brightness", -100, 100),
    Slider("contrast", "Contrast", -100, 100),
    Slider("highlights", "Highlights", -100, 100),
    Slider("shadows", "Shadows", -100, 100),
    Slider("whites", "Whites", -100, 100),
    Slider("blacks", "Blacks", -100, 100)]

  const ColorSliders: seq<AdjustSlider> := [
    Slider("temperature", "Temperature", -100, 100),
    Slider("tint", "Tint", -100, 100),
    Slider("vibrance", "Vibrance", -100, 100),
    Slider("saturation", "Saturation", -100, 100)]

  const EffectSliders: seq<AdjustSlider> := [
    Slider("texture", "Texture", -100, 100),
    Slider("clarity", "Clarity", -100, 100),
    Slider("dehaze", "Dehaze", -100, 100),
    Slider("vignette", "Vignette", -100, 100),
    Slider("grain", "Grain", 0, 100)]

  /** Light, Color, Effects, and an HSL tab with no sliders (its screen is custom). */
  function DefaultTabs(): seq<AdjustTab> {
    [AdjustTab("light", "Light", LightSliders),
     AdjustTab("color", "Color", ColorSliders),
     AdjustTab("effects", "Effects", EffectSliders),
     AdjustTab("hsl", "HSL", [])]
  }

  const AllDefaultSliders: seq<AdjustSlider> := LightSliders + ColorSliders + EffectSliders

  /** The field each slider of a list drives, in order. */
  function FieldsOf(list: seq<AdjustSlider>): seq<Option<Field>> {
    seq(|list|, i requires 0 <= i < |list| => KeyField(list[i].key))
  }

  /** The tab layout: four tabs in order, the last without sliders. */
  lemma DefaultTabsShape()
    ensures |DefaultTabs()| == 4
    ensures DefaultTabs()[0].key == "light" && DefaultTabs()[1].key == "color"
    ensures DefaultTabs()[2].key == "effects" && DefaultTabs()[3].key == "hsl"
    ensures DefaultTabs()[3].sliders == []
  {
  }

  /** Every default slider starts at 0 inside its range; exposure spans ±500 and grain [0, 100]. */
  lemma DefaultSliderBounds()
    ensures |AllDefaultSliders| == 16
    ensures forall i :: 0 <= i < 16 ==>
      AllDefaultSliders[i].value == 0 && AllDefaultSliders[i].min <= 0 <= AllDefaultSliders[i].max
    ensures AllDefaultSliders[0].key == "exposure" && AllDefaultSliders[0].min == -500 && AllDefaultSliders[0].max == 500
    ensures AllDefaultSliders[15].key == "grain" && AllDefaultSliders[15].min == 0 && AllDefaultSliders[15].max == 100
  {
  }

  /**
   * Tab membership follows the mask groups: the light tab drives exactly the
   * Light fields, the colour tab the Color fields, and the effects tab the
   * Detail fields plus vignette and grain, each field once and in
   * declaration order.
   */
  lemma TabsMatchGroups()
    ensures FieldsOf(LightSliders) == [Some(Exposure), Some(Brightness), Some(Contrast), Some(Highlights),
                                      Some(Shadows), Some(Whites), Some(Blacks)]
    ensures FieldsOf(ColorSliders) == [Some(Temperature), Some(Tint), Some(Vibrance), Some(Saturation)]
    ensures FieldsOf(EffectSliders) == [Some(Texture), Some(Clarity), Some(Dehaze), Some(Vignette), Some(Grain)]
    ensures forall i :: 0 <= i < |LightSliders| ==> GroupOf(FieldsOf(LightSliders)[i].value) == Light
    ensures forall i :: 0 <= i < |ColorSliders| ==> GroupOf(FieldsOf(ColorSliders)[i].value) == Color
    ensures forall i :: 0 <= i < |EffectSliders| ==>
      GroupOf(FieldsOf(EffectSliders)[i].value) in {Detail, VignetteGroup, GrainGroup}
  {
    LightTabFields();
    ColorTabFields();
    EffectTabFields();
  }

  lemma LightTabFields()
    ensures FieldsOf(LightSliders) == [Some(Exposure), Some(Brightness), Some(Contrast), Some(Highlights),
                                      Some(Shadows), Some(Whites), Some(Blacks)]
  {
  }

  lemma ColorTabFields()
    ensures FieldsOf(ColorSliders) == [Some(Temperature), Some(Tint), Some(Vibrance), Some(Saturation)]
  {
  }

  lemma EffectTabFields()
    ensures FieldsOf(EffectSliders) == [Some(Texture), Some(Clarity), Some(Dehaze), Some(Vignette), Some(Grain)]
  {
  }

  lemma FieldsOfAppend(a: seq<AdjustSlider>, b: seq<AdjustSlider>)
    ensures FieldsOf(a + b) == FieldsOf(a) + FieldsOf(b)
  {
  }

  /** Position of each field in declaration order. */
  function Position(f: Field): nat {
    match f
    case Exposure => 0 case Brightness => 1 case Contrast => 2 case Highlights => 3
    case Shadows => 4 case Whites => 5 case Blacks => 6
    case Temperature => 7 case Tint => 8 case Vibrance => 9 case Saturation => 10
    case Texture => 11 case Clarity => 12 case Dehaze => 13 case Vignette => 14 case Grain => 15
  }

  /** The fields in declaration order. */
  const DeclarationOrder: seq<Field> := [Exposure, Brightness, Contrast, Highlights, Shadows, Whites, Blacks,
                                         Temperature, Tint, Vibrance, Saturation,
                                         Texture, Clarity, Dehaze, Vignette, Grain]

  lemma PositionsFollowDeclarationOrder()
    ensures |DeclarationOrder| == 16
    ensures forall i :: 0 <= i < |DeclarationOrder| ==> Position(DeclarationOrder[i]) == i
  {
  }

  /** The fields of the default layout, in declaration order. */
  lemma DefaultFields()
    ensures |AllDefaultSliders| == |DeclarationOrder|
    ensures forall i :: 0 <= i < |AllDefaultSliders| ==> KeyField(AllDefaultSliders[i].key) == Some(DeclarationOrder[i])
  {
    TabsMatchGroups();
    FieldsOfAppend(LightSliders, ColorSliders);
    FieldsOfAppend(LightSliders + ColorSliders, EffectSliders);
    var fs := FieldsOf(AllDefaultSliders);
    assert fs == seq(16, i requires 0 <= i < 16 => Some(DeclarationOrder[i]));
  }

  /** Every default slider drives a field, and the i-th drives the field at position i. */
  lemma DefaultPositions()
    ensures forall i :: 0 <= i < |AllDefaultSliders| ==>
      KeyField(AllDefaultSliders[i].key).Some? && Position(KeyField(AllDefaultSliders[i].key).value) == i
  {
    DefaultFields();
    PositionsFollowDeclarationOrder();
  }

  /** The sixteen default keys are pairwise distinct and every one is recognised by the dispatch. */
  lemma DefaultKeysDistinctAndMapped()
    ensures forall i :: 0 <= i < |AllDefaultSliders| ==> KeyField(AllDefaultSliders[i].key).Some?
    ensures forall i, j :: 0 <= i < j < |AllDefaultSliders| ==> AllDefaultSliders[i].key != AllDefaultSliders[j].key
  {
    DefaultPositions();
  }

  // ---------------------------------------------------------------------------
  // The adjust screen's slider list and its selection callback

  /**
   * The adjust screen's own list: the same sixteen sliders, default bounds
   * except exposure (±500) and grain (minimum 0). The screen passes each
   * slider an icon as its third argument, which the slider class as written
   * has no field for; it is read here as an icon, not as `min`, and left out.
   */
  const AdjustList: seq<AdjustSlider> := [
    AdjustSlider("exposure", "Exposure", -500, 500, 0),
    AdjustSlider("brightness", "Brightness", -100, 100, 0),
    AdjustSlider("contrast", "Contrast", -100, 100, 0),
    AdjustSlider("highlights", "Highlights", -100, 100, 0),
    AdjustSlider("shadows", "Shadows", -100, 100, 0),
    AdjustSlider("whites", "Whites", -100, 100, 0),
    AdjustSlider("blacks", "Blacks", -100, 100, 0),
    AdjustSlider("temperature", "Temperature", -100, 100, 0),
    AdjustSlider("tint", "Tint", -100, 100, 0),
    AdjustSlider("vibrance", "Vibrance", -100, 100, 0),
    AdjustSlider("saturation", "Saturation", -100, 100, 0),
    AdjustSlider("texture", "Texture", -100, 100, 0),
    AdjustSlider("clarity", "Clarity", -100, 100, 0),
    AdjustSlider("dehaze", "Dehaze", -100, 100, 0),
    AdjustSlider("vignette", "Vignette", -100, 100, 0),
    AdjustSlider("grain", "Grain", 0, 100, 0)]

  /** The screen's list is the default tabs' sliders, in the same order, so all sixteen keys are distinct and mapped. */
  lemma AdjustListMatchesTabs()
    ensures AdjustList == AllDefaultSliders
    ensures forall i :: 0 <= i < |AdjustList| ==> KeyField(AdjustList[i].key).Some?
    ensures forall i, j :: 0 <= i < j < |AdjustList| ==> AdjustList[i].key != AdjustList[j].key
  {
    DefaultKeysDistinctAndMapped();
  }

  datatype SeekBar = SeekBar(max: int, progress: int)

  /** The seek bar shown for a selected slider: its span, and the value offset from the minimum. */
  function SeekFor(s: AdjustSlider): (b: SeekBar)
    ensures s.min <= s.value <= s.max ==> 0 <= b.progress <= b.max
    ensures s.min + b.progress == s.value
  {
    SeekBar(s.max - s.min, s.value - s.min)
  }

  datatype Callback = Callback(seek: Option<SeekBar>, step: ViewModels.VmStep)

  /**
   * The adapter callback: a selection (`required`) re-targets the seek bar;
   * every call then maps the slider into the parameters and requests one
   * render.
   */
  function OnSlider(s: AdjustSlider, required: bool, p: AdjustParams): (r: Callback)
    ensures required <==> r.seek.Some?
    ensures required ==> r.seek.value == SeekFor(s)
    ensures r.step.params == MapSlider(s, p)
    ensures ViewModels.EndsWithOneApply(r.step.effects)
  {
    Callback(if required then Some(SeekFor(s)) else None,
             ViewModels.VmStep(MapSlider(s, p), [ViewModels.ApplyAdjust]))
  }
}
