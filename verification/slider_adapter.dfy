/**
 * The slider-list adapter of the adjust screen: the list of sliders, the
 * selected key, and the operations the seek bar and the screen call. Each
 * operation returns the clicks it reports to the screen's callback.
 */
module SliderAdapter {
  import opened Wrappers
  import opened Params
  import opened Sliders

  datatype Adapter = Adapter(items: seq<AdjustSlider>, selectedKey: Option<string>)

  /** One invocation of the screen's callback; `required` marks a selection. */
  datatype Click = Click(slider: AdjustSlider, required: bool)

  predicate KeyMatches(s: AdjustSlider, key: Option<string>) {
    key == Some(s.key)
  }

  /** `indexOfFirst { it.key == key }`, searching from `from`: the first match, or -1. */
  function IndexFrom(items: seq<AdjustSlider>, key: Option<string>, from: nat): (i: int)
    requires from <= |items|
    ensures i == -1 || from <= i < |items|
    ensures i >= 0 ==> KeyMatches(items[i], key)
    ensures i >= 0 ==> forall j :: from <= j < i ==> !KeyMatches(items[j], key)
    ensures i == -1 ==> forall j :: from <= j < |items| ==> !KeyMatches(items[j], key)
    decreases |items| - from
  {
    if from == |items| then -1
    else if KeyMatches(items[from], key) then from
    else IndexFrom(items, key, from + 1)
  }

  function IndexOfKey(items: seq<AdjustSlider>, key: Option<string>): (i: int)
    ensures -1 <= i < |items|
    ensures i >= 0 ==> KeyMatches(items[i], key) && forall j :: 0 <= j < i ==> !KeyMatches(items[j], key)
    ensures i == -1 <==> forall j :: 0 <= j < |items| ==> !KeyMatches(items[j], key)
  {
    IndexFrom(items, key, 0)
  }

  /** The changed-dot is shown exactly for sliders away from 0. */
  predicate DotVisible(s: AdjustSlider) {
    s.value != 0
  }

  /** List diffing treats two sliders as the same item when their keys agree. */
  predicate SameItem(a: AdjustSlider, b: AdjustSlider) {
    a.key == b.key
  }

  /** Item identity ignores everything but the key, so a value change keeps the item's identity. */
  lemma SameItemIgnoresValue(s: AdjustSlider, v: int)
    ensures SameItem(s, s.(value := v))
    ensures forall t :: SameItem(s, t) <==> SameItem(s.(value := v), t)
  {
  }

  /** Always stores the key; reports a selection click exactly when a slider carries that key. */
  function SetSelectedKey(a: Adapter, key: Option<string>): (r: (Adapter, seq<Click>))
    ensures r.0 == a.(selectedKey := key)
    ensures (exists j :: 0 <= j < |a.items| && KeyMatches(a.items[j], key)) <==> r.1 != []
    ensures r.1 != [] ==> |r.1| == 1 && r.1[0].required && KeyMatches(r.1[0].slider, key) && r.1[0].slider in a.items
  {
    var i := IndexOfKey(a.items, key);
    (a.(selectedKey := key), if i >= 0 then [Click(a.items[i], true)] else [])
  }

  /** Tapping the item at `i` selects its key and reports it as a selection click. */
  function TapItem(a: Adapter, i: nat): (r: (Adapter, seq<Click>))
    requires i < |a.items|
    ensures r.0.items == a.items && r.0.selectedKey == Some(a.items[i].key)
    ensures r.1 == [Click(a.items[i], true)]
  {
    (a.(selectedKey := Some(a.items[i].key)), [Click(a.items[i], true)])
  }

  /**
   * With distinct keys, a tapped item is the one the seek bar and its
   * release act on afterwards.
   */
  lemma TapThenRelease(a: Adapter, i: nat)
    requires i < |a.items|
    requires forall j, k :: 0 <= j < k < |a.items| ==> a.items[j].key != a.items[k].key
    ensures IndexOfKey(TapItem(a, i).0.items, TapItem(a, i).0.selectedKey) == i
    ensures ApplyAdjust(TapItem(a, i).0) == [Click(a.items[i], false)]
  {
    var b := TapItem(a, i).0;
    assert KeyMatches(b.items[i], b.selectedKey);
    var k := IndexOfKey(b.items, b.selectedKey);
    assert k == i by {
      assert forall j :: 0 <= j < |a.items| && j != i ==> !KeyMatches(a.items[j], b.selectedKey);
    }
  }

  /**
   * The seek bar moved to `progress`: the first selected slider takes the
   * value `min + progress` and the value is reported. With nothing selected
   * nothing changes and nothing is reported.
   */
  function UpdateValue(a: Adapter, progress: int): (r: (Adapter, Option<int>))
    ensures r.0.selectedKey == a.selectedKey && |r.0.items| == |a.items|
    ensures var i := IndexOfKey(a.items, a.selectedKey);
      && (i == -1 ==> r.0 == a && r.1 == None)
      && (i >= 0 ==> r.0.items[i] == a.items[i].(value := a.items[i].min + progress)
                     && r.1 == Some(a.items[i].min + progress))
      && (forall j :: 0 <= j < |a.items| && j != i ==> r.0.items[j] == a.items[j])
  {
    var i := IndexOfKey(a.items, a.selectedKey);
    if i == -1 then (a, None)
    else
      var s := a.items[i];
      (a.(items := a.items[i := s.(value := s.min + progress)]), Some(s.min + progress))
  }

  /** The seek bar was released: at most one non-selection click, for the selected slider. */
  function ApplyAdjust(a: Adapter): (clicks: seq<Click>)
    ensures |clicks| <= 1
    ensures forall c :: c in clicks ==> !c.required && c.slider in a.items && KeyMatches(c.slider, a.selectedKey)
    ensures clicks == [] <==> forall j :: 0 <= j < |a.items| ==> !KeyMatches(a.items[j], a.selectedKey)
  {
    var i := IndexOfKey(a.items, a.selectedKey);
    if i >= 0 then [Click(a.items[i], false)] else []
  }

  /** Every slider goes back to 0, then the selected slider, if any, is re-selected. */
  function ResetAdjust(a: Adapter): (r: (Adapter, seq<Click>))
    ensures |r.0.items| == |a.items| && r.0.selectedKey == a.selectedKey
    ensures forall j :: 0 <= j < |a.items| ==> r.0.items[j] == a.items[j].(value := 0) && !DotVisible(r.0.items[j])
    ensures |r.1| <= 1
    ensures forall c :: c in r.1 ==> c.required && c.slider.value == 0 && KeyMatches(c.slider, a.selectedKey)
    ensures r.1 != [] <==> exists j :: 0 <= j < |a.items| && KeyMatches(a.items[j], a.selectedKey)
  {
    var items := seq(|a.items|, j requires 0 <= j < |a.items| => a.items[j].(value := 0));
    var i := IndexOfKey(items, a.selectedKey);
    (a.(items := items), if i >= 0 then [Click(items[i], true)] else [])
  }

  /**
   * The progress the screen shows for the selected slider, fed back
   * unchanged through `UpdateValue`, restores the slider's value.
   */
  lemma ProgressRoundTrip(a: Adapter)
    requires IndexOfKey(a.items, a.selectedKey) >= 0
    ensures var s := a.items[IndexOfKey(a.items, a.selectedKey)];
      UpdateValue(a, SeekFor(s).progress) == (a, Some(s.value))
  {
    var i := IndexOfKey(a.items, a.selectedKey);
    var s := a.items[i];
    assert s.(value := s.min + SeekFor(s).progress) == s;
    assert a.items[i := s] == a.items;
  }

  /**
   * Dragging the seek bar to `progress` and releasing it writes
   * `(min + progress) / 100` into the selected slider's field, through the
   * screen's callback, and requests one render.
   */
  lemma DragThenReleaseSetsField(a: Adapter, progress: int, p: AdjustParams, f: Field)
    requires IndexOfKey(a.items, a.selectedKey) >= 0
    requires KeyField(a.items[IndexOfKey(a.items, a.selectedKey)].key) == Some(f)
    ensures var clicks := ApplyAdjust(UpdateValue(a, progress).0);
      && |clicks| == 1
      && var cb := OnSlider(clicks[0].slider, clicks[0].required, p);
      && Get(cb.step.params, f) == (a.items[IndexOfKey(a.items, a.selectedKey)].min + progress) as real / 100.0
      && cb.seek.None?
  {
    var i := IndexOfKey(a.items, a.selectedKey);
    var b := UpdateValue(a, progress).0;
    assert b.items[i].key == a.items[i].key;
    forall j | 0 <= j < i ensures !KeyMatches(b.items[j], b.selectedKey) {
      assert b.items[j] == a.items[j];
    }
    assert IndexOfKey(b.items, b.selectedKey) == i;
  }

  /**
   * Resetting the list while a mapped slider is selected writes 0 into that
   * slider's field through the screen's callback and re-initialises the seek
   * bar at the slider's zero position.
   */
  lemma ResetWritesZero(a: Adapter, p: AdjustParams, f: Field)
    requires IndexOfKey(a.items, a.selectedKey) >= 0
    requires KeyField(a.items[IndexOfKey(a.items, a.selectedKey)].key) == Some(f)
    ensures var clicks := ResetAdjust(a).1;
      && |clicks| == 1
      && var cb := OnSlider(clicks[0].slider, clicks[0].required, p);
      && Get(cb.step.params, f) == 0.0
      && cb.seek == Some(SeekBar(clicks[0].slider.max - clicks[0].slider.min, -clicks[0].slider.min))
  {
    var i := IndexOfKey(a.items, a.selectedKey);
    var b := ResetAdjust(a).0;
    assert b.items[i].key == a.items[i].key;
    forall j | 0 <= j < i ensures !KeyMatches(b.items[j], b.selectedKey) {
      assert b.items[j].key == a.items[j].key;
    }
    assert IndexOfKey(b.items, b.selectedKey) == i;
  }

  /**
   * The screen selects the first slider of its list when it opens: the
   * exposure slider is reported once as a selection, with its seek bar
   * spanning [-500, 500] at the zero position.
   */
  lemma InitialSelection()
    ensures var r := SetSelectedKey(Adapter(AdjustList, None), Some(AdjustList[0].key));
      && r.0.selectedKey == Some("exposure")
      && r.1 == [Click(AdjustList[0], true)]
      && SeekFor(r.1[0].slider) == SeekBar(1000, 500)
  {
    assert IndexOfKey(AdjustList, Some(AdjustList[0].key)) == 0;
  }
}
