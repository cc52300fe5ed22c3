/**
 * Thumbnail generation for LUT presets: the centre-crop arithmetic that cuts
 * an exact-size thumbnail out of a scaled bitmap, and the batch loop that
 * renders one thumbnail per preset. Media-store calls and the bridge are
 * per-item inputs.
 */
module Thumbnails {
  import opened Wrappers
  import Params
  import Session

  /**
   * Kotlin's `Int / 2`, which truncates toward zero (Dafny's `/` is
   * Euclidean, rounding negative odd numbers down instead).
   */
  function KotlinHalf(a: int): (q: int)
    ensures -1 <= a - 2 * q <= 1
    ensures a >= 0 ==> 0 <= a - 2 * q && q >= 0
    ensures a <= 0 ==> a - 2 * q <= 0 && q <= 0
  {
    if a >= 0 then a / 2 else -((-a) / 2)
  }

  function Max(a: int, b: int): int {
    if a >= b then a else b
  }

  function Min(a: int, b: int): int {
    if a <= b then a else b
  }

  datatype CropRect = CropRect(x: int, y: int, width: int, height: int)

  /** One axis of the centre crop: offset `max(0, (scaled - target) / 2)`, length `min(target, scaled - offset)`. */
  function CropAxis(scaled: int, target: int): (r: (int, int))
    ensures 0 <= r.0 && r.0 + r.1 <= scaled && r.1 <= target
    ensures scaled >= target ==> r.1 == target && r.0 == (scaled - target) / 2
    ensures scaled >= target ==> r.0 <= scaled - r.0 - r.1 <= r.0 + 1
    ensures scaled < target ==> r.0 == 0 && r.1 == scaled
    ensures scaled > 0 && target > 0 ==> r.1 > 0
  {
    var offset := Max(0, KotlinHalf(scaled - target));
    (offset, Min(target, scaled - offset))
  }

  /**
   * The crop rectangle cut out of a bitmap already scaled to
   * `scaledW` x `scaledH` to cover `targetW` x `targetH`. The float scale
   * step that produced the scaled size is not modelled; its result is an
   * input.
   */
  function CenterCrop(scaledW: int, scaledH: int, targetW: int, targetH: int): (r: CropRect)
    ensures 0 <= r.x && r.x + r.width <= scaledW && r.width <= targetW
    ensures 0 <= r.y && r.y + r.height <= scaledH && r.height <= targetH
    ensures scaledW >= targetW ==> r.width == targetW && r.x == (scaledW - targetW) / 2
    ensures scaledH >= targetH ==> r.height == targetH && r.y == (scaledH - targetH) / 2
    ensures scaledW < targetW ==> r.x == 0 && r.width == scaledW
    ensures scaledH < targetH ==> r.y == 0 && r.height == scaledH
  {
    var (x, w) := CropAxis(scaledW, targetW);
    var (y, h) := CropAxis(scaledH, targetH);
    CropRect(x, y, w, h)
  }

  /**
   * The `max(0, _)` clamp hides the difference between truncating and
   * Euclidean halving: they differ only on negative odd differences, which
   * the clamp maps to 0 either way.
   */
  lemma ClampHidesTruncation(d: int)
    ensures Max(0, KotlinHalf(d)) == Max(0, d / 2)
    ensures d < 0 && d % 2 == 1 ==> KotlinHalf(d) == d / 2 + 1
  {
  }

  /** A 1000 x 500 source scaled by 0.6 to cover 300 x 300 is 600 x 300; the crop is centred. */
  lemma CoverCropExample()
    ensures CenterCrop(600, 300, 300, 300) == CropRect(150, 0, 300, 300)
  {
  }

  /** A scaled size that covers the target (as a cover scale produces) yields exactly the target size. */
  lemma CoverGivesExactSize(scaledW: int, scaledH: int, targetW: int, targetH: int)
    requires scaledW >= targetW && scaledH >= targetH
    ensures var r := CenterCrop(scaledW, scaledH, targetW, targetH);
      r.width == targetW && r.height == targetH
  {
  }

  // ---------------------------------------------------------------------------
  // Batch generation

  /** A catalogue preset: display name, LUT file path, and the thumbnail location filled in here. */
  datatype LutFilter = LutFilter(name: string, filePath: string, thumbPath: Option<string>)

  /** A platform call that either returns a value or raises. */
  datatype Attempt<T> = Returned(value: T) | Raised

  /**
   * What the platform and the bridge do for one preset: whether querying and
   * deleting an old thumbnail raised, what inserting a new media entry
   * returned (its URI, or null), what the bridge returned, and whether
   * writing the JPEG raised.
   */
  datatype ItemOracle = ItemOracle(
    cleanupRaises: bool,
    insert: Attempt<Option<string>>,
    render: Attempt<bool>,
    writeRaises: bool)

  /** Kotlin's `Char.isWhitespace`, on the ASCII controls and the Unicode space separators. */
  predicate IsWhitespace(c: char) {
    || c == ' ' || c == '\t' || c == '\n' || c == '\U{000B}' || c == '\U{000C}' || c == '\r'
    || ('\U{001C}' <= c <= '\U{001F}')
    || c == '\U{00A0}' || c == '\U{1680}' || ('\U{2000}' <= c <= '\U{200A}')
    || c == '\U{2028}' || c == '\U{2029}' || c == '\U{202F}' || c == '\U{205F}' || c == '\U{3000}'
  }

  /** Kotlin's `isBlank`: empty or only whitespace. */
  predicate IsBlank(s: string) {
    forall i :: 0 <= i < |s| ==> IsWhitespace(s[i])
  }

  /** The display name the thumbnail is stored under. */
  function FileName(lut: LutFilter): string {
    lut.name + ".jpg"
  }

  /** The throwaway parameter set the bridge receives for one preset: only the LUT path is set. */
  function ThumbParams(lut: LutFilter): (p: Params.AdjustParams)
    ensures p.lutPath == Some("filters/" + lut.filePath)
    ensures forall f :: Params.Get(p, f) == 0.0
  {
    Params.Default.(lutPath := Some("filters/" + lut.filePath))
  }

  /** The throwaway parameter set marks no adjustment group, and its stored mask is empty too. */
  lemma ThumbParamsMarkNoGroup(lut: LutFilter, eps: real)
    requires eps >= 0.0
    ensures Params.BuildMask(ThumbParams(lut), eps) == 0
    ensures ThumbParams(lut).activeMask == 0
  {
    Params.DefaultMaskIsZero(ThumbParams(lut), eps);
  }

  /** Whether the preset gets as far as the bridge call. */
  predicate ReachesBridge(lut: LutFilter, o: ItemOracle) {
    !IsBlank(lut.filePath) && !o.cleanupRaises && o.insert.Returned? && o.insert.value.Some?
  }

  /** Whether the preset's thumbnail location is recorded. */
  predicate Saves(lut: LutFilter, o: ItemOracle) {
    ReachesBridge(lut, o) && o.render == Returned(true) && !o.writeRaises
  }

  /**
   * One iteration of the batch: blank paths are skipped, a failed cleanup,
   * a null insert, a bridge failure or a write failure leave the preset as
   * it was, and a full success records the new entry's URI.
   */
  function ProcessItem(lut: LutFilter, o: ItemOracle): (r: LutFilter)
    ensures r.name == lut.name && r.filePath == lut.filePath
    ensures Saves(lut, o) ==> r.thumbPath == Some(o.insert.value.value)
    ensures !Saves(lut, o) ==> r == lut
  {
    if IsBlank(lut.filePath) then lut
    else if o.cleanupRaises then lut
    else match o.insert
      case Raised => lut
      case Returned(None) => lut
      case Returned(Some(uri)) =>
        match o.render
        case Raised => lut
        case Returned(success) =>
          if !success then lut
          else if o.writeRaises then lut
          else lut.(thumbPath := Some(uri))
  }

  function CountBridgeCalls(luts: seq<LutFilter>, oracles: seq<ItemOracle>): nat
    requires |oracles| == |luts|
    decreases |luts|
  {
    if |luts| == 0 then 0
    else (if ReachesBridge(luts[0], oracles[0]) then 1 else 0) + CountBridgeCalls(luts[1..], oracles[1..])
  }

  lemma {:induction false} CountBridgeCallsSnoc(luts: seq<LutFilter>, oracles: seq<ItemOracle>, i: nat)
    requires |oracles| == |luts| && i < |luts|
    ensures CountBridgeCalls(luts[..i + 1], oracles[..i + 1])
      == CountBridgeCalls(luts[..i], oracles[..i]) + (if ReachesBridge(luts[i], oracles[i]) then 1 else 0)
    decreases i
  {
    if i > 0 {
      assert luts[..i + 1][1..] == luts[1..][..i] && oracles[..i + 1][1..] == oracles[1..][..i];
      assert luts[..i][1..] == luts[1..][..i - 1] && oracles[..i][1..] == oracles[1..][..i - 1];
      CountBridgeCallsSnoc(luts[1..], oracles[1..], i - 1);
    }
  }

  /**
   * Renders every preset in order against the session's original. Without an
   * original nothing happens. A failure on one preset never stops the batch:
   * each preset's result depends on its own inputs only.
   */
  method GenerateLutThumbs(original: Option<Session.Bitmap>, luts: seq<LutFilter>, oracles: seq<ItemOracle>)
    returns (out: seq<LutFilter>, bridgeCalls: nat)
    requires |oracles| == |luts|
    ensures |out| == |luts|
    ensures original.None? ==> out == luts && bridgeCalls == 0
    ensures original.Some? ==> forall i :: 0 <= i < |luts| ==> out[i] == ProcessItem(luts[i], oracles[i])
    ensures original.Some? ==> bridgeCalls == CountBridgeCalls(luts, oracles)
    ensures forall i :: 0 <= i < |luts| ==> out[i].name == luts[i].name && out[i].filePath == luts[i].filePath
  {
    if original.None? {
      return luts, 0;
    }
    out, bridgeCalls := [], 0;
    var i := 0;
    while i < |luts|
      invariant 0 <= i <= |luts|
      invariant |out| == i
      invariant forall j :: 0 <= j < i ==> out[j] == ProcessItem(luts[j], oracles[j])
      invariant bridgeCalls == CountBridgeCalls(luts[..i], oracles[..i])
    {
      var lut := luts[i];
      var o := oracles[i];
      CountBridgeCallsSnoc(luts, oracles, i);
      if ReachesBridge(lut, o) {
        bridgeCalls := bridgeCalls + 1;
      }
      out := out + [ProcessItem(lut, o)];
      i := i + 1;
    }
    assert luts[..i] == luts && oracles[..i] == oracles;
  }

  /**
   * Batch resilience: whatever one preset's oracle does, a different preset
   * whose own calls all succeed still has its thumbnail recorded.
   */
  method ResilienceExample(original: Session.Bitmap, luts: seq<LutFilter>, oracles: seq<ItemOracle>, bad: nat, good: nat)
    returns (out: seq<LutFilter>)
    requires |oracles| == |luts| && bad < |luts| && good < |luts| && bad != good
    requires oracles[bad].render == Raised
    requires Saves(luts[good], oracles[good])
    ensures |out| == |luts|
    ensures out[bad] == luts[bad]
    ensures out[good].thumbPath == Some(oracles[good].insert.value.value)
  {
    var calls;
    out, calls := GenerateLutThumbs(Some(original), luts, oracles);
  }
}
