/**
 * Filter-group suggestions for a photo: labels from face detection, two EXIF
 * tags and three quick pixel tests, de-duplicated in first-occurrence order
 * and cut to three. Face detection and the low-light average are inputs; the
 * two single-pixel tests are modelled on the sampled pixel.
 */
module Suggestions {
  import opened Wrappers

  /** A packed ARGB colour, Kotlin's 32-bit `Int`. */
  type Pixel = bv32

  /** `(pixel shr 16) and 0xFF`; masking makes the arithmetic-versus-logical shift immaterial. */
  function RedOf(px: Pixel): (c: int)
    ensures 0 <= c <= 255
  {
    ((px >> 16) & 0xFF) as int
  }

  function GreenOf(px: Pixel): (c: int)
    ensures 0 <= c <= 255
  {
    ((px >> 8) & 0xFF) as int
  }

  function BlueOf(px: Pixel): (c: int)
    ensures 0 <= c <= 255
  {
    (px & 0xFF) as int
  }

  /** Packs four 8-bit channels into an ARGB pixel. */
  function Pack(a: bv8, r: bv8, g: bv8, b: bv8): Pixel {
    (a as bv32 << 24) | (r as bv32 << 16) | (g as bv32 << 8) | b as bv32
  }

  /** Channel extraction inverts packing. */
  lemma ExtractPacked(a: bv8, r: bv8, g: bv8, b: bv8)
    ensures RedOf(Pack(a, r, g, b)) == r as int
    ensures GreenOf(Pack(a, r, g, b)) == g as int
    ensures BlueOf(Pack(a, r, g, b)) == b as int
  {
    RedPacked(a, r, g, b);
    GreenPacked(a, r, g, b);
    BluePacked(a, r, g, b);
  }

  lemma RedPacked(a: bv8, r: bv8, g: bv8, b: bv8)
    ensures (Pack(a, r, g, b) >> 16) & 0xFF == r as bv32
  {
  }

  lemma GreenPacked(a: bv8, r: bv8, g: bv8, b: bv8)
    ensures (Pack(a, r, g, b) >> 8) & 0xFF == g as bv32
  {
  }

  lemma BluePacked(a: bv8, r: bv8, g: bv8, b: bv8)
    ensures Pack(a, r, g, b) & 0xFF == b as bv32
  {
  }

  /**
   * What is known about a non-null bitmap: whether faces were found, the
   * pixel at (width/2, height/4), the centre pixel, and whether the average
   * brightness fell below the low-light threshold.
   */
  datatype BitmapFacts = BitmapFacts(hasFaces: bool, upperPixel: Pixel, centrePixel: Pixel, lowLight: bool)

  /** The two EXIF tags, each -1 when the tag is missing. */
  datatype Exif = Exif(sceneCaptureType: int, lightSource: int)

  const SCENE_CAPTURE_TYPE_LANDSCAPE: int := 1
  const SCENE_CAPTURE_TYPE_PORTRAIT: int := 2
  const SCENE_CAPTURE_TYPE_NIGHT_SCENE: int := 3
  const LIGHT_SOURCE_DAYLIGHT: int := 1
  const LIGHT_SOURCE_D65: int := 21
  const LIGHT_SOURCE_D50: int := 23

  function DetectFace(bitmap: Option<BitmapFacts>): bool {
    bitmap.Some? && bitmap.value.hasFaces
  }

  /** Outdoor: blue dominates the upper-centre pixel. */
  function DetectOutdoor(bitmap: Option<BitmapFacts>): (r: bool)
    ensures r <==> (bitmap.Some? &&
      BlueOf(bitmap.value.upperPixel) > RedOf(bitmap.value.upperPixel) &&
      BlueOf(bitmap.value.upperPixel) > GreenOf(bitmap.value.upperPixel))
  {
    match bitmap
    case None => false
    case Some(b) =>
      var px := b.upperPixel;
      BlueOf(px) > RedOf(px) && BlueOf(px) > GreenOf(px)
  }

  function DetectLowLight(bitmap: Option<BitmapFacts>): bool {
    bitmap.Some? && bitmap.value.lowLight
  }

  function AbsDiff(a: int, b: int): nat {
    if a >= b then a - b else b - a
  }

  /** Vintage: red and green within 20 of each other at the centre, both above blue. */
  function DetectVintageTone(bitmap: Option<BitmapFacts>): (r: bool)
    ensures r <==> (bitmap.Some? &&
      var px := bitmap.value.centrePixel;
      AbsDiff(RedOf(px), GreenOf(px)) < 20 && RedOf(px) > BlueOf(px) && GreenOf(px) > BlueOf(px))
  {
    match bitmap
    case None => false
    case Some(b) =>
      var px := b.centrePixel;
      AbsDiff(RedOf(px), GreenOf(px)) < 20 && RedOf(px) > BlueOf(px) && GreenOf(px) > BlueOf(px)
  }

  /** A missing bitmap makes every detector false. */
  lemma NullBitmapDetectsNothing()
    ensures !DetectFace(None) && !DetectOutdoor(None) && !DetectLowLight(None) && !DetectVintageTone(None)
  {
  }

  /** The scene-capture rule: landscape and night scene are exclusive branches. */
  function SceneLabels(exif: Option<Exif>): (r: seq<string>)
    ensures r == [] || r == ["Travel", "Mood & Atmosphere"] || r == ["Urban & Street", "Black & White"]
    ensures exif.Some? && exif.value.sceneCaptureType == SCENE_CAPTURE_TYPE_LANDSCAPE <==> r == ["Travel", "Mood & Atmosphere"]
    ensures exif.Some? && exif.value.sceneCaptureType == SCENE_CAPTURE_TYPE_NIGHT_SCENE <==> r == ["Urban & Street", "Black & White"]
  {
    match exif
    case None => []
    case Some(e) =>
      if e.sceneCaptureType == SCENE_CAPTURE_TYPE_LANDSCAPE then ["Travel", "Mood & Atmosphere"]
      else if e.sceneCaptureType == SCENE_CAPTURE_TYPE_NIGHT_SCENE then ["Urban & Street", "Black & White"]
      else []
  }

  predicate DaylightSource(exif: Option<Exif>) {
    exif.Some? && exif.value.lightSource in {LIGHT_SOURCE_DAYLIGHT, LIGHT_SOURCE_D65, LIGHT_SOURCE_D50}
  }

  /** Every label the rules append, in rule order: faces, scene, light source, outdoor, low light, vintage. */
  function Candidates(bitmap: Option<BitmapFacts>, exif: Option<Exif>): seq<string> {
    (if DetectFace(bitmap) then ["Portrait", "Lifestyle"] else [])
    + SceneLabels(exif)
    + (if DaylightSource(exif) then ["Travel", "Lifestyle"] else [])
    + (if DetectOutdoor(bitmap) then ["Travel", "Mood & Atmosphere"] else [])
    + (if DetectLowLight(bitmap) then ["Urban & Street", "Black & White"] else [])
    + (if DetectVintageTone(bitmap) then ["Vintage & Film"] else [])
  }

  predicate AnyRuleFired(bitmap: Option<BitmapFacts>, exif: Option<Exif>) {
    DetectFace(bitmap) || SceneLabels(exif) != [] || DaylightSource(exif)
    || DetectOutdoor(bitmap) || DetectLowLight(bitmap) || DetectVintageTone(bitmap)
  }

  predicate NoDuplicates<T(==)>(s: seq<T>) {
    forall i, j :: 0 <= i < j < |s| ==> s[i] != s[j]
  }

  /** Index of the first occurrence of `x`. */
  function FirstIndex<T(==)>(s: seq<T>, x: T): (i: nat)
    requires x in s
    ensures i < |s| && s[i] == x
    ensures forall m :: 0 <= m < i ==> s[m] != x
  {
    if s[0] == x then 0 else FirstIndex(s[1..], x) + 1
  }

  /** The first occurrence is the one index holding `x` with no `x` before it. */
  lemma FirstIndexUnique<T>(s: seq<T>, x: T, i: nat)
    requires i < |s| && s[i] == x
    requires forall m :: 0 <= m < i ==> s[m] != x
    ensures FirstIndex(s, x) == i
  {
  }

  /** Elements of `r` appear in the order of their first occurrence in `s`. */
  ghost predicate FirstOccurrenceOrder(r: seq<string>, s: seq<string>) {
    && (forall x :: x in r ==> x in s)
    && forall i, j :: 0 <= i < j < |r| ==> FirstIndex(s, r[i]) < FirstIndex(s, r[j])
  }

  /** Kotlin's `distinct()`: each element once, at its first occurrence. */
  function Distinct(s: seq<string>): (r: seq<string>)
    ensures NoDuplicates(r)
    ensures forall x :: x in r <==> x in s
    ensures |r| <= |s|
    decreases |s|
  {
    if |s| == 0 then []
    else
      var init := s[..|s| - 1];
      var last := s[|s| - 1];
      var r := Distinct(init);
      assert s == init + [last];
      if last in r then r
      else r + [last]
  }

  /** `distinct()` keeps elements in the order of their first occurrence. */
  lemma {:induction false} DistinctKeepsFirstOccurrenceOrder(s: seq<string>)
    ensures FirstOccurrenceOrder(Distinct(s), s)
    decreases |s|
  {
    if |s| > 0 {
      var init := s[..|s| - 1];
      var last := s[|s| - 1];
      DistinctKeepsFirstOccurrenceOrder(init);
      assert s == init + [last];
      FirstIndexExtend(init, last);
    }
  }

  /** Appending an element keeps the first occurrence of every earlier element, and puts a new one last. */
  lemma FirstIndexExtend(s: seq<string>, y: string)
    ensures forall x :: x in s ==> FirstIndex(s + [y], x) == FirstIndex(s, x)
    ensures y !in s ==> FirstIndex(s + [y], y) == |s|
  {
    forall x | x in s ensures FirstIndex(s + [y], x) == FirstIndex(s, x) {
      FirstIndexUnique(s + [y], x, FirstIndex(s, x));
    }
    if y !in s {
      FirstIndexUnique(s + [y], y, |s|);
    }
  }

  function Take<T>(s: seq<T>, n: nat): (r: seq<T>)
    ensures |r| <= n && |r| <= |s| && r == s[..|r|]
    ensures |s| >= n ==> |r| == n
    ensures |s| < n ==> r == s
  {
    if |s| <= n then s else s[..n]
  }

  /** The rule labels, or the single fallback "Misc" when no rule fired. */
  function Labels(bitmap: Option<BitmapFacts>, exif: Option<Exif>): (r: seq<string>)
    ensures |r| >= 1
    ensures !AnyRuleFired(bitmap, exif) ==> r == ["Misc"]
    ensures AnyRuleFired(bitmap, exif) ==> r == Candidates(bitmap, exif) && "Misc" !in r
  {
    var labels := Candidates(bitmap, exif);
    assert labels == [] <==> !AnyRuleFired(bitmap, exif);
    if labels == [] then ["Misc"] else labels
  }

  /**
   * `suggestGroups`: the rule labels, or "Misc" when no rule fired, without
   * duplicates and at most three of them.
   */
  function SuggestGroups(bitmap: Option<BitmapFacts>, exif: Option<Exif>): (r: seq<string>)
    ensures 1 <= |r| <= 3
    ensures NoDuplicates(r)
    ensures r == ["Misc"] <==> !AnyRuleFired(bitmap, exif)
    ensures DetectFace(bitmap) ==> |r| >= 2 && r[..2] == ["Portrait", "Lifestyle"]
  {
    var results := Labels(bitmap, exif);
    var d := Distinct(results);
    MiscOnlyAsFallback(results, AnyRuleFired(bitmap, exif));
    FacesFirst(bitmap, exif, results, d);
    TopThree(d, AnyRuleFired(bitmap, exif), DetectFace(bitmap));
    Take(d, 3)
  }

  /** Cutting the distinct list to three keeps its head and its lack of duplicates. */
  lemma TopThree(d: seq<string>, fired: bool, face: bool)
    requires NoDuplicates(d) && |d| >= 1
    requires d[..1] == ["Misc"] <==> !fired
    requires !fired ==> d == ["Misc"]
    requires face ==> |d| >= 2 && d[..2] == ["Portrait", "Lifestyle"]
    ensures var r := Take(d, 3);
      && 1 <= |r| <= 3
      && NoDuplicates(r)
      && (r == ["Misc"] <==> !fired)
      && (face ==> |r| >= 2 && r[..2] == ["Portrait", "Lifestyle"])
  {
    var r := Take(d, 3);
    assert r[..1] == d[..1];
    assert |r| >= 2 ==> r[..2] == d[..2];
    if r == ["Misc"] {
      assert r[..1] == r;
    }
  }

  /** "Misc" heads the distinct list exactly when it is the fallback. */
  lemma MiscOnlyAsFallback(results: seq<string>, fired: bool)
    requires |results| >= 1
    requires !fired ==> results == ["Misc"]
    requires fired ==> "Misc" !in results
    ensures |Distinct(results)| >= 1
    ensures Distinct(results)[..1] == ["Misc"] <==> !fired
    ensures !fired ==> Distinct(results) == ["Misc"]
  {
    if !fired {
      DistinctSingleton("Misc");
    } else {
      FirstNotMisc(results);
    }
  }

  lemma DistinctSingleton(x: string)
    ensures Distinct([x]) == [x]
  {
    DistinctSnoc([], x);
    assert [] + [x] == [x];
  }

  lemma FirstNotMisc(results: seq<string>)
    requires |results| >= 1 && "Misc" !in results
    ensures |Distinct(results)| >= 1 && Distinct(results)[..1] != ["Misc"]
  {
    var d := Distinct(results);
    assert results[0] in d;
    assert d[0] in results;
    assert d[..1][0] == d[0];
  }

  lemma FacesFirst(bitmap: Option<BitmapFacts>, exif: Option<Exif>, results: seq<string>, d: seq<string>)
    requires results == Labels(bitmap, exif) && d == Distinct(results)
    ensures DetectFace(bitmap) ==> |d| >= 2 && d[..2] == ["Portrait", "Lifestyle"]
  {
    if DetectFace(bitmap) {
      DistinctKeepsFirstOccurrenceOrder(results);
      assert results == Candidates(bitmap, exif);
      assert results[0] == "Portrait" && results[1] == "Lifestyle";
      FacesLeadDistinct(results, d);
    }
  }

  /** When the labels start with "Portrait", "Lifestyle", so does their distinct list. */
  lemma FacesLeadDistinct(results: seq<string>, d: seq<string>)
    requires |results| >= 2 && results[0] == "Portrait" && results[1] == "Lifestyle"
    requires NoDuplicates(d) && (forall x :: x in d <==> x in results) && FirstOccurrenceOrder(d, results)
    ensures |d| >= 2 && d[0] == "Portrait" && d[1] == "Lifestyle"
  {
    assert FirstIndex(results, "Portrait") == 0;
    assert FirstIndex(results, "Lifestyle") == 1;
    assert "Portrait" in d && "Lifestyle" in d;
    var i :| 0 <= i < |d| && d[i] == "Portrait";
    var j :| 0 <= j < |d| && d[j] == "Lifestyle";
    assert forall k :: 0 < k < |d| ==> FirstIndex(results, d[0]) < FirstIndex(results, d[k]);
    assert d[0] == "Portrait";
    assert j != 0;
    assert forall k :: 1 < k < |d| ==> FirstIndex(results, d[1]) < FirstIndex(results, d[k]);
    assert results[FirstIndex(results, d[1])] == d[1];
    assert d[1] == "Lifestyle";
  }

  /**
   * A prefix of `distinct()` lists only elements of `c`, in first-occurrence
   * order, and skips none that occur earlier than one it lists.
   */
  lemma {:induction false} DistinctPrefixOrder(c: seq<string>, n: nat)
    ensures var r := Take(Distinct(c), n);
      && (forall x :: x in r ==> x in c)
      && (forall i, j :: 0 <= i < j < |r| ==> FirstIndex(c, r[i]) < FirstIndex(c, r[j]))
      && (forall x, y :: x in c && y in r && FirstIndex(c, x) < FirstIndex(c, y) ==> x in r)
  {
    var d := Distinct(c);
    var r := Take(d, n);
    DistinctKeepsFirstOccurrenceOrder(c);
    assert r == d[..|r|];
    forall x, y | x in c && y in r && FirstIndex(c, x) < FirstIndex(c, y) ensures x in r {
      var k :| 0 <= k < |d| && d[k] == x;
      var j :| 0 <= j < |r| && r[j] == y;
      assert d[j] == y;
      assert k < j by {
        assert forall m :: j < m < |d| ==> FirstIndex(c, d[j]) < FirstIndex(c, d[m]);
        assert k != j;
      }
      assert r[k] == x;
    }
  }

  /**
   * Suggestions follow rule order: every suggestion is a rule label, they
   * appear in the order the rules first produced them, and no label produced
   * earlier than a suggestion is skipped.
   */
  lemma OrderFollowsRules(bitmap: Option<BitmapFacts>, exif: Option<Exif>)
    requires AnyRuleFired(bitmap, exif)
    ensures var r := SuggestGroups(bitmap, exif);
      var c := Candidates(bitmap, exif);
      && (forall x :: x in r ==> x in c)
      && (forall i, j :: 0 <= i < j < |r| ==> FirstIndex(c, r[i]) < FirstIndex(c, r[j]))
      && (forall x, y :: x in c && y in r && FirstIndex(c, x) < FirstIndex(c, y) ==> x in r)
      && |r| == if |Distinct(c)| < 3 then |Distinct(c)| else 3
  {
    var c := Candidates(bitmap, exif);
    assert Labels(bitmap, exif) == c;
    assert SuggestGroups(bitmap, exif) == Take(Distinct(c), 3);
    DistinctPrefixOrder(c, 3);
  }

  /**
   * The cut keeps three labels whenever at least three distinct ones were
   * produced, and all of them otherwise.
   */
  lemma SuggestionCount(bitmap: Option<BitmapFacts>, exif: Option<Exif>)
    ensures var d := Distinct(Labels(bitmap, exif));
      |SuggestGroups(bitmap, exif)| == if |d| < 3 then |d| else 3
  {
    assert SuggestGroups(bitmap, exif) == Take(Distinct(Labels(bitmap, exif)), 3);
  }

  /** With no bitmap and no EXIF data the only suggestion is "Misc". */
  lemma NothingKnownGivesMisc()
    ensures SuggestGroups(None, None) == ["Misc"]
  {
  }

  /** One step of `Distinct`: a new element is appended. */
  lemma DistinctSnoc(s: seq<string>, x: string)
    requires x !in s
    ensures Distinct(s + [x]) == Distinct(s) + [x]
  {
    assert (s + [x])[..|s + [x]| - 1] == s;
  }

  /** One step of `Distinct`: a repeated element is dropped. */
  lemma DistinctSnocRepeat(s: seq<string>, x: string)
    requires x in s
    ensures Distinct(s + [x]) == Distinct(s)
  {
    assert (s + [x])[..|s + [x]| - 1] == s;
  }

  /** Distinct leaves a list of distinct elements unchanged (three elements). */
  lemma DistinctOfThree(a: string, b: string, c: string)
    requires a != b && a != c && b != c
    ensures Distinct([a, b, c]) == [a, b, c]
  {
    DistinctOfTwo(a, b);
    assert c !in [a, b];
    DistinctSnoc([a, b], c);
    assert [a, b] + [c] == [a, b, c];
  }

  lemma DistinctOfTwo(a: string, b: string)
    requires a != b
    ensures Distinct([a, b]) == [a, b]
  {
    DistinctSingleton(a);
    DistinctSnoc([a], b);
    assert [a] + [b] == [a, b];
  }

  /** Distinct on the shape of the labels of the example below. */
  lemma DistinctExample(a: string, b: string, c: string, d: string)
    requires a != b && a != c && a != d && b != c && b != d && c != d
    ensures Distinct([a, b, c, d, c, b]) == [a, b, c, d]
  {
    DistinctOfThree(a, b, c);
    DistinctSnoc([a, b, c], d);
    assert [a, b, c] + [d] == [a, b, c, d];
    DistinctRepeats([a, b, c, d], c, b);
    assert [a, b, c, d] + [c, b] == [a, b, c, d, c, b];
  }

  /** Appending two elements already present changes nothing. */
  lemma DistinctRepeats(s: seq<string>, x: string, y: string)
    requires x in s && y in s
    ensures Distinct(s + [x, y]) == Distinct(s)
  {
    var s1 := s + [x];
    DistinctSnocRepeat(s, x);
    assert y in s1;
    DistinctSnocRepeat(s1, y);
    assert s1 + [y] == s + [x, y];
  }

  /** Example: faces, a landscape scene and daylight on a black image give Portrait, Lifestyle, Travel. */
  lemma ExampleFacesLandscapeDaylight()
    ensures SuggestGroups(Some(BitmapFacts(true, 0, 0, false)), Some(Exif(1, 1)))
      == ["Portrait", "Lifestyle", "Travel"]
  {
    var b := Some(BitmapFacts(true, 0, 0, false));
    var e := Some(Exif(1, 1));
    assert !DetectOutdoor(b) && !DetectVintageTone(b) && !DetectLowLight(b);
    assert Candidates(b, e) == ["Portrait", "Lifestyle", "Travel", "Mood & Atmosphere", "Travel", "Lifestyle"];
    DistinctExample("Portrait", "Lifestyle", "Travel", "Mood & Atmosphere");
  }
}
