# Adjustment orchestration of CorePhotoEditor, modelled in Dafny

This project models the adjustment core of the CorePhotoEditor Android app in
Dafny and proves properties of that model. The core keeps the original photo
untouched and re-renders a preview from it each time a parameter changes.
The native render kernels are not modelled; the model covers everything
around them:

- **Parameter set and dirty mask** (`Mask`, `Params`). `AdjustParams` holds
  sixteen slider fields plus the HSL arrays and the LUT settings.
  `buildMask` turns the parameters into a 64-bit mask. It sets the bit of each
  group (light, colour, detail, vignette, grain) that has at least one
  field beyond the threshold `eps` in absolute value.
- **Session manager** (`Session`). `AdjustManager` holds the original and
  preview bitmaps. It runs at most one render job, guarded by
  `isProcessing`, and is released at the end. The native bridge call is an
  oracle outcome (changed, unchanged or failed). The manager's observable
  behaviour is a list of events: a job launched, the preview updated and
  the callback made, the pool released.
- **Batch LUT thumbnails** (`Thumbnails`). This covers the centre-crop
  arithmetic of `scaleAndCropToExactSize`, with Kotlin's truncating
  division. It also covers the per-preset loop of
  `generateLutThumbsToDownloads`, whose store, render and insert steps are
  per-item oracles. A failing preset never stops the batch.
- **View-models** (`ViewModels`). `ShareAdjustViewModel` and
  `AdjustViewModel` return the new parameters together with the ordered
  effects they trigger. `Perform` replays those effects against the session
  manager.
- **Colour mixer** (`Channels`, `ColorMixer`). The eight hue channels and
  the `HslAdjustState` reducer of the colour-mixer view-model, with values
  coerced into [-100, 100].
- **Sliders** (`Sliders`, `SliderAdapter`). These model:
  - the default tabs of `AdjustRepository`;
  - the slider ↔ parameter mapping, `value / 100` one way and
    `(field * 100).toInt()` the other;
  - the adjust screen's callback;
  - the selection and value logic of its slider adapter.
- **Editor sizes** (`ImageSize`). The memory-class thresholds of
  `ImageSizeCalculator`.
- **Asset fallback** (`AssetPath`). The fallback asset path that
  `loadLutThumb` builds from a thumbnail path.
- **Filter suggestions** (`Suggestions`). `suggestGroups`: each rule that
  fires contributes labels in rule order. The list is then de-duplicated
  (first occurrence wins) and cut to three. `Misc` is the fallback when no
  rule fires. Face detection, EXIF parsing and the low-light average are
  oracles. The outdoor and vintage tests read the sampled pixel's channels
  exactly as the code does, on 32-bit ARGB words.

Three consequences of the session manager's code, which the model keeps:

- **A second `applyAdjust` is dropped, not cancel-and-replace.** The comment
  at AdjustManager.kt:58 says an old job is cancelled. But `applyAdjust`
  returns early at line 55 while `isProcessing` is set. The cancel at line 59
  therefore only runs when no job is in flight, and it never meets a running
  render.
- **An all-zero mask does not skip the render.** `applyAdjust` (lines 53-90)
  never reads the mask, so a parameter set whose mask is 0 still launches a
  job.
- **A release during a render can leave the manager busy for good.** If
  `release` cancels the job before its body starts (line 61), the `finally`
  at lines 86-88 never runs and `isProcessing` stays set. After a new
  `setOriginalBitmap`, every later `applyAdjust` is then dropped at line 55
  (`Session.ReleaseDuringRenderBlocksLaterApplies`).

## Model

| member | source | states |
|---|---|---|
| Mask.ConstantsAreSingleBits | adjust/src/main/java/com/core/adjust/AdjustMask.kt:4-9 | the k-th mask constant is exactly bit k, so each is a single positive bit |
| Mask.ConstantsDisjoint | adjust/src/main/java/com/core/adjust/AdjustMask.kt:4-9 | any two different mask constants share no bit and differ |
| Mask.GroupBitsLayout | adjust/src/main/java/com/core/adjust/AdjustMask.kt:4-9 | the five group bits are the low five bits; the HSL and LUT bits lie outside them |
| Params.Set | adjust/src/main/java/com/core/adjust/AdjustParams.kt:5-22 | assigning one slider field changes that field only; every other field, the HSL arrays, LUT settings and active mask are kept |
| Params.BuildMask | adjust/src/main/java/com/core/adjust/AdjustParams.kt:28-41 | a group's bit is set exactly when some field of that group is beyond the threshold in absolute value; no other bit, in particular neither HSL nor LUT, is ever set |
| Params.TestsMatchGroups | adjust/src/main/java/com/core/adjust/AdjustParams.kt:31-39 | the five literal tests of the code (seven light fields, four colour fields, three detail fields, vignette, grain) are exactly "some field of the group is active" |
| Params.DefaultMaskIsZero | adjust/src/main/java/com/core/adjust/AdjustParams.kt:28-41 | with every slider at 0 and a non-negative threshold the mask is 0 |
| Params.DefaultParamsMaskZero | adjust/src/main/java/com/core/adjust/AdjustParams.kt:5-41 | a freshly constructed parameter set builds the empty mask |
| Params.SetFieldIsolation | adjust/src/main/java/com/core/adjust/AdjustParams.kt:28-41 | changing one field leaves every other group's bit of the mask as it was |
| Params.ThresholdIsStrict | adjust/src/main/java/com/core/adjust/AdjustParams.kt:29 | a field at exactly +eps or -eps does not mark its group (the comparison is strict) |
| Params.SingleFieldMarksItsGroup | adjust/src/main/java/com/core/adjust/AdjustParams.kt:28-41 | from all-zero parameters, one field beyond the threshold yields exactly its own group's bit |
| Params.MaskIgnoresExtras | adjust/src/main/java/com/core/adjust/AdjustParams.kt:28-41 | the mask depends only on the sixteen slider fields, not on HSL, LUT or the stored active mask |
| Params.SameGroupBitsSameMask | adjust/src/main/java/com/core/adjust/AdjustParams.kt:40 | two masks within the group bits that agree on every group bit are equal |
| Params.ResetFields | adjust/src/main/java/com/core/adjust/ui/AdjustViewModel.kt:63-67 | a light, colour or effects reset zeroes exactly the fields of that tab and keeps everything else |
| Params.ResetHsl | adjust/src/main/java/com/core/adjust/ui/AdjustViewModel.kt:69-71 | the HSL reset zeroes every entry of the three HSL arrays, keeping their lengths, and keeps every other field |
| Channels.Ordinal | adjust/src/main/java/com/core/adjust/model/ColorChannel.kt:3-12 | a channel's ordinal is its position in the declared entry list |
| Channels.EntriesEnumerateChannels | adjust/src/main/java/com/core/adjust/model/ColorChannel.kt:3-12 | the entry list has eight distinct channels, contains every channel, and positions agree with ordinals |
| Channels.DisplayNamesDistinct | adjust/src/main/java/com/core/adjust/model/ColorChannel.kt:3-12 | different channels have different display names |
| ColorMixer.DefaultStateShape | adjust/src/main/java/com/core/adjust/model/HslAdjustState.kt:3-9 | the initial state selects Orange, holds all eight channels at (0,0,0), with preview hold and targeting off, and is valid |
| ColorMixer.CoerceIn | adjust/src/main/java/com/core/adjust/ui/hsl/ColorMixerViewModel.kt:17-19 | the result lies in [lo, hi]; an in-range value is kept and an out-of-range one goes to the nearer bound |
| ColorMixer.Select | adjust/src/main/java/com/core/adjust/ui/hsl/ColorMixerViewModel.kt:15 | selecting a channel changes only the selection |
| ColorMixer.UpdateCurrent | adjust/src/main/java/com/core/adjust/ui/hsl/ColorMixerViewModel.kt:17-27 | one component of the selected channel becomes the coerced value, its other components and every other channel are kept, and a missing entry is created from the default triple |
| ColorMixer.ResetCurrent | adjust/src/main/java/com/core/adjust/ui/hsl/ColorMixerViewModel.kt:29 | the selected channel goes back to the unchanged default triple; the other channels stay |
| ColorMixer.ResetAll | adjust/src/main/java/com/core/adjust/ui/hsl/ColorMixerViewModel.kt:30 | the selection returns to Orange, both flags turn off, and every channel holds the default triple |
| ColorMixer.SetPreviewHeld | adjust/src/main/java/com/core/adjust/ui/hsl/ColorMixerViewModel.kt:31 | only the preview-held flag changes, to the given value |
| ColorMixer.ToggleTargeted | adjust/src/main/java/com/core/adjust/ui/hsl/ColorMixerViewModel.kt:32 | only the targeting flag changes, and it flips |
| ColorMixer.ToggleInvolution | adjust/src/main/java/com/core/adjust/ui/ColorMixerViewModel.kt:40 | toggling twice restores the state |
| ColorMixer.StepPreservesValid | adjust/src/main/java/com/core/adjust/ui/ColorMixerViewModel.kt:23-40 | every mixer operation keeps an entry for every channel and keeps every stored component within [-100, 100] |
| ColorMixer.RunPreservesValid | adjust/src/main/java/com/core/adjust/ui/ColorMixerViewModel.kt:23-40 | any sequence of mixer operations keeps the state valid |
| Session.SetOriginalBitmap | adjust/src/main/java/com/core/adjust/AdjustManager.kt:42-45 | the original and the preview both become the new bitmap; the job and busy flag are untouched |
| Session.ApplyAdjust | adjust/src/main/java/com/core/adjust/AdjustManager.kt:53-62 | with no original or while busy nothing happens; otherwise the manager turns busy and launches one job on the original |
| Session.Complete | adjust/src/main/java/com/core/adjust/AdjustManager.kt:64-88 | a finishing job always clears the busy flag; only a live job whose bridge reported a change replaces the preview and calls back; the original is never touched |
| Session.Release | adjust/src/main/java/com/core/adjust/AdjustManager.kt:201-209 | both bitmaps are dropped, a running job is cancelled, and the pool is released |
| Session.DropCancelled | adjust/src/main/java/com/core/adjust/AdjustManager.kt:61-88 | a cancelled job whose body never ran is finished without clearing the busy flag; any other state is untouched |
| Session.StuckBusyIsPermanent | adjust/src/main/java/com/core/adjust/AdjustManager.kt:55-88 | a manager that is busy with no job left to finish stays so under any actions and never launches a render again |
| Session.ReleaseDuringRenderBlocksLaterApplies | adjust/src/main/java/com/core/adjust/AdjustManager.kt:55-88 | releasing during a render whose cancelled body never runs means no later action sequence launches a render |
| Session.ReleaseThenNewOriginalStaysIdle | adjust/src/main/java/com/core/adjust/AdjustManager.kt:42-88 | after such a release, setting a new original and applying launches nothing, though the new original is stored |
| Session.ReleaseIdempotent | adjust/src/main/java/com/core/adjust/AdjustManager.kt:201-209 | releasing twice leaves the same state as releasing once |
| Session.ApplyAfterReleaseIsNoOp | adjust/src/main/java/com/core/adjust/AdjustManager.kt:54 | after release an apply request does nothing, because the original is gone |
| Session.DoPreservesInv | adjust/src/main/java/com/core/adjust/AdjustManager.kt:53-90 | every manager action keeps the invariant that a job which is running, or cancelled but not yet finished, keeps the manager busy |
| Session.RunPreservesInv | adjust/src/main/java/com/core/adjust/AdjustManager.kt:53-90 | any sequence of manager actions keeps the busy invariant |
| Session.LaunchOnlyWhenIdle | adjust/src/main/java/com/core/adjust/AdjustManager.kt:55-59 | a launch happens only when no job is running, so the cancel at line 59 never cancels a live render |
| Session.CallbacksNeverExceedLaunches | adjust/src/main/java/com/core/adjust/AdjustManager.kt:53-90 | over any run, the callbacks made plus the jobs still pending never exceed the jobs launched plus those pending at the start |
| Session.RendersNeverTouchOriginal | adjust/src/main/java/com/core/adjust/AdjustManager.kt:62-80 | renders and completions never change the original bitmap |
| Session.SecondApplyDropped | adjust/src/main/java/com/core/adjust/AdjustManager.kt:55 | two applies and one completion launch exactly one job and call back at most once |
| Thumbnails.KotlinHalf | adjust/src/main/java/com/core/adjust/AdjustManager.kt:116-117 | halving rounds toward zero: the remainder has the sign of the dividend and magnitude at most 1 |
| Thumbnails.CenterCrop | adjust/src/main/java/com/core/adjust/AdjustManager.kt:116-126 | the crop lies inside the scaled bitmap and is no larger than the target; an axis at least as large as the target is cut to the target and centred; a smaller axis is kept whole |
| Thumbnails.ClampHidesTruncation | adjust/src/main/java/com/core/adjust/AdjustManager.kt:116-121 | after clamping at 0, truncating and flooring halves agree, though they differ before the clamp for negative odd differences |
| Thumbnails.CoverGivesExactSize | adjust/src/main/java/com/core/adjust/AdjustManager.kt:100-126 | when the scaled bitmap covers the target on both axes the crop is exactly target-sized |
| Thumbnails.CoverCropExample | adjust/src/main/java/com/core/adjust/AdjustManager.kt:116-126 | a 600x300 image cropped to 300x300 starts at x = 150 |
| Thumbnails.ThumbParams | adjust/src/main/java/com/core/adjust/AdjustManager.kt:176 | a thumbnail's parameters carry only the LUT path under "filters/"; every slider is 0 |
| Thumbnails.ThumbParamsMarkNoGroup | adjust/src/main/java/com/core/adjust/AdjustManager.kt:176 | thumbnail parameters build the empty mask and never set the LUT bit |
| Thumbnails.ProcessItem | adjust/src/main/java/com/core/adjust/AdjustManager.kt:142-192 | a preset gains the inserted URI as thumbnail exactly when its path is non-blank, the insert succeeded, and the render returned true; otherwise it is left as it was |
| Thumbnails.CountBridgeCallsSnoc | adjust/src/main/java/com/core/adjust/AdjustManager.kt:141-178 | the bridge-call count over a prefix grows by one exactly when the next preset reaches the render |
| Thumbnails.GenerateLutThumbs | adjust/src/main/java/com/core/adjust/AdjustManager.kt:140-194 | without an original nothing changes and no render happens; otherwise every preset is processed independently, names and file paths are kept, and renders are counted per reachable preset |
| Thumbnails.ResilienceExample | adjust/src/main/java/com/core/adjust/AdjustManager.kt:190-192 | a preset whose render throws is left unchanged while another preset in the same batch still gets its thumbnail |
| ViewModels.WriteHsl | adjust/src/main/java/com/core/adjust/ui/ShareAdjustViewModel.kt:51-53 | the three HSL arrays get the given values at one index only; slider fields, LUT settings and mask are kept |
| ViewModels.ShareSetOriginal | adjust/src/main/java/com/core/adjust/ui/ShareAdjustViewModel.kt:35-42 | the manager receives the bitmap first; the preview is posted and the thumbnail request flag is emitted; the four effects end with exactly one render request |
| ViewModels.ShareSetOriginalRenders | adjust/src/main/java/com/core/adjust/ui/ShareAdjustViewModel.kt:35-48 | on an idle manager, setting the original launches one render of exactly that bitmap |
| ViewModels.UpdateHsl | adjust/src/main/java/com/core/adjust/ui/ShareAdjustViewModel.kt:50-55 | HSL values are written at the channel index, nothing else in the parameters changes, and one render is requested; the adjust-screen view-model (AdjustViewModel.kt:41-46) does the same |
| ViewModels.ShareUpdateLutPath | adjust/src/main/java/com/core/adjust/ui/ShareAdjustViewModel.kt:57-62 | the LUT path is stored, the LUT bit is set with all other mask bits kept, the cache is cleared, and one render is requested |
| ViewModels.ShareUpdateLutAmount | adjust/src/main/java/com/core/adjust/ui/ShareAdjustViewModel.kt:64-75 | the amount is stored and the LUT bit ends up set exactly when the amount is non-zero; other bits are kept, the cache is cleared, and one render is requested |
| ViewModels.LutPinnedButInactive | adjust/src/main/java/com/core/adjust/ui/ShareAdjustViewModel.kt:57-75 | choosing a LUT and then amount 0 keeps the path but leaves the LUT bit clear |
| ViewModels.LutUpdatesKeepDirtyMask | adjust/src/main/java/com/core/adjust/ui/ShareAdjustViewModel.kt:57-75 | LUT updates never change the mask built from the slider fields |
| ViewModels.ShareReset | adjust/src/main/java/com/core/adjust/ui/ShareAdjustViewModel.kt:77-82 | the shared reset clears the LUT cache and then emits the mode, with no other effect: parameters unchanged, no render requested |
| ViewModels.ResetModesDistinct | adjust/src/main/java/com/core/adjust/ui/ShareAdjustViewModel.kt:110-112 | the three reset modes are pairwise different |
| ViewModels.AdjustSetOriginal | adjust/src/main/java/com/core/adjust/ui/AdjustViewModel.kt:30-33 | the manager and the preview receive the bitmap and no render is requested |
| ViewModels.AdjustSetOriginalShowsOriginal | adjust/src/main/java/com/core/adjust/ui/AdjustViewModel.kt:30-33 | replayed on any manager it launches nothing and the preview shows the bitmap |
| ViewModels.AdjustResetHsl | adjust/src/main/java/com/core/adjust/ui/AdjustViewModel.kt:48-54 | the HSL arrays are zeroed and one render is requested |
| ViewModels.AdjustReset | adjust/src/main/java/com/core/adjust/ui/AdjustViewModel.kt:56-77 | mode ADJUST zeroes every slider field, mode HSL zeroes the HSL arrays, any other mode keeps the parameters; every mode ends with exactly one render request |
| ViewModels.AdjustResetClearsMask | adjust/src/main/java/com/core/adjust/ui/AdjustViewModel.kt:63-67 | after an ADJUST reset the mask is empty |
| ViewModels.HslResetKeepsDirtyMask | adjust/src/main/java/com/core/adjust/ui/AdjustViewModel.kt:69-71 | an HSL reset does not change the mask built from the slider fields |
| ViewModels.ReplaySkips | adjust/src/main/java/com/core/adjust/ui/ShareAdjustViewModel.kt:37-40 | effects other than handing over an original or requesting a render do not touch the manager |
| Sliders.KeyField | adjust/src/main/java/com/core/adjust/ui/adjust/AdjustFragment.kt:108-129 | a recognised key names the field whose key it is |
| Sliders.KeyFieldInverse | adjust/src/main/java/com/core/adjust/ui/adjust/AdjustFragment.kt:108-129 | every field's key is recognised as that field |
| Sliders.FieldKeysDistinct | adjust/src/main/java/com/core/adjust/ui/adjust/AdjustFragment.kt:108-129 | different fields have different keys |
| Sliders.TruncToInt | app/src/main/java/com/example/photoeditor/ui/activity/AdjustRepository.kt:61 | the conversion rounds toward zero |
| Sliders.MapSlider | app/src/main/java/com/example/photoeditor/ui/activity/AdjustRepository.kt:83-104 | a recognised slider writes value/100 into its field and nothing else; an unknown key changes nothing |
| Sliders.MapList | app/src/main/java/com/example/photoeditor/ui/activity/AdjustRepository.kt:58-81 | each recognised slider's value becomes its field times 100, truncated; keys, labels, bounds, order and unknown sliders are kept |
| Sliders.SliderRoundTrip | app/src/main/java/com/example/photoeditor/ui/activity/AdjustRepository.kt:58-104 | writing a slider into the parameters and reading the list back restores the slider |
| Sliders.ParamRoundTrip | app/src/main/java/com/example/photoeditor/ui/activity/AdjustRepository.kt:58-104 | a field holding a whole number of hundredths survives a read into the slider and a write back |
| Sliders.DefaultTabsShape | app/src/main/java/com/example/photoeditor/ui/activity/AdjustRepository.kt:10-56 | the default tabs are light, color, effects and hsl, and the hsl tab has no sliders |
| Sliders.DefaultSliderBounds | app/src/main/java/com/example/photoeditor/ui/activity/AdjustRepository.kt:17-46 | all sixteen sliders start at 0 within their bounds; exposure spans [-500,500] and grain [0,100] |
| Sliders.TabsMatchGroups | app/src/main/java/com/example/photoeditor/ui/activity/AdjustRepository.kt:12-48 | the light, color and effects tabs hold exactly the fields of the light, colour, and detail/vignette/grain groups, in order |
| Sliders.DefaultFields | app/src/main/java/com/example/photoeditor/ui/activity/AdjustRepository.kt:17-46 | the default sliders name the sixteen fields in the parameter class's declaration order |
| Sliders.DefaultKeysDistinctAndMapped | app/src/main/java/com/example/photoeditor/ui/activity/AdjustRepository.kt:17-46 | every default slider key is recognised by the mapping and no key repeats |
| Sliders.AdjustListMatchesTabs | adjust/src/main/java/com/core/adjust/ui/adjust/AdjustFragment.kt:27-46 | the adjust screen's list, read with the bounds the code evidently intends (the drawable argument taken as an icon, see the notes below), equals the repository's sliders in tab order |
| Sliders.SeekFor | adjust/src/main/java/com/core/adjust/ui/adjust/AdjustFragment.kt:50-52 | the seek bar's progress plus the slider's minimum is its value, and an in-range value gives a progress within [0, max] |
| Sliders.OnSlider | adjust/src/main/java/com/core/adjust/ui/adjust/AdjustFragment.kt:48-58 | the seek bar is set up exactly for a selection click; the slider is mapped into the parameters and exactly one render is requested |
| SliderAdapter.IndexOfKey | adjust/src/main/java/com/core/adjust/ui/filter/child/adjust/AdjustAdapter.kt:101 | the result is the first position whose key matches, or -1 exactly when none does |
| SliderAdapter.SameItemIgnoresValue | adjust/src/main/java/com/core/adjust/ui/filter/child/adjust/AdjustAdapter.kt:22 | item identity is by key, so a value change keeps the item the same |
| SliderAdapter.SetSelectedKey | adjust/src/main/java/com/core/adjust/ui/filter/child/adjust/AdjustAdapter.kt:98-112 | the key is stored; a selection click for a matching slider happens exactly when one exists |
| SliderAdapter.TapItem | adjust/src/main/java/com/core/adjust/ui/filter/child/adjust/AdjustAdapter.kt:39-72 | tapping an item selects its key and reports one selection click for it |
| SliderAdapter.TapThenRelease | adjust/src/main/java/com/core/adjust/ui/filter/child/adjust/AdjustAdapter.kt:39-127 | with distinct keys, after a tap the selected index is the tapped one and releasing the seek bar reports that item once without selection |
| SliderAdapter.UpdateValue | adjust/src/main/java/com/core/adjust/ui/filter/child/adjust/AdjustAdapter.kt:114-119 | the selected slider's value becomes min + progress and is reported; with no selected slider nothing changes or is reported |
| SliderAdapter.ApplyAdjust | adjust/src/main/java/com/core/adjust/ui/filter/child/adjust/AdjustAdapter.kt:121-127 | releasing reports the selected slider once as a non-selection click, or nothing when no slider matches |
| SliderAdapter.ResetAdjust | adjust/src/main/java/com/core/adjust/ui/filter/child/adjust/AdjustAdapter.kt:129-138 | every slider goes to 0 with its dot hidden; the selected slider is re-reported as a selection click with value 0 exactly when one matches the selected key |
| SliderAdapter.ResetWritesZero | adjust/src/main/java/com/core/adjust/ui/filter/child/adjust/AdjustAdapter.kt:129-138 | after a reset with a mapped slider selected, the screen's callback writes 0 into that field and puts the seek bar at the slider's zero position |
| SliderAdapter.InitialSelection | adjust/src/main/java/com/core/adjust/ui/adjust/AdjustFragment.kt:89-91 | opening the screen selects exposure, reports it once as a selection, and, with exposure's intended bounds of ±500 (see the notes below), shows a seek bar of span 1000 at progress 500 |
| SliderAdapter.ProgressRoundTrip | adjust/src/main/java/com/core/adjust/ui/adjust/AdjustFragment.kt:50-52 | feeding the shown progress back through the adapter leaves the sliders unchanged and reports the slider's value |
| SliderAdapter.DragThenReleaseSetsField | adjust/src/main/java/com/core/adjust/ui/adjust/AdjustFragment.kt:72-81 | dragging to a progress and releasing writes (min + progress)/100 into the selected field and does not reset the seek bar |
| ImageSize.CalcEditorSize | app/src/main/java/com/example/photoeditor/utils/ImageSizeCalculator.kt:12-17 | the editor size is 1080, 960, 720 or 512 exactly on the memory-class ranges [512,∞), [384,512), [256,384), below 256 |
| ImageSize.CalcFreeStyleSize | app/src/main/java/com/example/photoeditor/utils/ImageSizeCalculator.kt:24 | the free-style size is 512 exactly from memory class 256, otherwise 384 |
| ImageSize.EditorSizeMonotone | app/src/main/java/com/example/photoeditor/utils/ImageSizeCalculator.kt:12-17 | more memory never gives a smaller editor size |
| ImageSize.FreeStyleBelowEditor | app/src/main/java/com/example/photoeditor/utils/ImageSizeCalculator.kt:12-24 | the free-style size is always below the editor size |
| AssetPath.LastIndexOf | adjust/src/main/java/com/core/adjust/utils/ImageViewEx.kt:29 | the result is the last position holding the character, or -1 exactly when it does not occur |
| AssetPath.SubstringAfterLast | adjust/src/main/java/com/core/adjust/utils/ImageViewEx.kt:29 | the result contains no delimiter and, with the prefix and delimiter, rebuilds the input; with no delimiter it is the input |
| AssetPath.SubstringBeforeLast | adjust/src/main/java/com/core/adjust/utils/ImageViewEx.kt:29 | the result followed by the delimiter and a delimiter-free tail rebuilds the input; with no delimiter it is the input |
| AssetPath.ThumbName | adjust/src/main/java/com/core/adjust/utils/ImageViewEx.kt:29 | the looked-up name never contains a path separator |
| AssetPath.FallbackAssetPath | adjust/src/main/java/com/core/adjust/utils/ImageViewEx.kt:29 | the fallback is the asset thumb folder, then the name, then ".jpg" |
| AssetPath.NoDelimiters | adjust/src/main/java/com/core/adjust/utils/ImageViewEx.kt:29 | a bare name without separator or dot is its own thumbnail name |
| AssetPath.OnlyLastExtensionDropped | adjust/src/main/java/com/core/adjust/utils/ImageViewEx.kt:29 | only the last extension of the last segment is removed |
| AssetPath.ExampleNestedPath | adjust/src/main/java/com/core/adjust/utils/ImageViewEx.kt:29 | "/data/lut/warm.film.png" gives "warm.film" |
| Suggestions.ExtractPacked | adjust/src/main/java/com/core/adjust/utils/FilterSuggestionUtils.kt:73-75 | the shift-and-mask reads give back the red, green and blue bytes of a packed ARGB pixel |
| Suggestions.DetectOutdoor | adjust/src/main/java/com/core/adjust/utils/FilterSuggestionUtils.kt:70-77 | the photo counts as outdoor exactly when a bitmap exists and the sampled upper pixel's blue exceeds its red and its green |
| Suggestions.DetectVintageTone | adjust/src/main/java/com/core/adjust/utils/FilterSuggestionUtils.kt:94-101 | the photo counts as vintage exactly when a bitmap exists and the centre pixel has red and green within 20 of each other and both above blue |
| Suggestions.NullBitmapDetectsNothing | adjust/src/main/java/com/core/adjust/utils/FilterSuggestionUtils.kt:58-95 | with no bitmap no detector fires |
| Suggestions.SceneLabels | adjust/src/main/java/com/core/adjust/utils/FilterSuggestionUtils.kt:28-32 | landscape scenes give Travel and Mood, night scenes give Urban and Black & White, anything else gives nothing |
| Suggestions.Distinct | adjust/src/main/java/com/core/adjust/utils/FilterSuggestionUtils.kt:53 | the result has no duplicates, the same elements as the input, and is no longer |
| Suggestions.DistinctKeepsFirstOccurrenceOrder | adjust/src/main/java/com/core/adjust/utils/FilterSuggestionUtils.kt:53 | de-duplication keeps elements in the order of their first occurrence |
| Suggestions.Take | adjust/src/main/java/com/core/adjust/utils/FilterSuggestionUtils.kt:53 | the result is the prefix of length min(n, size) |
| Suggestions.Labels | adjust/src/main/java/com/core/adjust/utils/FilterSuggestionUtils.kt:17-51 | with no rule firing the list is just Misc; otherwise it is the rules' labels in order and Misc is absent |
| Suggestions.SuggestGroups | adjust/src/main/java/com/core/adjust/utils/FilterSuggestionUtils.kt:16-54 | one to three distinct labels; exactly ["Misc"] when no rule fires; a face puts Portrait and Lifestyle first |
| Suggestions.OrderFollowsRules | adjust/src/main/java/com/core/adjust/utils/FilterSuggestionUtils.kt:17-53 | when a rule fires, every suggestion comes from the rules, suggestions appear in first-firing order, no earlier label is skipped in favour of a later one, and three are kept whenever three distinct labels fired |
| Suggestions.DistinctPrefixOrder | adjust/src/main/java/com/core/adjust/utils/FilterSuggestionUtils.kt:53 | any prefix of the de-duplicated list is drawn from the input in first-occurrence order and is closed under earlier first occurrences |
| Suggestions.SuggestionCount | adjust/src/main/java/com/core/adjust/utils/FilterSuggestionUtils.kt:53 | the suggestions are three whenever at least three distinct labels were produced, and all of them otherwise |
| Suggestions.NothingKnownGivesMisc | adjust/src/main/java/com/core/adjust/utils/FilterSuggestionUtils.kt:51-53 | with no bitmap and no EXIF the suggestion is ["Misc"] |
| Suggestions.DistinctExample | adjust/src/main/java/com/core/adjust/utils/FilterSuggestionUtils.kt:53 | four distinct labels followed by repeats de-duplicate to the four labels |
| Suggestions.DistinctRepeats | adjust/src/main/java/com/core/adjust/utils/FilterSuggestionUtils.kt:53 | appending labels already present does not change the de-duplicated list |
| Suggestions.ExampleFacesLandscapeDaylight | adjust/src/main/java/com/core/adjust/utils/FilterSuggestionUtils.kt:16-54 | faces, a landscape scene and daylight suggest Portrait, Lifestyle, Travel |

## Left out

- Native render kernels and the JNI bridge (`AdjustProcessor.applyAdjust`, `clearCache`, `releasePool`). Their result is an oracle outcome or a recorded effect. Their pixel arithmetic is floating point and is not part of this model.
- Coroutines, dispatchers, `withContext` and the state/shared flows. A launched job is one completion step. A flow emission is an effect in the view-model's effect list. Interleavings beyond "apply, apply, ..., complete" are sequences of manager actions.
- Bitmap copy, recycle, compress, `MediaStore` queries, deletes and output streams. A bitmap is an opaque value. The MediaStore insert and the render are per-preset oracles. Deleting an older thumbnail with the same name has no observable effect on the preset list and is not modelled.
- The Android version check in `generateLutThumbsToDownloads` (AdjustManager.kt:133). The model describes the branch taken on Android 10 and later.
- The float scale `max(tw/w, th/h)` and the matrix scaling. The scaled width and height are inputs to `Thumbnails.CenterCrop`.
- `areBitmapsDifferent` (AdjustManager.kt:92-98). It is only used for logging.
- ML Kit face detection, `ExifInterface` parsing and the floating-point low-light average. Each is an oracle field of the bitmap facts or the EXIF record.
- `getPixel` on a bitmap too small to hold the sampled position. The sampled pixel is an input.
- Sliders.TruncToInt: the conversion from float to int is modelled over exact reals. Float rounding of `value / 100f` and `* 100` is not modelled, and the saturation of `toInt` at the 32-bit bounds is not modelled.
- Sliders.SliderRoundTrip and Sliders.ParamRoundTrip: these hold over exact arithmetic. They are weaker than a statement about 32-bit floats, where a value such as 0.07 times 100 can truncate to 6.
- Glide image loading in `loadLutThumb`. Only the fallback path it builds is modelled. Whether the cached file exists is not modelled.
- The branch at ImageViewEx.kt:20-21, for a thumbnail file that does not exist, takes the name from `File(thumbPath).nameWithoutExtension`. `java.io.File` normalises its path, dropping a trailing '/' and repeated '/'. That normalisation is not modelled. `AssetPath.FallbackAssetPath` is the string formula of the exception branch at line 29, and the two branches agree on every path without a trailing or doubled '/'. For "lut/warm.png/", line 20 gives "warm" where line 29 gives "".
- JSON loading in the colour-mixer view-model (`loadData`, `loadGroupedLutPresets`). It is I/O.
- The release, close and `onCleared` of the view-models. Releasing is `Session.Release`. Closing is a flow emission.
- Scrolling, `notifyItemChanged`, `notifyDataSetChanged`, the icon the adapters read as `item.iconRes` (a field the slider class as written lacks, see the notes below) and text views of the slider adapter. These are display only.

## Notes on the code as written

- `AdjustMask.MASK_LUT` is not defined in `AdjustMask.kt`. The model gives it bit 6, a bit outside the five group bits and the HSL bit.
- `AdjustParams` as written has no HSL arrays and no LUT fields, and its `activeMask` is a read-only property. The view-models nevertheless assign all of these, so the model adds them as mutable parts of the parameter set. `activeMask` keeps its own value separate from `buildMask`.
- `AdjustViewModel` calls `resetLight`, `resetColor`, `resetEffects` and `resetHsl` on the manager, which the manager as written lacks. They are modelled as zeroing the fields of the matching tab (`Params.ResetFields`) and zeroing the HSL arrays (`Params.ResetHsl`).
- The default `HslTriple` is taken as (0, 0, 0).
- The default LUT strength `lutAmount` is taken as 1.0 and the default LUT path as none; `AdjustParams` as written declares neither field.
- The two colour-mixer view-models (`ui/` and `ui/hsl/`) have identical operations and share one module.
- `AdjustFragment.kt` lives in package `ui.adjust` and imports no adapter, so its `AdjustAdapter` resolves to the class in the same package. That class's callback takes one argument (ui/adjust/AdjustAdapter.kt:14), so the two-argument lambda at AdjustFragment.kt:48 does not type-check as written. The model assumes the adapter under `ui/filter/child/adjust/`, whose callback takes the slider and the `required` flag.
- Thumbnail parameters set a LUT path but never the LUT bit of the active mask.
- `AdjustSlider` as written (model/AdjustSlider.kt:3-9) is `(key, label, min = -100, max = 100, value = 0)` and has no `iconRes` field. The list at AdjustFragment.kt:28-45 therefore passes each drawable id as `min`: exposure gets min = its drawable id, max = -500 and value = 500, and grain gets max = 0. Both slider adapters read `item.iconRes` (filter/child/adjust/AdjustAdapter.kt:31, ui/adjust/AdjustAdapter.kt:32), so the code evidently intends a `(key, label, icon, min, max, value)` constructor. The model assumes that constructor and leaves the icon out: exposure spans [-500, 500] at 0, grain [0, 100], and every other slider keeps the default [-100, 100] at 0. `Sliders.AdjustList`, `Sliders.AdjustListMatchesTabs` and `SliderAdapter.InitialSelection` rest on this reading.
