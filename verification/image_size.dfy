/** Target edit sizes (longest side, in pixels) chosen from the app's memory class in MB. */
module ImageSize {

  function CalcEditorSize(memClassMb: int): (size: int)
    ensures size in {512, 720, 960, 1080}
    ensures memClassMb >= 512 <==> size == 1080
    ensures 384 <= memClassMb < 512 <==> size == 960
    ensures 256 <= memClassMb < 384 <==> size == 720
    ensures memClassMb < 256 <==> size == 512
  {
    if memClassMb >= 512 then 1080
    else if memClassMb >= 384 then 960
    else if memClassMb >= 256 then 720
    else 512
  }

  function CalcFreeStyleSize(memClassMb: int): (size: int)
    ensures size == 512 <==> memClassMb >= 256
    ensures size == 384 <==> memClassMb < 256
  {
    if memClassMb >= 256 then 512 else 384
  }

  /** More memory never yields a smaller editor size. */
  lemma EditorSizeMonotone(a: int, b: int)
    requires a <= b
    ensures CalcEditorSize(a) <= CalcEditorSize(b)
  {
  }

  /** The free-style size is always strictly below the editor size. */
  lemma FreeStyleBelowEditor(memClassMb: int)
    ensures CalcFreeStyleSize(memClassMb) < CalcEditorSize(memClassMb)
  {
  }
}
