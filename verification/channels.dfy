/** The eight hue channels of the colour mixer, in declaration order. */
module Channels {

  datatype ColorChannel = Red | Orange | Yellow | Green | Aqua | Blue | Purple | Magenta

  /** `ColorChannel.entries`: every channel, in declaration order. */
  const Entries: seq<ColorChannel> := [Red, Orange, Yellow, Green, Aqua, Blue, Purple, Magenta]

  /** The enum ordinal, used to index the eight-entry HSL arrays. */
  function Ordinal(c: ColorChannel): (i: nat)
    ensures i < |Entries| && Entries[i] == c
  {
    match c
    case Red => 0
    case Orange => 1
    case Yellow => 2
    case Green => 3
    case Aqua => 4
    case Blue => 5
    case Purple => 6
    case Magenta => 7
  }

  function DisplayName(c: ColorChannel): string {
    match c
    case Red => "Red"
    case Orange => "Orange"
    case Yellow => "Yellow"
    case Green => "Green"
    case Aqua => "Aqua"
    case Blue => "Blue"
    case Purple => "Purple"
    case Magenta => "Magenta"
  }

  /** There are eight channels, each listed once, and the ordinal is a bijection onto 0..7. */
  lemma EntriesEnumerateChannels()
    ensures |Entries| == 8
    ensures forall c :: c in Entries
    ensures forall i, j :: 0 <= i < j < |Entries| ==> Entries[i] != Entries[j]
    ensures forall i :: 0 <= i < |Entries| ==> Ordinal(Entries[i]) == i
  {
    forall c ensures c in Entries {
      assert Entries[Ordinal(c)] == c;
    }
  }

  /** No two channels share a display name. */
  lemma DisplayNamesDistinct(c: ColorChannel, d: ColorChannel)
    requires c != d
    ensures DisplayName(c) != DisplayName(d)
  {
  }
}
