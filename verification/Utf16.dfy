/** Texts as JavaScript holds them: sequences of UTF-16 code units. */
module Utf16 {
  type Unit = c: nat | c < 0x1_0000

  type Text = seq<Unit>
}
