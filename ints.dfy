/** Go's fixed-width unsigned integers used by the model, as bounded newtypes. */
module Ints {
  newtype uint16 = x: int | 0 <= x < 0x1_0000
  newtype uint32 = x: int | 0 <= x < 0x1_0000_0000
  newtype byte = x: int | 0 <= x < 0x100
}
