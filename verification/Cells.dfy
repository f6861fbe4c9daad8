/** What a memory cell holds. */
module Cells {
  type Byte = b: int | 0 <= b < 256
}
