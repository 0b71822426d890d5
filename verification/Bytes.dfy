/** The bytes of images and of downloads. */
module Bytes {
  type byte = b: int | 0 <= b < 0x100
}
