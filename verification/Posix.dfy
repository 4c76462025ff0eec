/** Bytes and permission bits, shared by the file models of this project. */
module Posix {
  newtype Byte = b: int | 0 <= b < 256

  /** Permission bits by number: 8, 7, 6 for the owner down to 2, 1, 0 for others. */
  type Mode = set<nat>
}
