/** The bytes addresses and headers are made of. */
module Octets {
  type Byte = n: nat | n < 256
}
