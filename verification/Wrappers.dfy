/** The optional value shared by every component. */
module Wrappers {
  datatype Option<+T> = None | Some(value: T)
}

/** Octets, as the wire and the files carry them. */
module Bytes {
  type Byte = b: int | 0 <= b < 256
}

/** The code points that Unicode calls white space. */
module Unicode {
  predicate IsWhiteSpace(point: nat) {
    || 9 <= point <= 13 || 0x2000 <= point <= 0x200A
    || point in {0x20, 0x85, 0xA0, 0x1680, 0x2028, 0x2029, 0x202F, 0x205F, 0x3000}
  }
}
