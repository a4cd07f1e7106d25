/** Bytes as vectors of bits. */
module BitVectors {
  lemma ByteAsVector(b: int)
    requires 0 <= b < 0x100
    ensures (b as bv8) as int == b
  {}
}
