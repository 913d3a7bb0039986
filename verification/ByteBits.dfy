/** A byte as a number and as a bit vector. */
module ByteBits {

  lemma RoundTrip(b: int)
    requires 0 <= b < 256
    ensures (b as bv8) as int == b
  {
  }
}
