// Bytes as numbers and as bit-vectors.
module Bytes {
  import opened Types

  function Byte(b: u8): bv8 { b as bv8 }

  lemma Converted(n: int)
    requires 0 <= n < 256
    ensures (n as bv8) as int == n
  {
  }

  lemma ByteBack(b: u8)
    ensures Byte(b) as int == b
  {
    Converted(b);
  }

  // Zero extension keeps the number.
  lemma Extended(v: bv8)
    ensures (v as bv32) as int == v as int
  {
  }
}
