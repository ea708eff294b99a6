/** Bytes as numbers and as bit vectors, and what exclusive or does to them. */
module Bits {
  import opened Sequences

  function AsBits(b: Byte): bv8 { b as bv8 }

  function AsByte(c: bv8): Byte { c as Byte }

  lemma Successor(c: bv8)
    requires c != 255
    ensures (c + 1) as int == c as int + 1
  {
  }

  lemma NotLargest(c: bv8)
    requires c as int < 255
    ensures c != 255
  {
  }

  /** Every byte is the number of some bit vector. */
  lemma {:induction false} SomeBits(b: nat) returns (c: bv8)
    requires b < 256
    ensures c as int == b
  {
    if b == 0 {
      c := 0;
    } else {
      var d := SomeBits(b - 1);
      NotLargest(d);
      Successor(d);
      c := d + 1;
    }
  }

  lemma BitsBack(c: bv8)
    ensures AsBits(AsByte(c)) == c
  {
  }

  lemma ByteBack(b: Byte)
    ensures AsByte(AsBits(b)) == b
  {
    var c := SomeBits(b);
    BitsBack(c);
  }

  lemma NoBits()
    ensures AsBits(0) == 0
  {
  }

  lemma XorCancels(x: bv8, y: bv8, c: bv8)
    requires c == (x ^ (0 as bv8)) ^ y
    ensures (x ^ c) ^ y == 0
  {
  }

  lemma XorUnique(x: bv8, y: bv8, c: bv8)
    requires (x ^ c) ^ y == 0
    ensures c == (x ^ (0 as bv8)) ^ y
  {
  }
}
