/** Bitmaps as sequences of bits. */
module Bitmaps {

  /** find_next_bit: the first set bit from a position on, or the number of bits. */
  method FindNextBit(bits: seq<bool>, from: nat) returns (k: nat)
    requires from <= |bits|
    ensures from <= k <= |bits| && (k < |bits| ==> bits[k]) && forall j :: from <= j < k ==> !bits[j]
  {
    k := from;
    while k < |bits| && !bits[k]
      invariant from <= k <= |bits| && forall j :: from <= j < k ==> !bits[j]
    {
      k := k + 1;
    }
  }
}
