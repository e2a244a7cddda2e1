/** The address arithmetic of the page-table walk, on 32-bit words as the kernel computes it. */
module Addresses {
  import opened PagingState

  function VaddrToOffset(a: bv32): bv32 { a & 0x00000FFF }
  function VaddrToPdi(a: bv32): bv32 { (a & 0xFFC00000) >> 22 }
  function VaddrToPti(a: bv32): bv32 { (a & 0x003FF000) >> 12 }
  function VaddrToVpn(a: bv32): bv32 { a >> 12 }

  /** The three fields lose nothing: shifting them back together gives the address. */
  lemma FieldsRebuildAddress(a: bv32)
    ensures (VaddrToPdi(a) << 22) | (VaddrToPti(a) << 12) | VaddrToOffset(a) == a
    ensures VaddrToPdi(a) < 1024 && VaddrToPti(a) < 1024 && VaddrToOffset(a) < 4096
  {
  }

  /** Directory and table index are the quotient and remainder of the page number by 1024. */
  lemma IndicesOfVpn(a: bv32)
    ensures VaddrToPdi(a) == VaddrToVpn(a) / 1024 && VaddrToPti(a) == VaddrToVpn(a) % 1024
  {
  }

  /** The first address of a page, as evictFrame rebuilds it, has that page's number. */
  lemma PageStart(vpn: bv32)
    requires vpn < 0x100000
    ensures VaddrToVpn(vpn * 4096) == vpn && VaddrToOffset(vpn * 4096) == 0
  {
  }

  // ---- the fields as numbers ----------------------------------------------

  /** The number a word stands for. */
  function Num(a: bv32): (r: nat)
    ensures a != 0 ==> r > 0
    decreases a
  {
    if a == 0 then 0 else 2 * Num(a >> 1) + if a & 1 == 1 then 1 else 0
  }

  /** Different words, different numbers. */
  lemma {:induction false} NumDiffers(a: bv32, b: bv32)
    requires Num(a) == Num(b)
    ensures a == b
    decreases Num(a)
  {
    hide Num;
    NumParts(a, b);
    if Num(a) > 0 {
      NumDiffers(a >> 1, b >> 1);
    }
  }

  lemma NumParts(a: bv32, b: bv32)
    requires Num(a) == Num(b)
    ensures Num(a >> 1) == Num(b >> 1) && (Num(a) > 0 ==> Num(a >> 1) < Num(a)) && (a >> 1 == b >> 1 ==> a == b)
  {
    NumLow(a);
    NumLow(b);
    hide Num;
    LastBit(a, b);
  }

  lemma NumLow(a: bv32)
    ensures Num(a) == 2 * Num(a >> 1) + if a & 1 == 1 then 1 else 0
  {
  }

  lemma LastBit(a: bv32, b: bv32)
    requires a & 1 == 1 <==> b & 1 == 1
    ensures a >> 1 == b >> 1 ==> a == b
  {
  }

  /** Two words that agree in their low bits differ in what the higher bits contribute. */
  lemma Same2(a: bv32, b: bv32)
    requires a & 3 == b & 3
    ensures Num(a) - Num(b) == 4 * (Num(a >> 2) - Num(b >> 2))
  {
    Bits2(a, b);
  }

  lemma Bits2(a: bv32, b: bv32)
    requires a & 3 == b & 3
    ensures a & 1 == b & 1 && (a >> 1) & 1 == (b >> 1) & 1 && (a >> 1) >> 1 == a >> 2 && (b >> 1) >> 1 == b >> 2
  {
  }

  lemma Same4(a: bv32, b: bv32)
    requires a & 15 == b & 15
    ensures Num(a) - Num(b) == 16 * (Num(a >> 4) - Num(b >> 4))
  {
    Bits4(a, b);
    hide Num;
    Same2(a, b);
    Same2(a >> 2, b >> 2);
  }

  lemma Bits4(a: bv32, b: bv32)
    requires a & 15 == b & 15
    ensures a & 3 == b & 3 && (a >> 2) & 3 == (b >> 2) & 3 && (a >> 2) >> 2 == a >> 4 && (b >> 2) >> 2 == b >> 4
  {
  }

  lemma Same8(a: bv32, b: bv32)
    requires a & 15 == b & 15 && (a >> 4) & 15 == (b >> 4) & 15
    ensures Num(a) - Num(b) == 256 * (Num(a >> 8) - Num(b >> 8))
  {
    hide Num;
    Shift8(a);
    Shift8(b);
    Same4(a, b);
    Same4(a >> 4, b >> 4);
  }

  lemma Shift8(a: bv32)
    ensures (a >> 4) >> 4 == a >> 8
  {
  }

  lemma Same10(a: bv32, b: bv32)
    requires a & 15 == b & 15 && (a >> 4) & 15 == (b >> 4) & 15 && (a >> 8) & 3 == (b >> 8) & 3
    ensures Num(a) - Num(b) == 1024 * (Num(a >> 10) - Num(b >> 10))
  {
    hide Num;
    Shift12(a);
    Shift12(b);
    Same8(a, b);
    Same2(a >> 8, b >> 8);
  }

  lemma Same12(a: bv32, b: bv32)
    requires a & 15 == b & 15 && (a >> 4) & 15 == (b >> 4) & 15 && (a >> 8) & 15 == (b >> 8) & 15
    ensures Num(a) - Num(b) == 4096 * (Num(a >> 12) - Num(b >> 12))
  {
    hide Num;
    Shift12(a);
    Shift12(b);
    Same8(a, b);
    Same4(a >> 8, b >> 8);
  }

  lemma Shift12(a: bv32)
    ensures (a >> 8) >> 4 == a >> 12 && (a >> 8) >> 2 == a >> 10
  {
  }

  lemma Small(a: bv32)
    ensures a >> 10 == 0 ==> Num(a) < 1024
    ensures a >> 12 == 0 ==> Num(a) < 4096
  {
    Small4(a);
    Small4(a >> 4);
    Small4(a >> 8);
    Small2(a >> 8);
    Shift8(a);
    Shift12(a);
  }

  lemma Small2(a: bv32)
    ensures Num(a) <= 4 * Num(a >> 2) + 3
  {
    Bits2(a, a);
  }

  lemma Small4(a: bv32)
    ensures Num(a) <= 16 * Num(a >> 4) + 15
  {
    Bits4(a, a);
    Small2(a);
    Small2(a >> 2);
  }

  lemma Low12(a: bv32, b: bv32)
    requires a & 15 == b & 15 && (a >> 4) & 15 == (b >> 4) & 15 && (a >> 8) & 15 == (b >> 8) & 15 && b >> 12 == 0
    ensures Num(a >> 12) == Num(a) / 4096 && Num(b) == Num(a) % 4096
  {
    assert Num(0) == 0;
    hide Num;
    Same12(a, b);
    Small(b);
  }

  lemma Low10(a: bv32, b: bv32)
    requires a & 15 == b & 15 && (a >> 4) & 15 == (b >> 4) & 15 && (a >> 8) & 3 == (b >> 8) & 3 && b >> 10 == 0
    ensures Num(a >> 10) == Num(a) / 1024 && Num(b) == Num(a) % 1024
  {
    assert Num(0) == 0;
    hide Num;
    Same10(a, b);
    Small(b);
  }

  /** The low 12 or 10 bits are the remainder, the others the quotient. */
  lemma LowBits(a: bv32)
    ensures Num(a >> 12) == Num(a) / 4096 && Num(a & 0xFFF) == Num(a) % 4096
    ensures Num(a >> 10) == Num(a) / 1024 && Num(a & 0x3FF) == Num(a) % 1024
  {
    hide Num;
    Masked(a);
    Low12(a, a & 0xFFF);
    Low10(a, a & 0x3FF);
  }

  lemma Masked(a: bv32)
    ensures var b := a & 0xFFF; a & 15 == b & 15 && (a >> 4) & 15 == (b >> 4) & 15 && (a >> 8) & 15 == (b >> 8) & 15 && b >> 12 == 0
    ensures var b := a & 0x3FF; a & 15 == b & 15 && (a >> 4) & 15 == (b >> 4) & 15 && (a >> 8) & 3 == (b >> 8) & 3 && b >> 10 == 0
  {
  }

  /** Read as numbers, the fields are the page, the offset and the two indices the paging model walks its tables with. */
  lemma WalkIndices(a: bv32)
    ensures Num(VaddrToVpn(a)) == Num(a) / 4096 && Num(VaddrToOffset(a)) == Num(a) % 4096
    ensures Num(VaddrToPdi(a)) == Pdi(Num(VaddrToVpn(a))) && Num(VaddrToPti(a)) == Pti(Num(VaddrToVpn(a)))
  {
    FieldsOfVpn(a);
    LowBits(a);
    LowBits(a >> 12);
  }

  lemma FieldsOfVpn(a: bv32)
    ensures VaddrToPdi(a) == (a >> 12) >> 10 && VaddrToPti(a) == (a >> 12) & 0x3FF
  {
  }
}
