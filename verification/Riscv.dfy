/** The page and PTE arithmetic of kernel/riscv.h, on 64-bit words as the macros compute it.
    Page numbers, three-digit indices and packed entries are what the page-table model works with. */
module Riscv {

  const MAXVA: bv64 := 0x40_0000_0000

  function Pa2Pte(pa: bv64): bv64 { (pa >> 12) << 10 }

  function Pte2Pa(pte: bv64): bv64 { (pte >> 10) << 12 }

  function PteFlags(pte: bv64): bv64 { pte & 0x3FF }

  /** `PA2PTE(pa) | perm`: a page-aligned physical address and any ten permission bits survive packing. */
  function Pack(pa: bv64, perm: bv64): (pte: bv64)
    requires pa & 0xFFF == 0 && perm & !0x3FF == 0
    ensures Pte2Pa(pte) == pa && PteFlags(pte) == perm
  {
    Pa2Pte(pa) | perm
  }

  /** PGROUNDDOWN: the greatest page boundary at or below a. */
  function RoundDown(a: bv64): (r: bv64)
    ensures r & 0xFFF == 0 && r <= a && a - r < 4096
  {
    a & !0xFFF
  }

  /** PGROUNDUP: the least page boundary at or above a, or 0 when a is in the last page of the 64-bit space and not at
      its start. */
  function RoundUp(a: bv64): (r: bv64)
    ensures r & 0xFFF == 0
    ensures a <= 0xFFFF_FFFF_FFFF_F000 ==> a <= r && r - a < 4096
    ensures a > 0xFFFF_FFFF_FFFF_F000 ==> r == 0
  {
    RoundDown(a + 4095)
  }

  /** PX(level, va). */
  function Px(level: nat, va: bv64): bv64
    requires level <= 2
  {
    (if level == 0 then va >> 12 else if level == 1 then va >> 21 else va >> 30) & 0x1FF
  }

  /** The three indices are the digits, base 512, of the page number of an address below MAXVA. */
  lemma IndicesAreDigits(va: bv64)
    requires va < MAXVA
    ensures va == (Px(2, va) << 30) + (Px(1, va) << 21) + (Px(0, va) << 12) + (va & 0xFFF)
    ensures Px(0, va) < 512 && Px(1, va) < 512 && Px(2, va) < 256
  {
  }

  /** So two page-aligned addresses below MAXVA reach the same slot only if they are equal. */
  lemma IndicesDetermineAddress(a: bv64, b: bv64)
    requires a < MAXVA && b < MAXVA && a & 0xFFF == 0 && b & 0xFFF == 0
    requires forall level: nat :: level <= 2 ==> Px(level, a) == Px(level, b)
    ensures a == b
  {
    assert Px(0, a) == Px(0, b) && Px(1, a) == Px(1, b) && Px(2, a) == Px(2, b);
    IndicesAreDigits(a);
    IndicesAreDigits(b);
  }
}
