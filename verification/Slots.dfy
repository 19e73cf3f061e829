/** Slot numbers and the two-epoch window, on the unsigned 64-bit integers of the source. */
module Slots {

  const UINT64: nat := 0x1_0000_0000_0000_0000
  const WINDOW: nat := 64

  type Slot = n: nat | n < 0x1_0000_0000_0000_0000

  /** `slot - 64`: it wraps around below slot 64. */
  function Floor(slot: Slot): Slot {
    (slot + UINT64 - WINDOW) % UINT64
  }

  /** Slots below 64 are older than themselves; from slot 64 on the window is what it seems. */
  lemma FloorWraps(slot: Slot, older: Slot)
    ensures slot >= 64 ==> Floor(slot) == slot - 64
    ensures slot < 64 && older <= slot ==> older < Floor(slot)
  {
  }
}
