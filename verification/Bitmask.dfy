/**
 32-bit masks of small numbers, as src/IntColumnFilter.cc handles them: a `uint32_t` is the sequence of its 32 bits,
 least significant first, and bit k stands for the column value k.
 */
module Bitmask {
  type Word = w: seq<bool> | |w| == 32 witness seq(32, i => false)

  function Zero(): Word {
    seq(32, i => false)
  }

  function AllBits(): Word {
    seq(32, i => true)
  }

  function Bit(k: nat): Word
    requires k < 32
  {
    seq(32, i => i == k)
  }

  function And(a: Word, b: Word): Word {
    seq(32, i requires 0 <= i < 32 => a[i] && b[i])
  }

  function Or(a: Word, b: Word): Word {
    seq(32, i requires 0 <= i < 32 => a[i] || b[i])
  }

  function Not(a: Word): Word {
    seq(32, i requires 0 <= i < 32 => !a[i])
  }

  function ShiftUp(a: Word): Word {
    seq(32, i requires 0 <= i < 32 => i > 0 && a[i - 1])
  }

  function ShiftDown(a: Word): Word {
    seq(32, i requires 0 <= i < 32 => i < 31 && a[i + 1])
  }

  /** `mask` without the bits lo..hi-1. */
  function Without(mask: Word, lo: nat, hi: nat): Word {
    seq(32, i requires 0 <= i < 32 => mask[i] && !(lo <= i < hi))
  }

  /**
   The loop that clears a bit and shifts it down until it falls off; entered
   with bit k-1, or with no bit for k = 0.
   */
  method ClearDownwards(mask: Word, bit: Word, ghost k: nat) returns (cleared: Word)
    requires k <= 32 && bit == if k == 0 then Zero() else Bit(k - 1)
    ensures cleared == Without(mask, 0, k)
  {
    var b := bit;
    ghost var left: nat := k;
    cleared := mask;
    while b != Zero()
      invariant left <= k && b == if left == 0 then Zero() else Bit(left - 1)
      invariant cleared == Without(mask, left, k)
      invariant left > 0 ==> b[left - 1]
      decreases left
    {
      cleared := And(cleared, Not(b));
      b := ShiftDown(b);
      left := left - 1;
      assert cleared == Without(mask, left, k);
    }
  }

  /** The endless loop that clears a bit and shifts it up, left when bit 31 has been cleared. */
  method ClearUpwards(mask: Word, bit: Word, ghost k: nat) returns (cleared: Word)
    requires k < 32 && bit == Bit(k)
    ensures cleared == Without(mask, k, 32)
  {
    var b := bit;
    ghost var at: nat := k;
    cleared := mask;
    while true
      invariant k <= at < 32 && b == Bit(at)
      invariant cleared == Without(mask, k, at)
      decreases 32 - at
    {
      assert b[at];
      cleared := And(cleared, Not(b));
      assert cleared == Without(mask, k, at + 1);
      if b == Bit(31) {
        return;
      }
      b := ShiftUp(b);
      at := at + 1;
    }
  }
}
