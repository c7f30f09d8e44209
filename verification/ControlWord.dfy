// The 32-bit `reader_state` word at the heart of the reuse protocol.
// Bit 31 is the reuse claim; bits 0-30 count the references held on the block.

module ControlWord {

  type Word = w: int | 0 <= w < 0x1_0000_0000

  const REUSE_CLAIMED: Word := 0x8000_0000
  const READER_COUNT_MASK: Word := 0x7FFF_FFFF

  // `value & kSharedBufferReuseClaimed`, read as a truth value.
  predicate Claimed(w: Word) {
    w >= REUSE_CLAIMED
  }

  // `value & kSharedBufferReaderCountMask`.
  function Readers(w: Word): nat {
    w % REUSE_CLAIMED
  }

  // The test at the head of the reader's compare-and-swap loop.
  predicate AcquireRefused(w: Word) {
    Claimed(w) || Readers(w) == READER_COUNT_MASK
  }

  // Unsigned 32-bit `value + 1` and `fetch_sub(1)`, with wrap-around.
  function PlusOne(w: Word): Word {
    (w + 1) % 0x1_0000_0000
  }

  function MinusOne(w: Word): Word {
    (w - 1) % 0x1_0000_0000
  }

  // ---- The masks ----

  // Bitwise `a & b`.
  function And(a: nat, b: nat): nat {
    if a == 0 || b == 0 then 0
    else 2 * And(a / 2, b / 2) + (if a % 2 == 1 && b % 2 == 1 then 1 else 0)
  }

  function Pow2(k: nat): (p: nat)
    ensures p > 0
  {
    if k == 0 then 1 else 2 * Pow2(k - 1)
  }

  lemma Multiple(d: nat, k: int)
    ensures k >= 1 ==> d * k >= d
    ensures k <= -1 ==> d * k <= 0 - d
  {
  }

  lemma ModIs(a: nat, d: nat, q: nat, m: nat)
    requires a == d * q + m && m < d
    ensures a % d == m && a / d == q
  {
    var q', m' := a / d, a % d;
    assert d * (q - q') == m' - m by {
      assert d * (q - q') == d * q - d * q';
      assert a == d * q' + m';
    }
    Multiple(d, q - q');
  }

  // Halving, as seen from twice a divisor.
  lemma ModOfDouble(a: nat, p: nat)
    requires p > 0
    ensures a % (2 * p) == 2 * (a / 2 % p) + a % 2 && a / (2 * p) == a / 2 / p
  {
    var h := a / 2;
    assert a == 2 * p * (h / p) + (2 * (h % p) + a % 2) by {
      assert h == p * (h / p) + h % p;
      assert 2 * (p * (h / p)) == 2 * p * (h / p);
    }
    ModIs(a, 2 * p, h / p, 2 * (h % p) + a % 2);
  }

  // A mask of `k` low ones is a remainder.
  lemma {:induction false} LowMask(a: nat, k: nat)
    ensures And(a, Pow2(k) - 1) == a % Pow2(k)
  {
    if k > 0 {
      LowMask(a / 2, k - 1);
      ModOfDouble(a, Pow2(k - 1));
      assert (Pow2(k) - 1) / 2 == Pow2(k - 1) - 1 && (Pow2(k) - 1) % 2 == 1;
    }
  }

  // A mask of one bit picks that bit.
  lemma {:induction false} BitMask(a: nat, k: nat)
    ensures And(a, Pow2(k)) == if a / Pow2(k) % 2 == 1 then Pow2(k) else 0
  {
    if k > 0 {
      BitMask(a / 2, k - 1);
      ModOfDouble(a, Pow2(k - 1));
    } else {
      assert And(a / 2, 0) == 0;
    }
  }

  // The source's masks, applied to a 32-bit word, are the comparisons used here.
  lemma MasksAreComparisons(w: Word)
    ensures And(w, 0x8000_0000) != 0 <==> Claimed(w)
    ensures And(w, 0x7FFF_FFFF) == Readers(w)
    ensures And(w, 0x8000_0000) != 0 || And(w, 0x7FFF_FFFF) == 0x7FFF_FFFF <==> AcquireRefused(w)
  {
    assert Pow2(8) == 0x100;
    assert Pow2(16) == 0x1_0000;
    assert Pow2(24) == 0x100_0000;
    assert Pow2(31) == 0x8000_0000;
    BitMask(w, 31);
    LowMask(w, 31);
  }

  // An admitted acquisition adds exactly one reference: nothing carries into the claim bit.
  lemma AcquireAddsOne(w: Word)
    requires !AcquireRefused(w)
    ensures !Claimed(PlusOne(w)) && Readers(PlusOne(w)) == Readers(w) + 1
  {
  }

  // A release drops exactly one reference, but only while there is one to drop.
  lemma ReleaseDropsOne(w: Word)
    ensures
      Readers(w) > 0 <==>
      Claimed(MinusOne(w)) == Claimed(w) && Readers(MinusOne(w)) == Readers(w) - 1
  {
  }

  lemma FreeWordIsZero(w: Word)
    ensures w == 0 <==> !Claimed(w) && Readers(w) == 0
  {
  }
}
