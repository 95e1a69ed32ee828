/** 32-bit TCP sequence numbers: wrap-around addition, the signed difference that the
    comparison macros take, and the slot arithmetic the safety proofs use. */
module SeqNum {

  const MOD: int := 0x1_0000_0000
  const HALF: int := 0x8000_0000

  type Seq = x: int | 0 <= x < 0x1_0000_0000

  /** `x + n` in uint32_t arithmetic. */
  function Plus(x: Seq, n: int): (r: Seq) {
    (x + n) % MOD
  }

  /** `(int32_t)(x - y)`: the wrapped 32-bit difference read as a signed number. */
  function Diff(x: Seq, y: Seq): (d: int)
    ensures -HALF <= d < HALF
  {
    var d := (x - y) % MOD;
    if d < HALF then d else d - MOD
  }

  /** TCP_SEQ_LE */
  predicate SeqLe(x: Seq, y: Seq) {
    Diff(x, y) <= 0
  }

  /** TCP_SEQ_LT */
  predicate SeqLt(x: Seq, y: Seq) {
    Diff(x, y) < 0
  }

  /** How many sequence numbers `x` lies after `base`. Slot 0 of a stream is its SYN. */
  function Slot(base: Seq, x: Seq): (s: nat)
    ensures s < MOD
  {
    (x - base) % MOD
  }

  /** `(int32_t)x`, the cast the macros apply to each operand. */
  function Signed(x: Seq): (s: int)
    ensures -HALF <= s < HALF
  {
    if x < HALF then x else x - MOD
  }

  /** The slot of a number advanced by `n` is the slot advanced by `n`, below the wrap. */
  lemma SlotPlus(base: Seq, x: Seq, n: int)
    requires 0 <= Slot(base, x) + n < MOD
    ensures Slot(base, Plus(x, n)) == Slot(base, x) + n
  {
  }

  /** Within half of the number space the signed difference is the difference of slots, so
      the comparison macros order numbers as their streams do, wrap-around included. */
  lemma DiffIsSlotDifference(base: Seq, x: Seq, y: Seq)
    requires -HALF <= Slot(base, x) - Slot(base, y) < HALF
    ensures Diff(x, y) == Slot(base, x) - Slot(base, y)
    ensures SeqLe(x, y) <==> Slot(base, x) <= Slot(base, y)
    ensures SeqLt(x, y) <==> Slot(base, x) < Slot(base, y)
  {
  }

  /** A slot determines its number. */
  lemma SlotInjective(base: Seq, x: Seq, y: Seq)
    requires Slot(base, x) == Slot(base, y)
    ensures x == y
  {
  }

  /** The macros are written as a subtraction of two int32_t values. Evaluated without
      wrap-around that subtraction agrees with the wrapped difference exactly when it stays
      inside int32_t; otherwise the two readings disagree about which number is first. */
  lemma MacroReadingsAgree(x: Seq, y: Seq)
    ensures Signed(x) - Signed(y) == Diff(x, y) <==> -HALF <= Signed(x) - Signed(y) < HALF
    ensures Signed(x) - Signed(y) >= HALF ==> SeqLt(x, y)
    ensures Signed(x) - Signed(y) < -HALF ==> SeqLt(y, x)
  {
  }
}
