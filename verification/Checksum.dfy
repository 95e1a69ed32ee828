/** The Internet checksum (RFC 1071) as the code computes it: little-endian 16-bit loads, an
    odd start offset handled by one high byte, a folding loop, and chained partial sums. */
module Checksum {
  import opened Common

  const U16: int := 0x1_0000
  const U32: int := 0x1_0000_0000
  const ONES: int := 0xFFFF

  /** The unfolded sum: bytes at even stream offsets count once, at odd offsets 256 times. */
  function Raw(b: seq<Byte>, odd: bool): nat {
    if b == [] then 0 else b[0] * (if odd then 256 else 1) + Raw(b[1..], !odd)
  }

  /** The end-around carry loop. */
  function Fold(x: nat): (r: nat)
    ensures r < U16
  {
    if x < U16 then x else Fold(x / U16 + x % U16)
  }

  predicate Odd(n: int) {
    n % 2 == 1
  }

  function Finish(f: nat, complement: bool): (r: nat)
    requires f < U16
    ensures r < U16
  {
    if complement then ONES - f else f
  }

  // ---------------------------------------------------------------- folding

  /** One's complement closed form: folding is reduction modulo 65535 that keeps zero apart. */
  lemma {:induction false} FoldClosed(x: nat)
    ensures Fold(x) == if x == 0 then 0 else (x - 1) % ONES + 1
  {
    if x >= U16 {
      var h, l := x / U16, x % U16;
      FoldClosed(h + l);
      assert x - 1 == h * ONES + (h + l - 1);
      ModShift(h + l - 1, h);
    }
  }

  lemma ModShift(r: nat, h: nat)
    ensures (h * ONES + r) % ONES == r % ONES
  {
    var q, m := r / ONES, r % ONES;
    assert h * ONES + r == (h + q) * ONES + m;
  }

  /** Folding a partial sum first makes no difference. */
  lemma FoldAbsorb(x: nat, y: nat)
    ensures Fold(Fold(x) + y) == Fold(x + y)
  {
    FoldClosed(x);
    FoldClosed(Fold(x) + y);
    FoldClosed(x + y);
    if x > 0 {
      var q := (x - 1) / ONES;
      assert x + y - 1 == q * ONES + (Fold(x) + y - 1);
      ModShift(Fold(x) + y - 1, q);
    }
  }

  /** Adding the complement of a folded sum gives all ones. */
  lemma FoldComplement(x: nat)
    ensures Fold(x + (ONES - Fold(x))) == ONES
  {
    FoldClosed(x);
    FoldClosed(x + (ONES - Fold(x)));
    hide Fold;
    if x > 0 {
      var q := (x - 1) / ONES;
      assert x == q * ONES + Fold(x);
      assert x + (ONES - Fold(x)) - 1 == q * ONES + (ONES - 1);
      ModShift(ONES - 1, q);
    }
  }

  // ---------------------------------------------------------------- raw sums

  /** A sum over a concatenation continues at the parity the first part ends on. */
  lemma {:induction false} RawConcat(a: seq<Byte>, b: seq<Byte>, odd: bool)
    ensures Raw(a + b, odd) == Raw(a, odd) + Raw(b, odd != Odd(|a|))
  {
    if a == [] {
      assert a + b == b;
    } else {
      assert (a + b)[1..] == a[1..] + b;
      RawConcat(a[1..], b, !odd);
    }
  }

  /** No 32-bit overflow: each pair of bytes adds at most 65535. */
  lemma {:induction false} RawBound(b: seq<Byte>, odd: bool)
    ensures 2 * Raw(b, odd) <= ONES * |b| + 65025
  {
    if |b| >= 2 {
      assert Raw(b, odd) == b[0] * (if odd then 256 else 1) + (b[1] * (if odd then 1 else 256) + Raw(b[1..][1..], odd));
      RawBound(b[1..][1..], odd);
    } else if |b| == 1 {
      assert Raw(b[1..], !odd) == 0;
    }
  }

  // ---------------------------------------------------------------- the loop

  /** A 16-bit load on a little-endian host. */
  function Word(lo: Byte, hi: Byte): (w: nat)
    ensures w < U16
  {
    (lo as int) + 256 * (hi as int)
  }

  /** The adding part of checksum16. The sum never leaves 32 bits for a uint16_t length. */
  method AddBytes(offset: nat, buf: seq<Byte>, preSum: nat) returns (sum: nat)
    requires |buf| < U16 && preSum < U16 && (Odd(offset) ==> buf != [])
    ensures sum == preSum + Raw(buf, Odd(offset)) < U32
  {
    hide Raw;
    RawBound(buf, Odd(offset));
    sum := preSum;
    var k := 0;
    assert buf == buf[0..];
    if Odd(offset) {
      RawHead(buf, 0, true);
      sum, k := sum + Word(0, buf[0]), 1;
    }
    while |buf| - k > 1
      invariant 0 <= k <= |buf| && sum + Raw(buf[k..], false) == preSum + Raw(buf, Odd(offset)) < U32
    {
      RawHead(buf, k, false);
      RawHead(buf, k + 1, true);
      sum := sum + Word(buf[k], buf[k + 1]);
      k := k + 2;
    }
    if |buf| - k > 0 {
      RawHead(buf, k, false);
      sum := sum + buf[k];
      k := k + 1;
    }
    RawEmpty(false);
    RawEmpty(true);
    assert buf[k..] == [];
  }

  /** checksum16 */
  method Checksum16(offset: nat, buf: seq<Byte>, preSum: nat, complement: bool) returns (r: nat)
    requires |buf| < U16 && preSum < U16 && (Odd(offset) ==> buf != [])
    ensures r == Finish(Fold(preSum + Raw(buf, Odd(offset))), complement)
  {
    hide Raw;
    var sum: nat := AddBytes(offset, buf, preSum);
    ghost var full := sum;
    while sum / U16 != 0
      invariant Fold(sum) == Fold(full)
      decreases sum
    {
      sum := sum / U16 + sum % U16;
    }
    r := Finish(sum, complement);
  }

  lemma RawEmpty(odd: bool)
    ensures Raw([], odd) == 0
  {
  }

  lemma RawHead(b: seq<Byte>, k: nat, odd: bool)
    requires k < |b|
    ensures Raw(b[k..], odd) == b[k] * (if odd then 256 else 1) + Raw(b[k + 1..], !odd)
  {
    assert b[k..][1..] == b[k + 1..];
  }

  // ---------------------------------------------------------------- what it is for

  /** The checksum of a whole message. */
  function Sum16(preSum: nat, b: seq<Byte>): nat {
    Finish(Fold(preSum + Raw(b, false)), true)
  }

  lemma SumRange(preSum: nat, b: seq<Byte>)
    ensures Sum16(preSum, b) < U16
  {
  }

  /** A two-byte field at an even offset, stored as the host stores a uint16_t. */
  function SetField(b: seq<Byte>, k: nat, c: nat): (r: seq<Byte>)
    requires k + 1 < |b| && c < U16
    ensures |r| == |b|
  {
    b[k := c % 256][k + 1 := c / 256]
  }

  lemma FieldCounts(b: seq<Byte>, k: nat, c: nat)
    requires k + 1 < |b| && !Odd(k) && b[k] == 0 && b[k + 1] == 0 && c < U16
    ensures Raw(SetField(b, k, c), false) == Raw(b, false) + c
  {
    var b' := SetField(b, k, c);
    assert b == b[..k] + b[k..] && b' == b[..k] + b'[k..];
    RawConcat(b[..k], b[k..], false);
    RawConcat(b[..k], b'[k..], false);
    RawHead(b, k, false);
    RawHead(b, k + 1, true);
    RawHead(b', k, false);
    RawHead(b', k + 1, true);
    assert b'[k + 2..] == b[k + 2..];
  }

  /** Round trip: a checksum stored into a zeroed field at an even offset makes the receiver's
      sum over the same bytes zero, for every content, length and pre-sum. */
  lemma StoredChecksumVerifies(b: seq<Byte>, k: nat, preSum: nat)
    requires k + 1 < |b| && !Odd(k) && b[k] == 0 && b[k + 1] == 0
    ensures Sum16(preSum, SetField(b, k, Sum16(preSum, b))) == 0
  {
    var x := preSum + Raw(b, false);
    FieldCounts(b, k, Sum16(preSum, b));
    FoldComplement(x);
  }

  /** The TCP pseudo-header: addresses, zero, protocol, length in network order. */
  function Pseudo(src: seq<Byte>, dst: seq<Byte>, protocol: Byte, len: nat): (p: seq<Byte>)
    requires |src| == |dst| == 4
    ensures |p| == 12
  {
    src + dst + [0, protocol] + [len / 256 % 256, len % 256]
  }

  /** A 16-bit number in network order. */
  function Net(hi: Byte, lo: Byte): nat {
    256 * (hi as int) + (lo as int)
  }

  lemma {:induction false} NetPair(b: seq<Byte>)
    requires |b| >= 2
    ensures Raw(b, true) == Net(b[0], b[1]) + Raw(b[2..], true)
  {
    assert b == b[0..];
    RawHead(b, 0, true);
    RawHead(b, 1, false);
  }

  /** The sum over the pseudo-header, in network order, as RFC 793 section 3.1 lays it out: the
      words of both addresses, the protocol number and the length. */
  lemma PseudoSums(src: seq<Byte>, dst: seq<Byte>, protocol: Byte, len: nat)
    requires |src| == |dst| == 4 && len < U16
    ensures Raw(Pseudo(src, dst, protocol, len), true) ==
      Net(src[0], src[1]) + Net(src[2], src[3]) + Net(dst[0], dst[1]) + Net(dst[2], dst[3]) + protocol + len
  {
    hide Raw;
    var p := Pseudo(src, dst, protocol, len);
    NetPair(p);
    NetPair(p[2..]);
    NetPair(p[4..]);
    NetPair(p[6..]);
    NetPair(p[8..]);
    NetPair(p[10..]);
    assert p[2..][2..] == p[4..] && p[4..][2..] == p[6..] && p[6..][2..] == p[8..] && p[8..][2..] == p[10..];
    assert p[10..][2..] == [];
    RawEmpty(true);
  }

  /** The chained sum with a pseudo-header is the checksum of pseudo-header and segment together. */
  lemma PseudoIsPrefix(p: seq<Byte>, b: seq<Byte>)
    requires !Odd(|p|)
    ensures Sum16(Fold(Raw(p, false)), b) == Sum16(0, p + b)
  {
    hide Raw, Fold;
    RawConcat(p, b, false);
    FoldAbsorb(Raw(p, false), Raw(b, false));
  }

  /** No intact TCP segment is rejected: with the checksum stored into its zeroed field, the
      receiver's sum over the pseudo-header and the segment is zero. */
  lemma PseudoChecksumVerifies(src: seq<Byte>, dst: seq<Byte>, protocol: Byte, b: seq<Byte>, k: nat)
    requires |src| == |dst| == 4
    requires k + 1 < |b| && !Odd(k) && b[k] == 0 && b[k + 1] == 0
    ensures var head := Pseudo(src, dst, protocol, |b|); var sent := SetField(b, k, Sum16(0, head + b));
      |sent| == |b| && Sum16(0, head + sent) == 0
  {
    var head := Pseudo(src, dst, protocol, |b|);
    var pre := Fold(Raw(head, false));
    PseudoIsPrefix(head, b);
    PseudoIsPrefix(head, SetField(b, k, Sum16(pre, b)));
    StoredChecksumVerifies(b, k, pre);
  }

  // ---------------------------------------------------------------- byte order

  function Swap(x: nat): nat
    requires x < U16
  {
    x % 256 * 256 + x / 256
  }

  /** The bytes that count 256 times in Raw, added up. */
  function Highs(b: seq<Byte>, odd: bool): nat {
    if b == [] then 0 else (if odd then b[0] as int else 0) + Highs(b[1..], !odd)
  }

  lemma {:induction false} RawSwap(b: seq<Byte>, odd: bool)
    ensures Raw(b, !odd) + ONES * Highs(b, odd) == 256 * Raw(b, odd)
    ensures Raw(b, odd) == 0 <==> Raw(b, !odd) == 0
  {
    if b != [] {
      RawSwap(b[1..], !odd);
    }
  }

  lemma FoldSwap(x: nat, y: nat, h: nat)
    requires y + ONES * h == 256 * x && (x == 0 <==> y == 0)
    ensures Fold(y) == Swap(Fold(x))
  {
    FoldClosed(x);
    FoldClosed(y);
    hide Fold;
    if x > 0 {
      var q, f := (x - 1) / ONES, Fold(x);
      assert x == q * ONES + f;
      var m, s := 256 * q - h + f / 256, Swap(f);
      assert f == f / 256 * 256 + f % 256;
      assert s == 256 * f - ONES * (f / 256);
      assert y == ONES * m + s;
      ModShift(s - 1, m);
    }
  }

  /** RFC 1071, byte order independence: summing little-endian words and storing the result in
      the same order puts on the wire the bytes that the sum in network order would. */
  lemma NetworkOrder(b: seq<Byte>)
    ensures Fold(Raw(b, true)) == Swap(Fold(Raw(b, false)))
  {
    RawSwap(b, false);
    FoldSwap(Raw(b, false), Raw(b, true), Highs(b, false));
  }

  /** udp_in: a zero field means that there is no checksum to look at. */
  predicate UdpAccepts(b: seq<Byte>, k: nat, preSum: nat)
    requires k + 1 < |b|
  {
    Word(b[k], b[k + 1]) == 0 || Sum16(preSum, b) == 0
  }

  /** A field that was not zeroed first counts in the sum it receives. The receiver then accepts
      the message exactly when the stale value was zero, or all ones beside anything non-zero, or
      when the sum over it all came out as all ones, so that a zero was stored and is not looked
      at. */
  lemma StaleFieldAccepted(b: seq<Byte>, k: nat, preSum: nat)
    requires k + 1 < |b| && !Odd(k)
    ensures var stale := Word(b[k], b[k + 1]); var rest := preSum + Raw(SetField(b, k, 0), false);
      UdpAccepts(SetField(b, k, Sum16(preSum, b)), k, preSum) <==>
        stale == 0 || (stale == ONES && rest > 0) || Fold(rest + stale) == ONES
  {
    hide Raw, Fold, SetField, Word;
    var z, stale, c := SetField(b, k, 0), Word(b[k], b[k + 1]), Sum16(preSum, b);
    StaleFieldVerifies(b, k, preSum);
    Refill(b, k, c);
    FieldCounts(z, k, stale);
    FieldBack(b, k, c);
  }

  lemma FieldBack(b: seq<Byte>, k: nat, c: nat)
    requires k + 1 < |b| && c < U16
    ensures Word(SetField(b, k, c)[k], SetField(b, k, c)[k + 1]) == c
  {
  }

  /** Rejected, and accepted without a look at the sum: two messages with a stale one. */
  lemma StaleFieldCases(reject: seq<Byte>, unread: seq<Byte>)
    requires reject == [1, 0, 1, 0] && unread == [0xFE, 0xFF, 1, 0]
    ensures !UdpAccepts(SetField(reject, 2, Sum16(0, reject)), 2, 0)
    ensures Sum16(0, unread) == 0 && UdpAccepts(SetField(unread, 2, Sum16(0, unread)), 2, 0)
  {
    hide Raw, Fold, UdpAccepts;
    Words(1, 0, 0, 0);
    Words(0xFE, 0xFF, 0, 0);
    Words(0xFE, 0xFF, 1, 0);
    assert SetField(reject, 2, 0) == [1, 0, 0, 0] && SetField(unread, 2, 0) == [0xFE, 0xFF, 0, 0];
    FoldClosed(2);
    FoldClosed(ONES);
    StaleFieldAccepted(reject, 2, 0);
    StaleFieldAccepted(unread, 2, 0);
  }

  lemma Words(a: Byte, b: Byte, c: Byte, d: Byte)
    ensures Raw([a, b, c, d], false) == Word(a, b) + Word(c, d)
  {
    hide Raw;
    var m: seq<Byte> := [a, b, c, d];
    RawHead(m, 0, false);
    RawHead(m, 1, true);
    RawHead(m, 2, false);
    RawHead(m, 3, true);
    assert m[0..] == m && m[4..] == [];
    RawEmpty(false);
  }

  /** The sum over a message whose field was not zeroed first is zero exactly when the stale
      value was zero, or all ones beside anything non-zero. */
  lemma StaleFieldVerifies(b: seq<Byte>, k: nat, preSum: nat)
    requires k + 1 < |b| && !Odd(k)
    ensures var stale := Word(b[k], b[k + 1]); var rest := preSum + Raw(SetField(b, k, 0), false);
      Sum16(preSum, SetField(b, k, Sum16(preSum, b))) == 0 <==>
        stale == 0 || (stale == ONES && rest > 0)
  {
    hide Raw, Fold, SetField, Word;
    var z, stale, c := SetField(b, k, 0), Word(b[k], b[k + 1]), Sum16(preSum, b);
    Refill(b, k, c);
    FieldCounts(z, k, stale);
    FieldCounts(z, k, c);
    var x := preSum + Raw(z, false);
    FoldClosed(x + stale);
    FoldClosed(x + c);
    StaleArithmetic(x, stale, c);
  }

  lemma Refill(b: seq<Byte>, k: nat, c: nat)
    requires k + 1 < |b| && c < U16
    ensures var z := SetField(b, k, 0);
      && z[k] == 0 && z[k + 1] == 0
      && SetField(z, k, c) == SetField(b, k, c) && SetField(z, k, Word(b[k], b[k + 1])) == b
  {
  }

  lemma StaleArithmetic(x: nat, stale: nat, c: nat)
    requires stale < U16 && c == ONES - (if x + stale == 0 then 0 else (x + stale - 1) % ONES + 1)
    ensures (if x + c == 0 then 0 else (x + c - 1) % ONES + 1) == ONES <==>
      stale == 0 || (stale == ONES && x > 0)
  {
    if x + stale > 0 {
      var q := (x + stale - 1) / ONES;
      assert x + c == q * ONES + ONES - stale;
      if stale == 0 {
        ModShift(ONES - 1, q);
      } else if x + c > 0 && stale == ONES {
        ModShift(ONES - 1, q - 1);
      } else if x + c > 0 {
        ModShift(ONES - stale - 1, q);
      }
    }
  }
}
