/** The routing table: longest prefix match by the number of ones in the mask. Addresses are
    32-bit numbers in network order. */
module Routing {
  import opened Common

  const IP_RTABLE_SIZE := 32

  /** Bitwise and. */
  function And(a: nat, b: nat): nat {
    if a == 0 || b == 0 then 0 else (if a % 2 == 1 && b % 2 == 1 then 1 else 0) + 2 * And(a / 2, b / 2)
  }

  /** Number of one bits. */
  function Ones(a: nat): nat {
    if a == 0 then 0 else a % 2 + Ones(a / 2)
  }

  function Pow2(n: nat): (p: nat)
    ensures p > 0
  {
    if n == 0 then 1 else 2 * Pow2(n - 1)
  }

  /** Bit `i` of `a`. */
  predicate Bit(a: nat, i: nat) {
    a / Pow2(i) % 2 == 1
  }

  lemma HalfDiv(a: nat, p: nat)
    requires p > 0
    ensures a / (2 * p) == a / 2 / p
  {
    var q, r := a / 2 / p, a / 2 % p;
    assert a / 2 == q * p + r;
    assert a == q * (2 * p) + (2 * r + a % 2);
    DivUnique(a, 2 * p, q, 2 * r + a % 2);
  }

  lemma HalfBit(a: nat, i: nat)
    ensures Bit(a, i + 1) == Bit(a / 2, i)
  {
    HalfDiv(a, Pow2(i));
  }

  lemma {:induction false} ZeroBit(i: nat)
    ensures !Bit(0, i)
  {
  }

  /** The definition is bitwise: a bit of the result is set exactly when it is set in both. */
  lemma {:induction false} AndBits(a: nat, b: nat, i: nat)
    ensures Bit(And(a, b), i) <==> Bit(a, i) && Bit(b, i)
  {
    hide Bit;
    if a == 0 || b == 0 {
      ZeroBit(i);
    } else if i == 0 {
      LowBit(a);
      LowBit(b);
      LowBit(And(a, b));
    } else {
      AndBits(a / 2, b / 2, i - 1);
      HalfBit(a, i - 1);
      HalfBit(b, i - 1);
      HalfBit(And(a, b), i - 1);
      assert And(a, b) / 2 == And(a / 2, b / 2);
    }
  }

  lemma LowBit(a: nat)
    ensures Bit(a, 0) <==> a % 2 == 1
  {
  }

  /** The bits below `n`, added up. */
  function BitSum(a: nat, n: nat): nat {
    if n == 0 then 0 else BitSum(a, n - 1) + if Bit(a, n - 1) then 1 else 0
  }

  lemma {:induction false} BitSumHalf(a: nat, n: nat)
    ensures BitSum(a, n + 1) == a % 2 + BitSum(a / 2, n)
  {
    hide Bit;
    LowBit(a);
    if n > 0 {
      BitSumHalf(a, n - 1);
      HalfBit(a, n - 1);
    }
  }

  /** The count is the number of bits set. */
  lemma {:induction false} OnesCounts(a: nat, n: nat)
    requires a < Pow2(n)
    ensures Ones(a) == BitSum(a, n)
  {
    hide Bit;
    if n > 0 {
      BitSumHalf(a, n - 1);
      OnesCounts(a / 2, n - 1);
    }
  }

  /** ipaddr_1_cnt */
  method OneCnt(a: nat) returns (cnt: nat)
    ensures cnt == Ones(a)
  {
    cnt := 0;
    var addr := a;
    while addr != 0
      invariant cnt + Ones(addr) == Ones(a)
      decreases addr
    {
      if addr % 2 == 1 { cnt := cnt + 1; }
      addr := addr / 2;
    }
  }

  // ---------------------------------------------------------------- prefix masks

  function AllOnes(n: nat): nat {
    if n == 0 then 0 else 2 * AllOnes(n - 1) + 1
  }

  function ShiftLeft(x: nat, k: nat): nat
    decreases k
  {
    if k == 0 then x else 2 * ShiftLeft(x, k - 1)
  }

  /** The mask of a prefix of length `n`: `n` ones, then zeros. */
  function Mask(n: nat): nat
    requires n <= 32
  {
    ShiftLeft(AllOnes(n), 32 - n)
  }

  ghost predicate Contiguous(m: nat) {
    exists n :: 0 <= n <= 32 && m == Mask(n)
  }

  lemma {:induction false} OnesOfMask(n: nat)
    requires n <= 32
    ensures Ones(Mask(n)) == n
  {
    OnesOfAllOnes(n);
    OnesOfShift(AllOnes(n), 32 - n);
  }

  lemma {:induction false} OnesOfAllOnes(n: nat)
    ensures Ones(AllOnes(n)) == n
  {
    if n > 0 {
      OnesOfAllOnes(n - 1);
      assert AllOnes(n) % 2 == 1 && AllOnes(n) / 2 == AllOnes(n - 1);
    }
  }

  lemma {:induction false} OnesOfShift(x: nat, k: nat)
    ensures Ones(ShiftLeft(x, k)) == Ones(x)
    decreases k
  {
    if k > 0 {
      OnesOfShift(x, k - 1);
      var y := ShiftLeft(x, k - 1);
      assert (2 * y) % 2 == 0 && (2 * y) / 2 == y;
    }
  }

  lemma {:induction false} AndAllOnes(x: nat, n: nat)
    requires x < Pow2(n)
    ensures And(x, AllOnes(n)) == x
  {
    if n > 0 {
      AndAllOnes(x / 2, n - 1);
      assert AllOnes(n) / 2 == AllOnes(n - 1) && AllOnes(n) % 2 == 1;
    }
  }

  lemma AndDouble(x: nat, b: nat)
    ensures And(x, 2 * b) == 2 * And(x / 2, b)
  {
    assert (2 * b) / 2 == b && (2 * b) % 2 == 0;
    if x == 1 || b == 0 { assert And(x / 2, b) == 0; }
  }

  lemma DoubleMultiple(x: nat, p: nat)
    requires p > 0
    ensures 2 * (x / 2 / p * p) == x / (2 * p) * (2 * p)
  {
    HalfDiv(x, p);
    var q := x / 2 / p;
    assert 2 * (q * p) == q * (2 * p);
  }

  /** Masking with a prefix clears the low bits and keeps the others. */
  lemma {:induction false} AndShifted(x: nat, n: nat, k: nat)
    requires x < Pow2(n + k)
    ensures And(x, ShiftLeft(AllOnes(n), k)) == x / Pow2(k) * Pow2(k)
    decreases k
  {
    hide And, AllOnes;
    if k == 0 {
      AndAllOnes(x, n);
    } else {
      AndDouble(x, ShiftLeft(AllOnes(n), k - 1));
      assert x / 2 < Pow2(n + (k - 1));
      AndShifted(x / 2, n, k - 1);
      DoubleMultiple(x, Pow2(k - 1));
    }
  }

  lemma AndMask(ip: nat, n: nat)
    requires n <= 32 && ip < Pow2(32)
    ensures And(ip, Mask(n)) == ip / Pow2(32 - n) * Pow2(32 - n)
  {
    AndShifted(ip, n, 32 - n);
  }

  // ---------------------------------------------------------------- the table

  datatype Route = Route(net: nat, mask: nat, maskOnes: nat, nextHop: nat, netif: nat)

  predicate Matches(e: Route, ip: nat) {
    And(ip, e.mask) == e.net
  }

  /** `e` is in the table, matches, and no match has more mask bits. */
  predicate IsBest(list: seq<Route>, ip: nat, e: Route) {
    && e in list && Matches(e, ip)
    && forall i :: 0 <= i < |list| && Matches(list[i], ip) ==> Ones(list[i].mask) <= Ones(e.mask)
  }

  /** Entry `i` matches with more mask bits than every match before it. */
  predicate IsFirstBest(list: seq<Route>, ip: nat, i: nat)
    requires i < |list|
  {
    Matches(list[i], ip) && forall j :: 0 <= j < i && Matches(list[j], ip) ==> Ones(list[j].mask) < Ones(list[i].mask)
  }

  /** What rt_find answers: later entries win only with more mask bits. */
  function Found(list: seq<Route>, ip: nat): Option<Route> {
    if list == [] then None
    else
      var n := |list| - 1;
      var r := Found(list[..n], ip);
      if Matches(list[n], ip) && (r.None? || Ones(r.value.mask) < Ones(list[n].mask)) then Some(list[n]) else r
  }

  /** The answer is nothing exactly when nothing matches, and else a best match. */
  lemma {:induction false} FoundIsBest(list: seq<Route>, ip: nat)
    ensures Found(list, ip).None? <==> forall i :: 0 <= i < |list| ==> !Matches(list[i], ip)
    ensures Found(list, ip).Some? ==> IsBest(list, ip, Found(list, ip).value)
  {
    hide Matches, Ones;
    if list != [] {
      var n := |list| - 1;
      FoundIsBest(list[..n], ip);
      assert list == list[..n] + [list[n]];
      if Found(list[..n], ip).Some? { assert Matches(Found(list[..n], ip).value, ip); }
    }
  }

  /** The first `n` of 32 bits agree, and the network has no other. */
  predicate SharesPrefix(net: nat, n: nat, ip: nat)
    requires n <= 32
  {
    net % Pow2(32 - n) == 0 && ip / Pow2(32 - n) == net / Pow2(32 - n)
  }

  lemma MatchesPrefix(e: Route, n: nat, ip: nat)
    requires n <= 32 && e.mask == Mask(n) && ip < Pow2(32)
    ensures Matches(e, ip) <==> SharesPrefix(e.net, n, ip)
  {
    hide And, Mask, Pow2;
    AndMask(ip, n);
    var p := Pow2(32 - n);
    var q := ip / p;
    assert e.net == e.net / p * p + e.net % p;
    if e.net == q * p { DivUnique(e.net, p, q, 0); }
  }

  /** The masks of the table are prefixes of these lengths. */
  predicate Prefixes(list: seq<Route>, lens: seq<nat>) {
    |lens| == |list| && forall i :: 0 <= i < |list| ==> lens[i] <= 32 && list[i].mask == Mask(lens[i])
  }

  /** Longest prefix match, told by division: nothing is found exactly when no network shares its
      prefix with the address, and otherwise one is found that does and whose prefix is longest. */
  lemma LongestPrefix(list: seq<Route>, lens: seq<nat>, ip: nat)
    requires Prefixes(list, lens) && ip < Pow2(32)
    ensures Found(list, ip).None? <==> forall i :: 0 <= i < |list| ==> !SharesPrefix(list[i].net, lens[i], ip)
    ensures Found(list, ip).Some? ==>
      exists k :: 0 <= k < |list| && Found(list, ip).value == list[k] && IsLongest(list, lens, ip, k)
  {
    hide Matches, SharesPrefix, Found, Mask, Pow2, Ones;
    FoundIsBest(list, ip);
    forall i | 0 <= i < |list| ensures Matches(list[i], ip) <==> SharesPrefix(list[i].net, lens[i], ip) {
      MatchesPrefix(list[i], lens[i], ip);
    }
    forall i | 0 <= i < |list| ensures Ones(list[i].mask) == lens[i] { OnesOfMask(lens[i]); }
    if Found(list, ip).Some? {
      var k :| 0 <= k < |list| && list[k] == Found(list, ip).value;
      assert IsLongest(list, lens, ip, k);
    }
  }

  predicate IsLongest(list: seq<Route>, lens: seq<nat>, ip: nat, k: nat)
    requires Prefixes(list, lens) && k < |list|
  {
    && SharesPrefix(list[k].net, lens[k], ip)
    && forall i :: 0 <= i < |list| && SharesPrefix(list[i].net, lens[i], ip) ==> lens[i] <= lens[k]
  }

  class RouteTable {
    var list: seq<Route>

    predicate Valid()
      reads this
    {
      |list| <= IP_RTABLE_SIZE && forall i :: 0 <= i < |list| ==> list[i].maskOnes == Ones(list[i].mask)
    }

    constructor ()
      ensures Valid() && list == []
    {
      list := [];
    }

    /** rt_add: a full table takes no more. */
    method Add(net: nat, mask: nat, nextHop: nat, netif: nat)
      requires Valid()
      modifies this
      ensures Valid()
      ensures list ==
        if |old(list)| < IP_RTABLE_SIZE then old(list) + [Route(net, mask, Ones(mask), nextHop, netif)] else old(list)
    {
      if |list| < IP_RTABLE_SIZE {
        var ones := OneCnt(mask);
        list := list + [Route(net, mask, ones, nextHop, netif)];
      }
    }

    /** rt_find: nothing exactly when nothing matches, otherwise the first best match. */
    method Find(ip: nat) returns (r: Option<Route>)
      requires Valid()
      ensures r == Found(list, ip)
      ensures r.None? <==> forall i :: 0 <= i < |list| ==> !Matches(list[i], ip)
      ensures r.Some? ==> IsBest(list, ip, r.value)
      ensures r.Some? ==> exists i :: 0 <= i < |list| && IsFirstBest(list, ip, i) && r.value == list[i]
    {
      r := None;
      var i := 0;
      ghost var at := 0;
      while i < |list|
        invariant i <= |list| && r == Found(list[..i], ip)
        invariant r.None? ==> forall j :: 0 <= j < i ==> !Matches(list[j], ip)
        invariant r.Some? ==> at < i && r.value == list[at] && Matches(r.value, ip)
        invariant r.Some? ==> forall j :: 0 <= j < i && Matches(list[j], ip) ==>
          Ones(list[j].mask) <= Ones(r.value.mask)
        invariant r.Some? ==> forall j :: 0 <= j < at && Matches(list[j], ip) ==>
          Ones(list[j].mask) < Ones(r.value.mask)
      {
        assert list[..i + 1][..i] == list[..i];
        if Matches(list[i], ip) {
          if r.None? || r.value.maskOnes < list[i].maskOnes {
            r := Some(list[i]);
            at := i;
          }
        }
        i := i + 1;
      }
      assert r.Some? ==> IsFirstBest(list, ip, at);
      assert list[..i] == list;
    }
  }

  // ---------------------------------------------------------------- what the answer depends on

  /** With contiguous masks two best matches are the same route up to next hop and interface. */
  lemma BestMatchUnique(ip: nat, e: Route, f: Route)
    requires Matches(e, ip) && Matches(f, ip) && Contiguous(e.mask) && Contiguous(f.mask)
    requires Ones(e.mask) == Ones(f.mask)
    ensures e.mask == f.mask && e.net == f.net
  {
    var n :| 0 <= n <= 32 && e.mask == Mask(n);
    var m :| 0 <= m <= 32 && f.mask == Mask(m);
    OnesOfMask(n);
    OnesOfMask(m);
  }

  /** The order in which routes were added does not matter: tables with the same routes give
      the same net and mask. */
  lemma OrderIrrelevant(a: seq<Route>, b: seq<Route>, ip: nat, e: Route, f: Route)
    requires multiset(a) == multiset(b)
    requires forall i :: 0 <= i < |a| ==> Contiguous(a[i].mask)
    requires IsBest(a, ip, e) && IsBest(b, ip, f)
    ensures e.net == f.net && e.mask == f.mask
  {
    assert e in multiset(a) && f in multiset(b);
    assert f in multiset(a) && e in multiset(b);
    var i :| 0 <= i < |a| && a[i] == f;
    var j :| 0 <= j < |b| && b[j] == e;
    BestMatchUnique(ip, e, f);
  }

  /** A route that matches at all is found whatever the order. */
  lemma SomeMatchEitherWay(a: seq<Route>, b: seq<Route>, ip: nat)
    requires multiset(a) == multiset(b)
    ensures (exists i :: 0 <= i < |a| && Matches(a[i], ip)) <==> (exists i :: 0 <= i < |b| && Matches(b[i], ip))
  {
    MatchCarries(a, b, ip);
    MatchCarries(b, a, ip);
  }

  lemma MatchCarries(a: seq<Route>, b: seq<Route>, ip: nat)
    requires multiset(a) == multiset(b)
    ensures (exists i :: 0 <= i < |a| && Matches(a[i], ip)) ==> (exists i :: 0 <= i < |b| && Matches(b[i], ip))
  {
    if i :| 0 <= i < |a| && Matches(a[i], ip) {
      assert a[i] in multiset(a);
      var j :| 0 <= j < |b| && b[j] == a[i];
      assert Matches(b[j], ip);
    }
  }

  predicate SameRoute(e: Route, f: Route) {
    e.net == f.net && e.mask == f.mask
  }

  /** Two orders of the routes of `a` that give answers with different net or mask. */
  ghost predicate OrderMatters(a: seq<Route>, ip: nat) {
    exists b, c :: multiset(b) == multiset(a) && multiset(c) == multiset(a) && AnswersDiffer(b, c, ip)
  }

  predicate AnswersDiffer(b: seq<Route>, c: seq<Route>, ip: nat) {
    Found(b, ip).Some? && Found(c, ip).Some? && !SameRoute(Found(b, ip).value, Found(c, ip).value)
  }

  /** Two matches with most mask bits that name different networks. */
  predicate Tie(a: seq<Route>, ip: nat) {
    exists i, j :: 0 <= i < |a| && 0 <= j < |a| && IsBest(a, ip, a[i]) && IsBest(a, ip, a[j]) && !SameRoute(a[i], a[j])
  }

  /** A best match at the head of the list is the answer. */
  lemma {:induction false} HeadWins(list: seq<Route>, ip: nat)
    requires list != [] && IsBest(list, ip, list[0])
    ensures Found(list, ip) == Some(list[0])
  {
    hide Ones, Matches;
    var n := |list| - 1;
    if n > 0 {
      assert IsBest(list[..n], ip, list[0]);
      HeadWins(list[..n], ip);
    } else {
      assert list[..0] == [];
    }
  }

  lemma BestCarries(a: seq<Route>, b: seq<Route>, ip: nat, e: Route)
    requires multiset(a) == multiset(b) && IsBest(a, ip, e)
    ensures IsBest(b, ip, e)
  {
    hide Ones, Matches;
    assert e in multiset(a);
    forall i | 0 <= i < |b| && Matches(b[i], ip) ensures Ones(b[i].mask) <= Ones(e.mask) {
      assert b[i] in multiset(a);
      var j :| 0 <= j < |a| && a[j] == b[i];
    }
  }

  /** The order with entry `i` first. */
  lemma FirstPlace(a: seq<Route>, i: nat, ip: nat) returns (b: seq<Route>)
    requires i < |a| && IsBest(a, ip, a[i])
    ensures multiset(b) == multiset(a) && Found(b, ip) == Some(a[i])
  {
    b := [a[i]] + a[..i] + a[i + 1..];
    assert a == a[..i] + [a[i]] + a[i + 1..];
    BestCarries(a, b, ip, a[i]);
    HeadWins(b, ip);
  }

  /** The order in which routes were added matters exactly when two best matches tie. */
  lemma OrderMattersExactly(a: seq<Route>, ip: nat)
    ensures OrderMatters(a, ip) <==> Tie(a, ip)
  {
    hide IsBest, Found, Matches;
    if Tie(a, ip) {
      var i, j :| 0 <= i < |a| && 0 <= j < |a| && IsBest(a, ip, a[i]) && IsBest(a, ip, a[j]) && !SameRoute(a[i], a[j]);
      var b := FirstPlace(a, i, ip);
      var c := FirstPlace(a, j, ip);
      assert AnswersDiffer(b, c, ip);
    }
    if OrderMatters(a, ip) {
      var b, c :| multiset(b) == multiset(a) && multiset(c) == multiset(a) && AnswersDiffer(b, c, ip);
      var i := BestPlace(a, b, ip);
      var j := BestPlace(a, c, ip);
    }
  }

  lemma BestPlace(a: seq<Route>, b: seq<Route>, ip: nat) returns (i: nat)
    requires multiset(b) == multiset(a) && Found(b, ip).Some?
    ensures i < |a| && IsBest(a, ip, a[i]) && a[i] == Found(b, ip).value
  {
    hide Found, Matches, Ones;
    FoundIsBest(b, ip);
    var e := Found(b, ip).value;
    BestCarries(b, a, ip, e);
    i :| 0 <= i < |a| && a[i] == e;
  }

  /** Contiguous masks never tie. */
  lemma NoTie(a: seq<Route>, ip: nat)
    requires forall i :: 0 <= i < |a| ==> Contiguous(a[i].mask)
    ensures !Tie(a, ip) && !OrderMatters(a, ip)
  {
    hide Ones, Matches, Contiguous;
    if i, j :| 0 <= i < |a| && 0 <= j < |a| && IsBest(a, ip, a[i]) && IsBest(a, ip, a[j]) && !SameRoute(a[i], a[j]) {
      BestMatchUnique(ip, a[i], a[j]);
    }
    OrderMattersExactly(a, ip);
  }

  lemma OneBitMasks(m: nat)
    requires m == 1 || m == 2
    ensures And(3, m) == m && Ones(m) == 1
  {
    assert And(3, 1) == 1 && And(3, 2) == 2 && Ones(1) == 1 && Ones(2) == 1;
  }

  /** Two masks of one bit each, added one after the other: both match address 3. */
  method AskFor3(m: nat, n: nat) returns (r: Option<Route>)
    requires (m == 1 && n == 2) || (m == 2 && n == 1)
    ensures r == Some(Route(m, m, 1, 0, 0))
  {
    hide And, Ones, Found;
    OneBitMasks(m);
    OneBitMasks(n);
    var t := new RouteTable();
    t.Add(m, m, 0, 0);
    t.Add(n, n, 0, 0);
    assert t.list == [Route(m, m, 1, 0, 0), Route(n, n, 1, 0, 0)];
    assert IsBest(t.list, 3, t.list[0]);
    HeadWins(t.list, 3);
    r := t.Find(3);
  }

  /** Without contiguous masks, whichever of the two was added first answers. */
  method OrderMattersOtherwise() returns (r: Option<Route>, s: Option<Route>)
    ensures r.Some? && s.Some? && r.value.net == 1 && s.value.net == 2
  {
    r := AskFor3(1, 2);
    s := AskFor3(2, 1);
  }
}
