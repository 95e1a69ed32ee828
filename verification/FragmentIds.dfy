/** Packet ids over a sequence of calls to ip_frag_out. A call that fails half way does not advance
    the id, so the next packet goes out under the key of the fragments already sent. What the
    receiver hands up then is a mixture, and it is the packet sent exactly under a condition on the
    bytes sent before. Fragments arrive in the order sent. */
module FragmentIds {
  import opened Common
  import opened Fragments

  const IDS := 0x1_0000

  /** A payload, and how many fragments get through before a failure. A packet sent whole between
      two calls takes an id and sends no fragment, as a call with nothing to cut does. */
  datatype Call = Call(payload: seq<Byte>, budget: nat)

  predicate Sendable(c: Call, mtu: nat)
    requires HDR + 8 <= mtu
  {
    |c.payload| <= 0xFFFF && FragCount(|c.payload|, mtu) <= IP_FRAG_MAX_BUF_NR
  }

  predicate AllSendable(cs: seq<Call>, mtu: nat)
    requires HDR + 8 <= mtu
  {
    forall i :: 0 <= i < |cs| ==> Sendable(cs[i], mtu)
  }

  predicate Succeeds(c: Call, mtu: nat)
    requires HDR + 8 <= mtu
  {
    FragCount(|c.payload|, mtu) <= c.budget
  }

  /** The fragments one call sends. */
  function SentIn(c: Call, mtu: nat, key: Key): seq<Frag>
    requires HDR + 8 <= mtu
  {
    var fs := Pieces(c.payload, mtu, key, 0);
    fs[..Min(|fs|, c.budget)]
  }

  /** How many calls have succeeded, and the id after so many. */
  function Oks(cs: seq<Call>, mtu: nat): (n: nat)
    requires HDR + 8 <= mtu
    ensures n <= |cs|
  {
    if cs == [] then 0 else Oks(cs[..|cs| - 1], mtu) + if Succeeds(cs[|cs| - 1], mtu) then 1 else 0
  }

  function KeyAt(src: nat, id: nat, n: nat): Key {
    Key(src, (id + n) % IDS)
  }

  /** All fragments sent by a sequence of calls that starts with `id`. */
  function SentAll(src: nat, id: nat, cs: seq<Call>, mtu: nat): seq<Frag>
    requires HDR + 8 <= mtu
  {
    if cs == [] then []
    else
      var n := |cs| - 1;
      SentAll(src, id, cs[..n], mtu) + SentIn(cs[n], mtu, KeyAt(src, id, Oks(cs[..n], mtu)))
  }

  /** What of the calls that failed since the last success stays with the receiver: the first
      fragment sent at each place. */
  function Stale(cs: seq<Call>, mtu: nat, key: Key): seq<Frag>
    requires HDR + 8 <= mtu
  {
    if cs == [] || Succeeds(cs[|cs| - 1], mtu) then []
    else Extend(Stale(cs[..|cs| - 1], mtu, key), SentIn(cs[|cs| - 1], mtu, key))
  }

  function Extend(h: seq<Frag>, p: seq<Frag>): seq<Frag> {
    if |p| <= |h| then h else h + p[|h|..]
  }

  // ---------------------------------------------------------------- full pieces

  /** A run of full pieces from the first place on, none of them the last of a packet. */
  ghost predicate Grid(h: seq<Frag>, mtu: nat, key: Key)
    requires HDR + 8 <= mtu
  {
    && CutsSoFar(h, Cat(h), key) && |Cat(h)| <= 0xFFFF && |h| < IP_FRAG_MAX_BUF_NR
    && forall i :: 0 <= i < |h| ==> |h[i].data| == Unit(mtu)
  }

  lemma {:induction false} SameLength(a: seq<Frag>, b: seq<Frag>)
    requires |a| == |b| && forall i :: 0 <= i < |a| ==> |a[i].data| == |b[i].data|
    ensures |Cat(a)| == |Cat(b)|
  {
    if a != [] { SameLength(a[1..], b[1..]); }
  }

  lemma CatPrefix(fs: seq<Frag>, n: nat)
    requires n <= |fs|
    ensures Cat(fs) == Cat(fs[..n]) + Cat(fs[n..])
  {
    assert fs == fs[..n] + fs[n..];
    CatConcat(fs[..n], fs[n..]);
  }

  /** The first pieces of a packet, without its last one, form a grid. */
  lemma PrefixGrid(payload: seq<Byte>, mtu: nat, key: Key, k: nat)
    requires HDR + 8 <= mtu && |payload| <= 0xFFFF
    requires k < |Pieces(payload, mtu, key, 0)| <= IP_FRAG_MAX_BUF_NR
    ensures Grid(Pieces(payload, mtu, key, 0)[..k], mtu, key)
  {
    hide Pieces, Cat, Unit;
    var fs := Pieces(payload, mtu, key, 0);
    var h := fs[..k];
    AllPieces(payload, mtu, key);
    PiecesFull(payload, mtu, key, 0);
    CatPrefix(fs, k);
    forall i | 0 <= i < k ensures h[..i] == fs[..i] {
    }
  }

  /** Grids of one MTU agree in shape: a longer one continues a shorter one. */
  lemma GridExtend(h: seq<Frag>, p: seq<Frag>, mtu: nat, key: Key)
    requires HDR + 8 <= mtu && Grid(h, mtu, key) && Grid(p, mtu, key)
    ensures Grid(Extend(h, p), mtu, key)
  {
    hide Cat, Unit;
    if |p| > |h| {
      var e := Extend(h, p);
      SameLength(e, p);
      forall i | 0 <= i < |e|
        ensures e[i].offset * 8 == |Cat(e[..i])| && e[i].offset < 0x2000 && e[i].key == key && e[i].more
      {
        SameLength(e[..i], p[..i]);
        if i < |h| { assert e[..i] == h[..i]; } else { assert e[i] == p[i]; }
      }
    }
  }

  /** A grid shorter than a packet fills its first places. */
  lemma GridShapes(h: seq<Frag>, payload: seq<Byte>, mtu: nat, key: Key)
    requires HDR + 8 <= mtu && |payload| <= 0xFFFF && Grid(h, mtu, key) && |h| < |Pieces(payload, mtu, key, 0)|
    ensures var fs := Pieces(payload, mtu, key, 0); Shapes(h + fs[|h|..], fs)
  {
    hide Pieces, Cat, Unit;
    var fs := Pieces(payload, mtu, key, 0);
    AllPieces(payload, mtu, key);
    PiecesFull(payload, mtu, key, 0);
    forall i | 0 <= i < |h| ensures SameShape(h[i], fs[i]) {
      SameLength(h[..i], fs[..i]);
    }
  }

  // ---------------------------------------------------------------- pieces arrive in order

  /** The places before `n`. */
  function Below(n: nat): (s: set<nat>)
    ensures forall i :: i in s <==> 0 <= i < n
  {
    if n == 0 then {} else Below(n - 1) + {n - 1}
  }

  lemma {:induction false} PickBelow(fs: seq<Frag>, n: nat, lo: nat)
    requires lo <= n <= |fs|
    ensures Pick(fs, Below(n), lo) == fs[lo..n]
    decreases |fs| - lo
  {
    if lo < n { PickBelow(fs, n, lo + 1); } else { PickRest(fs, n, lo); }
  }

  lemma {:induction false} PickRest(fs: seq<Frag>, n: nat, lo: nat)
    requires n <= lo
    ensures Pick(fs, Below(n), lo) == []
    decreases |fs| - lo
  {
    if lo < |fs| { PickRest(fs, n, lo + 1); }
  }

  function Opt(h: seq<Frag>): Option<seq<Frag>> {
    if h == [] then None else Some(h)
  }

  /** The receiver holds exactly `h` under this key. */
  predicate HoldsRun(t: seq<Entry>, key: Key, h: seq<Frag>) {
    TableOk(t) && Lookup(t, key) == Opt(h) && (h != [] ==> Before(t, key) == {})
  }

  lemma RunTracks(t: seq<Entry>, fs: seq<Frag>, key: Key, held: seq<Frag>, n: nat)
    requires Shapes(held, fs) && n < |fs|
    ensures HoldsRun(t, key, held[..n]) <==> Tracks(t, fs, key, Watch(Below(n), {}, held))
  {
    hide TableOk, Lookup, Before, Pick;
    PickBelow(held, n, 0);
    assert held[0..n] == held[..n];
    assert n !in Below(n);
    if n > 0 { assert 0 in Below(n); }
  }

  lemma PlaceOf(fs: seq<Frag>, payload: seq<Byte>, key: Key, i: nat)
    requires Cuts(fs, payload, key) && |payload| <= 0xFFFF && i < |fs|
    ensures HasPlace(fs, fs[i]) && Place(fs, fs[i]) == i
  {
    hide Cuts, Cat, Place, Start, End;
    OwnPlaceOnly(fs, payload, key, fs[i]);
    var k := Place(fs, fs[i]);
    if i < k { StartsGrow(fs, payload, key, i, k); } else if k < i { StartsGrow(fs, payload, key, k, i); }
  }

  /** The places filled by the first `i` pieces on top of the `n` already there. */
  lemma {:induction false} InOrder(t: seq<Entry>, fs: seq<Frag>, payload: seq<Byte>, key: Key, held: seq<Frag>,
                                   n: nat, i: nat)
    requires Cuts(fs, payload, key) && |payload| <= 0xFFFF && Shapes(held, fs) && n < |fs| && i < |fs|
    requires forall j :: n <= j < |fs| ==> held[j] == fs[j]
    ensures SeeAll(fs, key, Watch(Below(n), {}, held), t, fs[..i]) == Watch(Below(Max(n, i)), {}, held)
  {
    hide Cuts, Cat, Place, HasPlace, GivenUp, TableAfter, Shapes;
    if i > 0 {
      var k := i - 1;
      InOrder(t, fs, payload, key, held, n, k);
      assert fs[..i][..k] == fs[..k] && fs[..i][k] == fs[k];
      KeyOf(fs, payload, key, k);
      PlaceOf(fs, payload, key, k);
      HeldSize(held, fs);
      var m := Max(n, k);
      assert Below(m) + {k} == Below(Max(n, i));
      assert i !in Below(Max(n, i)) || (n > i && n !in Below(n));
      assert k !in Below(m) ==> held[k := fs[k]] == held;
    }
  }

  lemma HeldSize(held: seq<Frag>, fs: seq<Frag>)
    requires Shapes(held, fs)
    ensures |held| == |fs|
  {
  }

  lemma OwnAll(fs: seq<Frag>, n: nat, key: Key)
    requires n <= |fs|
    ensures OwnShapes(fs[..n], fs, key)
  {
    forall j | 0 <= j < n ensures HasPlace(fs, fs[..n][j]) {
      InHasPlace(fs, fs[j]);
    }
  }

  /** Fewer places are filled than the new packet has: its pieces fill the rest, and the last one
      brings out the old bytes followed by the new ones. */
  lemma FillsUp(t: seq<Entry>, payload: seq<Byte>, mtu: nat, key: Key, h: seq<Frag>, i: nat)
    requires HDR + 8 <= mtu && |payload| <= 0xFFFF && Grid(h, mtu, key) && HoldsRun(t, key, h)
    requires |h| < |Pieces(payload, mtu, key, 0)| <= IP_FRAG_MAX_BUF_NR && i < |Pieces(payload, mtu, key, 0)|
    ensures var fs := Pieces(payload, mtu, key, 0);
      && HoldsRun(TableAfter(t, fs[..i]), key, Extend(h, fs[..i]))
      && var reply := FragIn(TableAfter(t, fs[..i]), fs[i]).reply;
         if i == |fs| - 1 then reply == Complete(Cat(h + fs[|h|..])) else !reply.Complete?
  {
    hide Cuts, Cat, Pieces, Grid, HoldsRun, FragIn, Tracks, TableAfter, SeeAll, Place, HasPlace, Shapes;
    var fs := Pieces(payload, mtu, key, 0);
    var held, n := h + fs[|h|..], |h|;
    AllPieces(payload, mtu, key);
    GridShapes(h, payload, mtu, key);
    assert held[..n] == h;
    RunTracks(t, fs, key, held, n);
    InOrder(t, fs, payload, key, held, n, i);
    OwnAll(fs, i, key);
    var w := Watch(Below(n), {}, held);
    Watched(t, fs[..i], fs, payload, key, w);
    var m := Max(n, i);
    RunTracks(TableAfter(t, fs[..i]), fs, key, held, m);
    assert held[..m] == Extend(h, fs[..i]);
    PlaceOf(fs, payload, key, i);
    KeyOf(fs, payload, key, i);
    Arrival(TableAfter(t, fs[..i]), fs[i], fs, payload, key, Watch(Below(m), {}, held));
    WholeBelow(fs, m, i);
    assert held[i := fs[i]] == held || i < n;
  }

  lemma WholeBelow(fs: seq<Frag>, m: nat, i: nat)
    requires i <= m < |fs| && i < |fs|
    ensures Whole(fs, Below(m) + {i}) <==> i == m == |fs| - 1
  {
    if i < m || m < |fs| - 1 { assert (if i < m then m else m + 1) !in Below(m) + {i}; }
  }

  // ---------------------------------------------------------------- more is filled than the packet has

  lemma GridStarts(h: seq<Frag>, mtu: nat, key: Key, i: nat)
    requires HDR + 8 <= mtu && Grid(h, mtu, key) && i < |h|
    ensures Start(h[i]) == |Cat(h[..i])| && forall j :: 0 <= j < i ==> Start(h[j]) <= Start(h[i])
  {
    hide Cat, Unit;
    CatPrefix(h, i);
    forall j | 0 <= j < i ensures Start(h[j]) <= Start(h[i]) {
      CatPrefix(h[..i], j);
      assert h[..i][..j] == h[..j];
    }
  }

  /** One piece of a packet that has no more places than are filled already. */
  lemma Refused(t: seq<Entry>, payload: seq<Byte>, mtu: nat, key: Key, h: seq<Frag>, i: nat)
    requires HDR + 8 <= mtu && |payload| <= 0xFFFF && Grid(h, mtu, key) && HoldsRun(t, key, h)
    requires i < |Pieces(payload, mtu, key, 0)| <= |h|
    ensures var r := FragIn(t, Pieces(payload, mtu, key, 0)[i]);
      HoldsRun(r.table, key, h) && !r.reply.Complete?
  {
    hide Cuts, Cat, Pieces, Unit, Insert, Front, Index, ArrivedFrom, Start, End;
    var fs := Pieces(payload, mtu, key, 0);
    AllPieces(payload, mtu, key);
    PiecesFull(payload, mtu, key, 0);
    Starts(fs, payload, key, i);
    SameLength(h[..i], fs[..i]);
    GridStarts(h, mtu, key, i);
    KeyOf(fs, payload, key, i);
    NonEmpty(fs, payload, key, i);
    InsertDup(h, fs[i], i);
    FrontOk(t, key);
  }

  lemma NonEmpty(fs: seq<Frag>, payload: seq<Byte>, key: Key, i: nat)
    requires Cuts(fs, payload, key) && i < |fs|
    ensures |fs[i].data| > 0
  {
  }

  lemma {:induction false} RefusesAll(t: seq<Entry>, payload: seq<Byte>, mtu: nat, key: Key, h: seq<Frag>, i: nat)
    requires HDR + 8 <= mtu && |payload| <= 0xFFFF && Grid(h, mtu, key) && HoldsRun(t, key, h)
    requires i <= |Pieces(payload, mtu, key, 0)| <= |h|
    ensures HoldsRun(TableAfter(t, Pieces(payload, mtu, key, 0)[..i]), key, h)
  {
    hide Pieces, Grid, HoldsRun, FragIn;
    var fs := Pieces(payload, mtu, key, 0);
    if i > 0 {
      RefusesAll(t, payload, mtu, key, h, i - 1);
      assert fs[..i][..i - 1] == fs[..i - 1];
      Refused(TableAfter(t, fs[..i - 1]), payload, mtu, key, h, i - 1);
    }
  }

  // ---------------------------------------------------------------- one call

  /** What the receiver answers to the pieces of a packet on top of `h`: nothing before the last
      one, and with it the mixture, unless as many places were filled before. */
  lemma CallReplies(t: seq<Entry>, payload: seq<Byte>, mtu: nat, key: Key, h: seq<Frag>, i: nat)
    requires HDR + 8 <= mtu && |payload| <= 0xFFFF && Grid(h, mtu, key) && HoldsRun(t, key, h)
    requires i < |Pieces(payload, mtu, key, 0)| <= IP_FRAG_MAX_BUF_NR
    ensures var fs := Pieces(payload, mtu, key, 0); var reply := Replies(t, fs)[i];
      if i == |fs| - 1 && |h| < |fs| then reply == Complete(Cat(h + fs[|h|..])) else !reply.Complete?
  {
    hide Pieces, Grid, HoldsRun, FragIn, TableAfter, Replies, Cat;
    var fs := Pieces(payload, mtu, key, 0);
    ReplyAt(t, fs, i);
    if |h| < |fs| {
      FillsUp(t, payload, mtu, key, h, i);
    } else {
      RefusesAll(t, payload, mtu, key, h, i);
      Refused(TableAfter(t, fs[..i]), payload, mtu, key, h, i);
    }
  }

  /** A call that fails leaves its pieces where nothing was before. */
  lemma FailedCall(t: seq<Entry>, c: Call, mtu: nat, key: Key, h: seq<Frag>)
    requires HDR + 8 <= mtu && Sendable(c, mtu) && !Succeeds(c, mtu) && Grid(h, mtu, key) && HoldsRun(t, key, h)
    ensures var p := SentIn(c, mtu, key);
      HoldsRun(TableAfter(t, p), key, Extend(h, p)) && Grid(Extend(h, p), mtu, key)
  {
    hide Pieces, Grid, HoldsRun, FragCount, TableAfter;
    var fs := Pieces(c.payload, mtu, key, 0);
    PiecesCount(c.payload, mtu, key, 0);
    var p := fs[..c.budget];
    PrefixGrid(c.payload, mtu, key, c.budget);
    GridExtend(h, p, mtu, key);
    if |h| < |fs| {
      FillsUp(t, c.payload, mtu, key, h, c.budget);
    } else {
      RefusesAll(t, c.payload, mtu, key, h, c.budget);
    }
  }

  // ---------------------------------------------------------------- a sequence of calls

  lemma {:induction false} TableStaysOk(t: seq<Entry>, arr: seq<Frag>)
    requires TableOk(t)
    ensures TableOk(TableAfter(t, arr))
  {
    hide FragIn, TableOk;
    if arr != [] {
      var n := |arr| - 1;
      TableStaysOk(t, arr[..n]);
      var k := arr[n].key;
      OtherArrival(TableAfter(t, arr[..n]), arr[n], Key(k.src + 1, k.id));
    }
  }

  /** Fragments under one key make no entry under another. */
  lemma {:induction false} StaysAbsent(t: seq<Entry>, arr: seq<Frag>, key: Key, other: Key)
    requires TableOk(t) && key != other && Lookup(t, other).None?
    requires forall i :: 0 <= i < |arr| ==> arr[i].key == key
    ensures Lookup(TableAfter(t, arr), other).None?
  {
    hide FragIn, TableOk, Lookup;
    if arr != [] {
      var n := |arr| - 1;
      StaysAbsent(t, arr[..n], key, other);
      TableStaysOk(t, arr[..n]);
      OtherArrival(TableAfter(t, arr[..n]), arr[n], other);
    }
  }

  lemma {:induction false} TableAfterConcat(t: seq<Entry>, a: seq<Frag>, b: seq<Frag>)
    ensures TableAfter(t, a + b) == TableAfter(TableAfter(t, a), b)
  {
    hide FragIn;
    if b == [] {
      assert a + b == a;
    } else {
      var n := |b| - 1;
      TableAfterConcat(t, a, b[..n]);
      assert (a + b)[..|a + b| - 1] == a + b[..n];
    }
  }

  lemma KeysApart(src: nat, id: nat, m: nat, n: nat)
    requires id < IDS && m < n < IDS
    ensures KeyAt(src, id, m) != KeyAt(src, id, n)
  {
  }

  lemma SentKeys(c: Call, mtu: nat, key: Key)
    requires HDR + 8 <= mtu
    ensures forall i :: 0 <= i < |SentIn(c, mtu, key)| ==> SentIn(c, mtu, key)[i].key == key
  {
    hide Pieces;
    PiecesFull(c.payload, mtu, key, 0);
  }

  /** Under the current id the receiver holds what failed calls left, and under later ones nothing. */
  ghost predicate Between(t: seq<Entry>, src: nat, id: nat, cs: seq<Call>, mtu: nat)
    requires HDR + 8 <= mtu
  {
    var m := Oks(cs, mtu);
    && TableOk(t)
    && (m < IDS ==>
          && HoldsRun(t, KeyAt(src, id, m), Stale(cs, mtu, KeyAt(src, id, m)))
          && Grid(Stale(cs, mtu, KeyAt(src, id, m)), mtu, KeyAt(src, id, m)))
    && forall n :: m < n < IDS ==> Lookup(t, KeyAt(src, id, n)).None?
  }

  lemma NothingHeld(t: seq<Entry>, mtu: nat, key: Key)
    requires HDR + 8 <= mtu && TableOk(t) && Lookup(t, key).None?
    ensures HoldsRun(t, key, []) && Grid([], mtu, key)
  {
    NothingCut(key);
  }

  lemma LaterAbsent(t: seq<Entry>, src: nat, id: nat, m: nat, c: Call, mtu: nat)
    requires HDR + 8 <= mtu && id < IDS && TableOk(t)
    requires forall k :: m < k < IDS ==> Lookup(t, KeyAt(src, id, k)).None?
    ensures forall k :: m < k < IDS ==>
      Lookup(TableAfter(t, SentIn(c, mtu, KeyAt(src, id, m))), KeyAt(src, id, k)).None?
  {
    hide TableOk, SentIn, Lookup, KeyAt, TableAfter;
    var key := KeyAt(src, id, m);
    var p := SentIn(c, mtu, key);
    SentKeys(c, mtu, key);
    forall k | m < k < IDS ensures Lookup(TableAfter(t, p), KeyAt(src, id, k)).None? {
      KeysApart(src, id, m, k);
      StaysAbsent(t, p, key, KeyAt(src, id, k));
    }
  }

  lemma OneMore(cs: seq<Call>, mtu: nat, key: Key)
    requires HDR + 8 <= mtu && cs != []
    ensures var n := |cs| - 1;
      if Succeeds(cs[n], mtu) then Oks(cs, mtu) == Oks(cs[..n], mtu) + 1 && Stale(cs, mtu, key) == []
      else
        && Oks(cs, mtu) == Oks(cs[..n], mtu)
        && Stale(cs, mtu, key) == Extend(Stale(cs[..n], mtu, key), SentIn(cs[n], mtu, key))
  {
    hide Succeeds, SentIn, Extend;
  }

  lemma OneCall(t: seq<Entry>, src: nat, id: nat, cs: seq<Call>, mtu: nat)
    requires HDR + 8 <= mtu && id < IDS && cs != [] && |cs| <= IDS && AllSendable(cs, mtu)
    requires var n := |cs| - 1; Between(t, src, id, cs[..n], mtu)
    ensures var n := |cs| - 1;
      Between(TableAfter(t, SentIn(cs[n], mtu, KeyAt(src, id, Oks(cs[..n], mtu)))), src, id, cs, mtu)
  {
    hide TableOk, HoldsRun, Grid, SentIn, Lookup, KeyAt, Succeeds, Stale, Oks, TableAfter, Sendable;
    var n := |cs| - 1;
    var m, c := Oks(cs[..n], mtu), cs[n];
    var key := KeyAt(src, id, m);
    var p := SentIn(c, mtu, key);
    var t' := TableAfter(t, p);
    TableStaysOk(t, p);
    LaterAbsent(t, src, id, m, c, mtu);
    OneMore(cs, mtu, key);
    OneMore(cs, mtu, KeyAt(src, id, m + 1));
    if Succeeds(c, mtu) {
      if m + 1 < IDS { NothingHeld(t', mtu, KeyAt(src, id, m + 1)); }
    } else {
      FailedCall(t, c, mtu, key, Stale(cs[..n], mtu, key));
    }
  }

  lemma {:induction false} ManyCalls(t: seq<Entry>, src: nat, id: nat, cs: seq<Call>, mtu: nat)
    requires HDR + 8 <= mtu && id < IDS && |cs| <= IDS && AllSendable(cs, mtu) && TableOk(t)
    requires forall x :: Lookup(t, Key(src, x)).None?
    ensures Between(TableAfter(t, SentAll(src, id, cs, mtu)), src, id, cs, mtu)
  {
    hide TableOk, HoldsRun, Grid, SentIn, Lookup, FragIn;
    if cs == [] {
      NothingHeld(t, mtu, KeyAt(src, id, 0));
    } else {
      var n := |cs| - 1;
      ManyCalls(t, src, id, cs[..n], mtu);
      var a, b := SentAll(src, id, cs[..n], mtu), SentIn(cs[n], mtu, KeyAt(src, id, Oks(cs[..n], mtu)));
      TableAfterConcat(t, a, b);
      OneCall(TableAfter(t, a), src, id, cs, mtu);
    }
  }

  // ---------------------------------------------------------------- what comes out

  lemma MixtureIs(payload: seq<Byte>, mtu: nat, key: Key, h: seq<Frag>)
    requires HDR + 8 <= mtu && |payload| <= 0xFFFF && Grid(h, mtu, key) && |h| < |Pieces(payload, mtu, key, 0)|
    ensures var fs := Pieces(payload, mtu, key, 0);
      |Cat(h)| <= |payload| && Cat(h + fs[|h|..]) == Cat(h) + payload[|Cat(h)|..]
  {
    hide Pieces, Cat, Unit;
    var fs, n := Pieces(payload, mtu, key, 0), |h|;
    AllPieces(payload, mtu, key);
    PiecesFull(payload, mtu, key, 0);
    SameLength(h, fs[..n]);
    CatPrefix(fs, n);
    CatConcat(h, fs[n..]);
    assert payload == Cat(fs[..n]) + Cat(fs[n..]);
  }

  /** Over any sequence of calls, the successful call `c` brings out what failed calls left under its
      id followed by the rest of its own payload, with its last fragment and not before; or nothing,
      if they filled as many places as it has. */
  lemma WhatComesOut(t: seq<Entry>, src: nat, id: nat, cs: seq<Call>, c: Call, mtu: nat, i: nat)
    requires HDR + 8 <= mtu && id < IDS && |cs| < IDS && AllSendable(cs, mtu) && Sendable(c, mtu) && TableOk(t)
    requires forall x :: Lookup(t, Key(src, x)).None?
    requires var key := KeyAt(src, id, Oks(cs, mtu)); i < |Pieces(c.payload, mtu, key, 0)|
    ensures var key := KeyAt(src, id, Oks(cs, mtu));
      var fs, old_ := Pieces(c.payload, mtu, key, 0), Stale(cs, mtu, key);
      var reply := Replies(TableAfter(t, SentAll(src, id, cs, mtu)), fs)[i];
      && (|old_| < |fs| ==> |Cat(old_)| <= |c.payload|)
      && if i == |fs| - 1 && |old_| < |fs| then reply == Complete(Cat(old_) + c.payload[|Cat(old_)|..])
         else !reply.Complete?
  {
    hide Pieces, Grid, HoldsRun, FragIn, TableAfter, Replies, Cat, Stale, SentAll, FragCount, Lookup;
    ManyCalls(t, src, id, cs, mtu);
    var key := KeyAt(src, id, Oks(cs, mtu));
    var h := Stale(cs, mtu, key);
    PiecesCount(c.payload, mtu, key, 0);
    CallReplies(TableAfter(t, SentAll(src, id, cs, mtu)), c.payload, mtu, key, h, i);
    if |h| < |Pieces(c.payload, mtu, key, 0)| { MixtureIs(c.payload, mtu, key, h); }
  }

  /** What comes out under an id is the packet sent, exactly when the bytes that failed calls sent
      under it before are a beginning of the packet and do not fill all its places. */
  lemma TrueExactly(t: seq<Entry>, src: nat, id: nat, cs: seq<Call>, c: Call, mtu: nat)
    requires HDR + 8 <= mtu && id < IDS && |cs| < IDS && AllSendable(cs, mtu) && Sendable(c, mtu) && TableOk(t)
    requires forall x :: Lookup(t, Key(src, x)).None?
    ensures var key := KeyAt(src, id, Oks(cs, mtu));
      var fs, old_ := Pieces(c.payload, mtu, key, 0), Stale(cs, mtu, key);
      var replies := Replies(TableAfter(t, SentAll(src, id, cs, mtu)), fs);
      Complete(c.payload) in replies <==> |old_| < FragCount(|c.payload|, mtu) && Cat(old_) <= c.payload
  {
    hide Pieces, FragIn, TableAfter, Replies, Cat, Stale, SentAll, FragCount, Lookup, AllSendable, Sendable;
    var key := KeyAt(src, id, Oks(cs, mtu));
    var fs, h := Pieces(c.payload, mtu, key, 0), Stale(cs, mtu, key);
    var replies := Replies(TableAfter(t, SentAll(src, id, cs, mtu)), fs);
    PiecesCount(c.payload, mtu, key, 0);
    forall i | 0 <= i < |fs|
      ensures replies[i] == Complete(c.payload) <==> i == |fs| - 1 && |h| < |fs| && Cat(h) <= c.payload
    {
      WhatComesOut(t, src, id, cs, c, mtu, i);
      if |h| < |fs| { SplicedIs(Cat(h), c.payload); }
    }
    if |h| < |fs| && Cat(h) <= c.payload { assert replies[|fs| - 1] == Complete(c.payload); }
  }

  lemma SplicedIs(a: seq<Byte>, b: seq<Byte>)
    requires |a| <= |b|
    ensures a + b[|a|..] == b <==> a <= b
  {
    if a + b[|a|..] == b { assert (a + b[|a|..])[..|a|] == a; }
  }

  /** Nothing is left exactly when no call since the last success sent anything. */
  lemma {:induction false} NothingStale(cs: seq<Call>, mtu: nat, key: Key)
    requires HDR + 8 <= mtu && cs != [] && !Succeeds(cs[|cs| - 1], mtu)
    ensures Stale(cs, mtu, key) == [] <==> Stale(cs[..|cs| - 1], mtu, key) == [] && SentIn(cs[|cs| - 1], mtu, key) == []
  {
  }

  /** The first `n` bytes of one payload with the rest of another. */
  function Mixture(first: seq<Byte>, second: seq<Byte>, n: nat): seq<Byte> {
    if n <= |first| && n <= |second| then first[..n] + second[n..] else []
  }

  /** The failing input: a packet of which `k` fragments go out before a failure, and then another
      one. The receiver hands up the beginning of the first with the end of the second. */
  lemma MixedPayload(src: nat, id: nat, first: seq<Byte>, second: seq<Byte>, k: nat, n: nat, mtu: nat)
    requires HDR + 8 <= mtu && id < IDS && Sendable(Call(first, k), mtu) && Sendable(Call(second, k + 1), mtu)
    requires 0 < k && !Succeeds(Call(first, k), mtu) && !Succeeds(Call(second, k), mtu) && n == k * Unit(mtu)
    ensures var key := Key(src, id);
      var replies := Replies(TableAfter([], SentIn(Call(first, k), mtu, key)), Pieces(second, mtu, key, 0));
      && n <= |first| && n <= |second|
      && replies != [] && replies[|replies| - 1] == Complete(Mixture(first, second, n))
  {
    hide Pieces, FragIn, TableAfter, Replies, Cat, FragCount, Grid, Unit;
    var key := Key(src, id);
    var p, q := Pieces(first, mtu, key, 0), Pieces(second, mtu, key, 0);
    PiecesCount(first, mtu, key, 0);
    PiecesCount(second, mtu, key, 0);
    PrefixGrid(first, mtu, key, k);
    NothingHeld([], mtu, key);
    FailedCall([], Call(first, k), mtu, key, []);
    assert Extend([], p[..k]) == p[..k] by { assert [] + p[..k][0..] == p[..k]; }
    CallReplies(TableAfter([], p[..k]), second, mtu, key, p[..k], |q| - 1);
    MixtureIs(second, mtu, key, p[..k]);
    FullLength(p[..k], mtu, key);
    CatOfPrefix(first, mtu, key, k);
  }

  /** Sixteen ones of which half go out, and then sixteen twos, at the smallest MTU: eight ones and
      eight twos come out, which nobody sent. */
  lemma NobodySentIt(src: nat, id: nat, ones: seq<Byte>, twos: seq<Byte>)
    requires id < IDS && |ones| == |twos| == 16 && forall i :: 0 <= i < 16 ==> ones[i] == 1 && twos[i] == 2
    ensures var key := Key(src, id);
      var replies := Replies(TableAfter([], SentIn(Call(ones, 1), 28, key)), Pieces(twos, 28, key, 0));
      && replies != [] && replies[|replies| - 1] == Complete(ones[..8] + twos[8..])
      && ones[..8] + twos[8..] != ones && ones[..8] + twos[8..] != twos
  {
    hide Pieces, FragIn, TableAfter, Replies, SentIn;
    MixedPayload(src, id, ones, twos, 1, 8, 28);
    var mixed := ones[..8] + twos[8..];
    assert mixed[0] == 1 && mixed[8] == 2;
  }

  lemma CatOfPrefix(payload: seq<Byte>, mtu: nat, key: Key, k: nat)
    requires HDR + 8 <= mtu && |payload| <= 0xFFFF && k <= |Pieces(payload, mtu, key, 0)|
    ensures Cat(Pieces(payload, mtu, key, 0)[..k]) <= payload
  {
    hide Pieces, Cat;
    AllPieces(payload, mtu, key);
    CatPrefix(Pieces(payload, mtu, key, 0), k);
  }

  lemma {:induction false} UnitsLong(h: seq<Frag>, u: nat)
    requires forall i :: 0 <= i < |h| ==> |h[i].data| == u
    ensures |Cat(h)| == |h| * u
  {
    if h != [] { UnitsLong(h[1..], u); }
  }

  lemma FullLength(h: seq<Frag>, mtu: nat, key: Key)
    requires HDR + 8 <= mtu && Grid(h, mtu, key)
    ensures |Cat(h)| == |h| * Unit(mtu)
  {
    UnitsLong(h, Unit(mtu));
  }

  // ---------------------------------------------------------------- the calls in place

  /** A sequence of calls of ip_frag_out on one packet id sends exactly that. */
  method SendCalls(src: nat, id: nat, cs: seq<Call>, mtu: nat) returns (sent: seq<Frag>, next: nat)
    requires HDR + 8 <= mtu <= 0xFFFF && id < IDS && forall i :: 0 <= i < |cs| ==> |cs[i].payload| <= 0xFFFF
    ensures sent == SentAll(src, id, cs, mtu) && Key(src, next) == KeyAt(src, id, Oks(cs, mtu))
  {
    hide Pieces, FragCount, SentAll;
    sent, next := [], id;
    NoCalls(src, id, cs, mtu);
    for i := 0 to |cs|
      invariant next < IDS && Key(src, next) == KeyAt(src, id, Oks(cs[..i], mtu))
      invariant sent == SentAll(src, id, cs[..i], mtu)
    {
      var key, c := Key(src, next), cs[i];
      PiecesCount(c.payload, mtu, key, 0);
      var fs, ok, n := FragOut(c.payload, mtu, src, next, c.budget);
      assert fs == SentIn(c, mtu, key);
      NextCall(src, id, cs, mtu, i);
      sent, next := sent + fs, n;
    }
    assert cs[..|cs|] == cs;
  }

  lemma NoCalls(src: nat, id: nat, cs: seq<Call>, mtu: nat)
    requires HDR + 8 <= mtu && id < IDS
    ensures SentAll(src, id, cs[..0], mtu) == [] && KeyAt(src, id, Oks(cs[..0], mtu)) == Key(src, id)
  {
  }

  lemma NextCall(src: nat, id: nat, cs: seq<Call>, mtu: nat, i: nat)
    requires HDR + 8 <= mtu && i < |cs|
    ensures SentAll(src, id, cs[..i + 1], mtu) ==
      SentAll(src, id, cs[..i], mtu) + SentIn(cs[i], mtu, KeyAt(src, id, Oks(cs[..i], mtu)))
    ensures Oks(cs[..i + 1], mtu) == Oks(cs[..i], mtu) + if Succeeds(cs[i], mtu) then 1 else 0
  {
    hide SentIn, Succeeds;
    assert cs[..i + 1][..i] == cs[..i];
  }
}
