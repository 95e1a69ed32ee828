/** IPv4 fragmentation and reassembly. A fragment is its key (source address and packet id),
    its offset field in units of 8 bytes, the more flag and its payload. */
module Fragments {
  import opened Common

  const IP_FRAGS_MAX_NR := 16
  const IP_FRAG_MAX_BUF_NR := 16
  const HDR := 20

  datatype Key = Key(src: nat, id: nat)
  datatype Frag = Frag(key: Key, offset: nat, more: bool, data: seq<Byte>)

  /** get_frag_start and get_frag_end, in uint16_t arithmetic. */
  function Start(f: Frag): nat { f.offset * 8 % 0x1_0000 }
  function End(f: Frag): nat { (Start(f) + |f.data|) % 0x1_0000 }

  /** All data in list order. */
  function Cat(fs: seq<Frag>): seq<Byte> {
    if fs == [] then [] else fs[0].data + Cat(fs[1..])
  }

  lemma {:induction false} CatConcat(a: seq<Frag>, b: seq<Frag>)
    ensures Cat(a + b) == Cat(a) + Cat(b)
  {
    if a == [] {
      assert a + b == b;
    } else {
      assert (a + b)[1..] == a[1..] + b;
      CatConcat(a[1..], b);
      assert a[0].data + (Cat(a[1..]) + Cat(b)) == (a[0].data + Cat(a[1..])) + Cat(b);
    }
  }

  // ---------------------------------------------------------------- sending

  /** `fs` cuts `payload` into consecutive non-empty pieces, each at its own offset, with the
      more flag on all but the last. */
  ghost predicate Cuts(fs: seq<Frag>, payload: seq<Byte>, key: Key) {
    && Cat(fs) == payload
    && forall i :: 0 <= i < |fs| ==>
         && fs[i].key == key && |fs[i].data| > 0
         && fs[i].offset * 8 == |Cat(fs[..i])| && fs[i].offset < 0x2000
         && (fs[i].more <==> i < |fs| - 1)
  }

  /** The same for the pieces cut so far, while more follow. */
  ghost predicate CutsSoFar(fs: seq<Frag>, done: seq<Byte>, key: Key) {
    && Cat(fs) == done
    && forall i :: 0 <= i < |fs| ==>
         && fs[i].key == key && |fs[i].data| > 0
         && fs[i].offset * 8 == |Cat(fs[..i])| && fs[i].offset < 0x2000 && fs[i].more
  }

  lemma CutMore(fs: seq<Frag>, done: seq<Byte>, key: Key, f: Frag)
    requires CutsSoFar(fs, done, key)
    requires f.key == key && |f.data| > 0 && f.offset * 8 == |done| && f.offset < 0x2000
    ensures f.more ==> CutsSoFar(fs + [f], done + f.data, key)
    ensures !f.more ==> Cuts(fs + [f], done + f.data, key)
  {
    CatConcat(fs, [f]);
    assert [f][1..] == [] && Cat([f]) == f.data + Cat([]) == f.data;
    forall i | 0 <= i <= |fs| ensures (fs + [f])[..i] == fs[..i] {}
  }

  /** The payload of a fragment that more follow: what the MTU leaves, in units of 8. */
  function Unit(mtu: nat): (u: nat)
    requires HDR + 8 <= mtu
    ensures 8 <= u <= mtu - HDR && u % 8 == 0
  {
    (mtu - HDR) / 8 * 8
  }

  /** How many fragments a payload of `len` bytes makes. */
  function FragCount(len: nat, mtu: nat): nat
    requires HDR + 8 <= mtu
  {
    if len == 0 then 0
    else if len <= mtu - HDR then 1
    else 1 + (len - (mtu - HDR) + Unit(mtu) - 1) / Unit(mtu)
  }

  lemma OneLess(x: nat, u: nat)
    requires 0 < u <= x
    ensures (x - u) / u == x / u - 1
  {
    var q, r := x / u, x % u;
    assert x == q * u + r;
    assert q > 0;
    assert (q - 1) * u == q * u - u;
    DivUnique(x - u, u, q - 1, r);
  }

  lemma CountStep(len: nat, mtu: nat)
    requires HDR + 8 <= mtu && len > mtu - HDR
    ensures FragCount(len, mtu) == 1 + FragCount(len - Unit(mtu), mtu)
  {
    var m, u := mtu - HDR, Unit(mtu);
    var x := len - m + u - 1;
    OneLess(x, u);
    if len - u <= m { DivUnique(x - u, u, 0, x - u); }
  }

  /** Sixteen fragments are enough exactly up to this length. */
  lemma {:induction false} FitsSixteen(len: nat, mtu: nat)
    requires HDR + 8 <= mtu
    ensures FragCount(len, mtu) <= IP_FRAG_MAX_BUF_NR <==> len <= mtu - HDR + 15 * Unit(mtu)
  {
    var m, u := mtu - HDR, Unit(mtu);
    if len > m {
      var x := len - m + u - 1;
      var q, r := x / u, x % u;
      assert x == q * u + r;
      if q <= 15 { Multiples(q, 15, u); } else { Multiples(16, q, u); }
    }
  }

  /** The fragments of the payload from `offset` on. */
  function Pieces(payload: seq<Byte>, mtu: nat, key: Key, offset: nat): seq<Frag>
    requires HDR + 8 <= mtu
    decreases |payload| - offset
  {
    if offset >= |payload| then []
    else
      var total := |payload| - offset;
      var curr := if total <= mtu - HDR then total else Unit(mtu);
      [Frag(key, offset / 8, total > curr, payload[offset..offset + curr])] + Pieces(payload, mtu, key, offset + curr)
  }

  lemma {:induction false} PiecesCount(payload: seq<Byte>, mtu: nat, key: Key, offset: nat)
    requires HDR + 8 <= mtu && offset <= |payload|
    ensures |Pieces(payload, mtu, key, offset)| == FragCount(|payload| - offset, mtu)
    decreases |payload| - offset
  {
    hide FragCount;
    CountZero(mtu);
    if offset < |payload| {
      var total := |payload| - offset;
      CountNext(total, mtu);
      PiecesCount(payload, mtu, key, offset + if total <= mtu - HDR then total else Unit(mtu));
    }
  }

  /** All fit the MTU, and all but the last have a unit of bytes and the more flag. */
  predicate FullButLast(fs: seq<Frag>, mtu: nat, key: Key)
    requires HDR + 8 <= mtu
  {
    forall i :: 0 <= i < |fs| ==>
      fs[i].key == key && |fs[i].data| + HDR <= mtu && (i < |fs| - 1 ==> |fs[i].data| == Unit(mtu) && fs[i].more)
  }

  lemma FullCons(f: Frag, rest: seq<Frag>, mtu: nat, key: Key)
    requires HDR + 8 <= mtu && FullButLast(rest, mtu, key)
    requires f.key == key && |f.data| + HDR <= mtu && (rest != [] ==> |f.data| == Unit(mtu) && f.more)
    ensures FullButLast([f] + rest, mtu, key)
  {
    hide Unit;
    var fs := [f] + rest;
    assert forall i :: 1 <= i < |fs| ==> fs[i] == rest[i - 1];
  }

  lemma {:induction false} PiecesFull(payload: seq<Byte>, mtu: nat, key: Key, offset: nat)
    requires HDR + 8 <= mtu
    ensures FullButLast(Pieces(payload, mtu, key, offset), mtu, key)
    decreases |payload| - offset
  {
    hide FullButLast;
    if offset < |payload| {
      var total := |payload| - offset;
      var curr := if total <= mtu - HDR then total else Unit(mtu);
      PiecesFull(payload, mtu, key, offset + curr);
      FullCons(Frag(key, offset / 8, total > curr, payload[offset..offset + curr]),
               Pieces(payload, mtu, key, offset + curr), mtu, key);
    } else {
      FullNil(mtu, key);
    }
  }

  lemma FullNil(mtu: nat, key: Key)
    requires HDR + 8 <= mtu
    ensures FullButLast([], mtu, key)
  {
  }

  lemma {:induction false} PiecesCut(payload: seq<Byte>, mtu: nat, key: Key, fs: seq<Frag>, offset: nat)
    requires HDR + 8 <= mtu && offset < |payload| <= 0xFFFF && offset % 8 == 0 && CutsSoFar(fs, payload[..offset], key)
    ensures Cuts(fs + Pieces(payload, mtu, key, offset), payload, key)
    decreases |payload| - offset
  {
    hide Cuts, CutsSoFar, Cat;
    var total := |payload| - offset;
    var curr := if total <= mtu - HDR then total else Unit(mtu);
    var f := Frag(key, offset / 8, total > curr, payload[offset..offset + curr]);
    CutMore(fs, payload[..offset], key, f);
    assert payload[..offset] + f.data == payload[..offset + curr];
    var rest := Pieces(payload, mtu, key, offset + curr);
    assert fs + ([f] + rest) == (fs + [f]) + rest;
    if f.more {
      PiecesCut(payload, mtu, key, fs + [f], offset + curr);
    } else {
      assert payload[..offset + curr] == payload && rest == [];
      assert (fs + [f]) + [] == fs + [f];
    }
  }

  lemma AllPieces(payload: seq<Byte>, mtu: nat, key: Key)
    requires HDR + 8 <= mtu && |payload| <= 0xFFFF
    ensures Cuts(Pieces(payload, mtu, key, 0), payload, key)
  {
    hide Cuts, CutsSoFar;
    NothingCut(key);
    assert payload[..0] == [];
    if payload != [] {
      PiecesCut(payload, mtu, key, [], 0);
      assert [] + Pieces(payload, mtu, key, 0) == Pieces(payload, mtu, key, 0);
    }
  }

  /** ip_frag_out. `budget` fragments get through before an allocation or a send fails. Those sent
      are the first of the pieces that cut the payload, all but the last of one unit, each within
      the MTU. The id of the next packet advances exactly when all of them went out. */
  method FragOut(payload: seq<Byte>, mtu: nat, src: nat, id: nat, budget: nat)
    returns (fs: seq<Frag>, ok: bool, next: nat)
    requires HDR + 8 <= mtu <= 0xFFFF && |payload| <= 0xFFFF && id < 0x1_0000
    ensures ok <==> FragCount(|payload|, mtu) <= budget
    ensures |fs| == Min(FragCount(|payload|, mtu), budget)
    ensures fs <= Pieces(payload, mtu, Key(src, id), 0)
    ensures ok ==> Cuts(fs, payload, Key(src, id))
    ensures next == if ok then (id + 1) % 0x1_0000 else id
    ensures forall i :: 0 <= i < |fs| ==> |fs[i].data| + HDR <= mtu
    ensures forall i :: 0 <= i < |fs| && (i < |fs| - 1 || !ok) ==> |fs[i].data| == Unit(mtu) && fs[i].more
  {
    hide Cuts, FragCount, Pieces, Unit;
    var total, offset := |payload|, 0;
    var key := Key(src, id);
    fs, ok := [], true;
    ghost var all := Pieces(payload, mtu, key, 0);
    PiecesCount(payload, mtu, key, 0);
    PiecesFull(payload, mtu, key, 0);
    AllPieces(payload, mtu, key);
    CountZero(mtu);
    assert [] + all == all;
    while total > 0
      invariant 0 <= total && offset + total == |payload| && |fs| <= budget
      invariant fs + Pieces(payload, mtu, key, offset) == all
      invariant |fs| + FragCount(total, mtu) == FragCount(|payload|, mtu)
    {
      var curr := total;
      if curr > mtu - HDR { curr := mtu - HDR; }
      if curr < total { curr := curr - curr % 8; }
      CountNext(total, mtu);
      if |fs| == budget { return fs, false, id; }
      var f := Frag(key, offset / 8, total > curr, payload[offset..offset + curr]);
      NextPiece(payload, mtu, key, offset);
      Regroup(fs, f, Pieces(payload, mtu, key, offset + curr));
      fs := fs + [f];
      total := total - curr;
      offset := offset + curr;
    }
    PiecesEnd(payload, mtu, key);
    assert fs + [] == fs;
    next := if id == 0xFFFF then 0 else id + 1;
  }

  lemma Regroup(fs: seq<Frag>, f: Frag, rest: seq<Frag>)
    ensures fs + ([f] + rest) == (fs + [f]) + rest
  {
  }

  lemma PiecesEnd(payload: seq<Byte>, mtu: nat, key: Key)
    requires HDR + 8 <= mtu
    ensures Pieces(payload, mtu, key, |payload|) == []
  {
  }

  lemma NextPiece(payload: seq<Byte>, mtu: nat, key: Key, offset: nat)
    requires HDR + 8 <= mtu && offset < |payload|
    ensures var total := |payload| - offset;
      var curr := if total <= mtu - HDR then total else mtu - HDR - (mtu - HDR) % 8;
      && curr <= total
      && Pieces(payload, mtu, key, offset) ==
           [Frag(key, offset / 8, total > curr, payload[offset..offset + curr])] +
           Pieces(payload, mtu, key, offset + curr)
  {
    CountNext(|payload| - offset, mtu);
  }

  lemma CountZero(mtu: nat)
    requires HDR + 8 <= mtu
    ensures FragCount(0, mtu) == 0
  {
  }

  lemma CountNext(total: nat, mtu: nat)
    requires HDR + 8 <= mtu && total > 0
    ensures FragCount(total, mtu) > 0
    ensures FragCount(total, mtu) == 1 + FragCount(if total <= mtu - HDR then 0 else total - Unit(mtu), mtu)
    ensures Unit(mtu) == mtu - HDR - (mtu - HDR) % 8
  {
    if total > mtu - HDR { CountStep(total, mtu); }
  }

  lemma NothingCut(key: Key)
    ensures CutsSoFar([], [], key) && Cuts([], [], key)
  {
  }

  // ---------------------------------------------------------------- reassembly

  datatype Entry = Entry(key: Key, bufs: seq<Frag>)

  predicate TableOk(t: seq<Entry>) {
    |t| <= IP_FRAGS_MAX_NR && forall i, j :: 0 <= i < j < |t| ==> t[i].key != t[j].key
  }

  /** Place of the entry for `key`, or the length of the list. */
  function Index(t: seq<Entry>, key: Key): (i: nat)
    ensures i <= |t|
    ensures i < |t| ==> t[i].key == key
    ensures forall j :: 0 <= j < i ==> t[j].key != key
  {
    if t == [] || t[0].key == key then 0 else 1 + Index(t[1..], key)
  }

  /** frag_find moves a found entry to the front; otherwise frag_alloc and frag_add put a new
      one there, dropping the last entry when all are in use. */
  function Front(t: seq<Entry>, key: Key): (r: seq<Entry>)
    ensures r != [] && r[0].key == key
  {
    var i := Index(t, key);
    if i < |t| then [t[i]] + t[..i] + t[i + 1..]
    else [Entry(key, [])] + (if |t| < IP_FRAGS_MAX_NR then t else t[..|t| - 1])
  }

  /** frag_insert below its length check: None for a start that is already there. */
  function Insert(bufs: seq<Frag>, f: Frag): Option<seq<Frag>> {
    if bufs == [] then Some([f])
    else if Start(f) == Start(bufs[0]) then None
    else if End(f) <= Start(bufs[0]) then Some([f] + bufs)
    else
      match Insert(bufs[1..], f)
      case None => None
      case Some(r) => Some([bufs[0]] + r)
  }

  /** frag_is_all_arrived from offset `off` on; `more` is the flag of the piece before. */
  predicate ArrivedFrom(bufs: seq<Frag>, off: nat, more: bool) {
    if bufs == [] then !more
    else Start(bufs[0]) == off && ArrivedFrom(bufs[1..], off + |bufs[0].data|, bufs[0].more)
  }

  datatype Reply = Dropped | Kept | Complete(payload: seq<Byte>)

  datatype Step = Step(table: seq<Entry>, reply: Reply)

  /** ip_frag_in */
  function FragIn(t: seq<Entry>, f: Frag): Step {
    var t1 := Front(t, f.key);
    if |t1[0].bufs| >= IP_FRAG_MAX_BUF_NR then Step(t1[1..], Dropped)
    else
      match Insert(t1[0].bufs, f)
      case None => Step(t1, Dropped)
      case Some(bufs) =>
        if ArrivedFrom(bufs, 0, true) then Step(t1[1..], Complete(Cat(bufs)))
        else Step(t1[0 := t1[0].(bufs := bufs)], Kept)
  }

  // ---------------------------------------------------------------- which fragments are there

  /** The fragments of `fs` with index in `s` and at least `lo`, in order. */
  function Pick(fs: seq<Frag>, s: set<nat>, lo: nat): seq<Frag>
    decreases |fs| - lo
  {
    if lo >= |fs| then []
    else if lo in s then [fs[lo]] + Pick(fs, s, lo + 1)
    else Pick(fs, s, lo + 1)
  }

  /** No fragment is missing. */
  predicate Whole(fs: seq<Frag>, s: set<nat>) {
    forall i :: 0 <= i < |fs| ==> i in s
  }

  /** The starts of a cut are the running lengths, without 16-bit wrap-around. */
  lemma Starts(fs: seq<Frag>, payload: seq<Byte>, key: Key, i: nat)
    requires Cuts(fs, payload, key) && |payload| <= 0xFFFF && i < |fs|
    ensures Start(fs[i]) == |Cat(fs[..i])| && Start(fs[i]) + |fs[i].data| == |Cat(fs[..i + 1])| <= 0xFFFF
    ensures End(fs[i]) == |Cat(fs[..i + 1])|
  {
    assert fs[..i + 1] == fs[..i] + [fs[i]];
    CatConcat(fs[..i], [fs[i]]);
    assert [fs[i]][1..] == [] && Cat([fs[i]]) == fs[i].data + Cat([]);
    assert fs == fs[..i + 1] + fs[i + 1..];
    CatConcat(fs[..i + 1], fs[i + 1..]);
  }

  lemma {:induction false} StartsGrow(fs: seq<Frag>, payload: seq<Byte>, key: Key, i: nat, j: nat)
    requires Cuts(fs, payload, key) && |payload| <= 0xFFFF && i < j < |fs|
    ensures Start(fs[i]) < End(fs[i]) <= Start(fs[j]) < End(fs[j])
    decreases j
  {
    hide Cat, Start, End;
    Starts(fs, payload, key, i);
    Starts(fs, payload, key, j);
    if i + 1 < j {
      StartsGrow(fs, payload, key, i, j - 1);
      Starts(fs, payload, key, j - 1);
    }
  }

  lemma {:induction false} PickHead(fs: seq<Frag>, s: set<nat>, lo: nat)
    requires Pick(fs, s, lo) != []
    ensures exists h :: lo <= h < |fs| && h in s && Pick(fs, s, lo)[0] == fs[h]
    decreases |fs| - lo
  {
    if lo !in s { PickHead(fs, s, lo + 1); } else { assert Pick(fs, s, lo)[0] == fs[lo]; }
  }

  lemma {:induction false} PickAdd(fs: seq<Frag>, s: set<nat>, lo: nat, i: nat)
    requires i < lo
    ensures Pick(fs, s + {i}, lo) == Pick(fs, s, lo)
    decreases |fs| - lo
  {
    if lo < |fs| { PickAdd(fs, s, lo + 1, i); }
  }

  /** Inserting fragment `i` into the ordered list of those present finds its place, or finds
      that it is already there. */
  lemma {:induction false} InsertPick(fs: seq<Frag>, payload: seq<Byte>, key: Key, s: set<nat>, lo: nat, i: nat)
    requires Cuts(fs, payload, key) && |payload| <= 0xFFFF && lo <= i < |fs|
    ensures Insert(Pick(fs, s, lo), fs[i]) == if i in s then None else Some(Pick(fs, s + {i}, lo))
    decreases |fs| - lo
  {
    hide Cuts, Start, End;
    if lo in s {
      assert Pick(fs, s, lo)[1..] == Pick(fs, s, lo + 1);
      if lo < i {
        StartsGrow(fs, payload, key, lo, i);
        InsertPick(fs, payload, key, s, lo + 1, i);
      }
    } else if lo < i {
      InsertPick(fs, payload, key, s, lo + 1, i);
    } else {
      PickAdd(fs, s, lo + 1, i);
      assert [fs[lo]] + [] == [fs[lo]];
      assert Pick(fs, s + {i}, lo) == [fs[lo]] + Pick(fs, s, lo);
      if Pick(fs, s, lo) != [] {
        PickHead(fs, s, lo);
        var h :| lo <= h < |fs| && h in s && Pick(fs, s, lo)[0] == fs[h];
        StartsGrow(fs, payload, key, lo, h);
      }
    }
  }

  /** The pieces present have all arrived exactly when none is missing. */
  lemma {:induction false} ArrivedPick(fs: seq<Frag>, payload: seq<Byte>, key: Key, s: set<nat>, lo: nat)
    requires Cuts(fs, payload, key) && |payload| <= 0xFFFF && lo <= |fs|
    ensures ArrivedFrom(Pick(fs, s, lo), |Cat(fs[..lo])|, lo < |fs|) <==> forall i :: lo <= i < |fs| ==> i in s
    decreases |fs| - lo
  {
    hide Start, End, Cat;
    if lo == |fs| {
    } else if lo in s {
      Starts(fs, payload, key, lo);
      assert Pick(fs, s, lo)[1..] == Pick(fs, s, lo + 1);
      ArrivedPick(fs, payload, key, s, lo + 1);
    } else if Pick(fs, s, lo) != [] {
      PickHead(fs, s, lo);
      var h :| lo <= h < |fs| && h in s && Pick(fs, s, lo)[0] == fs[h];
      Starts(fs, payload, key, lo);
      StartsGrow(fs, payload, key, lo, h);
    }
  }

  lemma {:induction false} PickAll(fs: seq<Frag>, s: set<nat>, lo: nat)
    requires lo <= |fs| && forall i :: lo <= i < |fs| ==> i in s
    ensures Pick(fs, s, lo) == fs[lo..]
    decreases |fs| - lo
  {
    if lo < |fs| { PickAll(fs, s, lo + 1); }
  }

  lemma {:induction false} PickSize(fs: seq<Frag>, s: set<nat>, lo: nat)
    requires lo <= |fs|
    ensures |Pick(fs, s, lo)| <= |fs| - lo
    ensures |Pick(fs, s, lo)| == |fs| - lo ==> forall i :: lo <= i < |fs| ==> i in s
    decreases |fs| - lo
  {
    if lo < |fs| { PickSize(fs, s, lo + 1); }
  }

  // ---------------------------------------------------------------- the table around an entry

  /** The fragments held for `key`. */
  function Lookup(t: seq<Entry>, key: Key): Option<seq<Frag>> {
    if t == [] then None else if t[0].key == key then Some(t[0].bufs) else Lookup(t[1..], key)
  }

  /** The keys listed before `key`. */
  function Before(t: seq<Entry>, key: Key): set<Key> {
    if t == [] || t[0].key == key then {} else {t[0].key} + Before(t[1..], key)
  }

  lemma {:induction false} LookupConcat(a: seq<Entry>, b: seq<Entry>, key: Key)
    ensures Lookup(a + b, key) == if Lookup(a, key).Some? then Lookup(a, key) else Lookup(b, key)
    ensures Before(a + b, key) == if Lookup(a, key).Some? then Before(a, key) else Before(a, key) + Before(b, key)
  {
    if a == [] {
      assert a + b == b;
    } else {
      assert (a + b)[1..] == a[1..] + b;
      LookupConcat(a[1..], b, key);
    }
  }

  lemma LookupSingle(e: Entry, key: Key)
    ensures Lookup([e], key) == if e.key == key then Some(e.bufs) else None
    ensures Before([e], key) == if e.key == key then {} else {e.key}
  {
    assert [e][1..] == [];
  }

  lemma {:induction false} LookupIndex(t: seq<Entry>, key: Key)
    ensures Lookup(t, key) == if Index(t, key) < |t| then Some(t[Index(t, key)].bufs) else None
  {
    if t != [] && t[0].key != key { LookupIndex(t[1..], key); }
  }

  lemma {:induction false} BeforeCount(t: seq<Entry>, key: Key)
    requires forall i, j :: 0 <= i < j < |t| ==> t[i].key != t[j].key
    ensures |Before(t, key)| == Index(t, key)
    ensures forall x :: x in Before(t, key) ==> Index(t, x) < Index(t, key)
  {
    if t != [] && t[0].key != key {
      BeforeCount(t[1..], key);
      BeforeAmong(t[1..], key);
    }
  }

  lemma {:induction false} BeforeAmong(t: seq<Entry>, key: Key)
    ensures forall x :: x in Before(t, key) ==> Index(t, x) < |t|
  {
    if t != [] && t[0].key != key { BeforeAmong(t[1..], key); }
  }

  lemma FrontDistinct(t: seq<Entry>, key: Key)
    requires TableOk(t)
    ensures TableOk(Front(t, key))
  {
    hide Index;
    var i, r := Index(t, key), Front(t, key);
    if i < |t| {
      assert r[0] == t[i];
      assert (forall j :: 1 <= j <= i ==> r[j] == t[j - 1]) && (forall j :: i < j < |r| ==> r[j] == t[j]);
    } else {
      assert forall j :: 1 <= j < |r| ==> r[j] == t[j - 1];
    }
  }

  lemma FrontOk(t: seq<Entry>, key: Key)
    requires TableOk(t)
    ensures TableOk(Front(t, key))
    ensures Front(t, key)[0].bufs == (if Lookup(t, key).Some? then Lookup(t, key).value else [])
    ensures Lookup(Front(t, key)[1..], key).None?
  {
    hide Index, Lookup;
    LookupIndex(t, key);
    FrontDistinct(t, key);
    LookupIndex(Front(t, key)[1..], key);
  }

  lemma {:induction false} BeforeHas(t: seq<Entry>, key: Key, x: Key)
    ensures x in Before(t, key) <==> Index(t, x) < Index(t, key)
  {
    if t != [] && t[0].key != key && t[0].key != x { BeforeHas(t[1..], key, x); }
  }

  /** Does the arrival of `other` push out an entry with the keys `ahead` listed before it? */
  predicate Evicts(ahead: set<Key>, other: Key) {
    |ahead| == IP_FRAGS_MAX_NR - 1 && other !in ahead
  }

  /** It does exactly when that entry is the last of a full table and the other key is new. */
  lemma EvictsLast(t: seq<Entry>, other: Key, key: Key)
    requires TableOk(t) && other != key && Lookup(t, key).Some?
    ensures Evicts(Before(t, key), other) <==>
      |t| == IP_FRAGS_MAX_NR && t[|t| - 1].key == key && Lookup(t, other).None?
  {
    hide Index, Before;
    LookupIndex(t, key);
    LookupIndex(t, other);
    BeforeCount(t, key);
    BeforeHas(t, key, other);
    if |t| == IP_FRAGS_MAX_NR && t[|t| - 1].key == key { assert Index(t, key) == |t| - 1; }
  }

  /** Moving another key to the front, or adding it there, keeps every entry it does not push
      out, and its place among the rest. */
  lemma FrontOther(t: seq<Entry>, other: Key, key: Key)
    requires TableOk(t) && other != key && Lookup(t, key).Some?
    ensures if Evicts(Before(t, key), other) then Lookup(Front(t, other)[1..], key).None?
            else
              && Lookup(Front(t, other)[1..], key) == Lookup(t, key)
              && Before(Front(t, other)[1..], key) == Before(t, key) - {other}
  {
    hide Lookup, Before, Evicts, Front;
    LookupIndex(t, other);
    EvictsLast(t, other, key);
    if Lookup(t, other).Some? { FrontMoved(t, other, key); } else { FrontNew(t, other, key); }
  }

  lemma FrontMoved(t: seq<Entry>, other: Key, key: Key)
    requires TableOk(t) && other != key && Lookup(t, key).Some? && Index(t, other) < |t|
    ensures Lookup(Front(t, other)[1..], key) == Lookup(t, key)
    ensures Before(Front(t, other)[1..], key) == Before(t, key) - {other}
  {
    hide Index, Lookup, Before;
    var i := Index(t, other);
    var pre, post := t[..i], t[i + 1..];
    assert Front(t, other)[1..] == pre + post;
    NotAmong(pre, other, key);
    NotAmong(post, other, key);
    assert t == (pre + [t[i]]) + post;
    LookupSingle(t[i], key);
    LookupConcat(pre + [t[i]], post, key);
    LookupConcat(pre, [t[i]], key);
    LookupConcat(pre, post, key);
  }

  lemma FrontNew(t: seq<Entry>, other: Key, key: Key)
    requires TableOk(t) && other != key && Lookup(t, key).Some? && Index(t, other) == |t|
    ensures if |t| == IP_FRAGS_MAX_NR && t[|t| - 1].key == key then Lookup(Front(t, other)[1..], key).None?
            else
              && Lookup(Front(t, other)[1..], key) == Lookup(t, key)
              && Before(Front(t, other)[1..], key) == Before(t, key) - {other}
  {
    hide Index, Lookup, Before;
    NotAmong(t, other, key);
    if |t| == IP_FRAGS_MAX_NR {
      var n := |t| - 1;
      assert t == t[..n] + [t[n]];
      assert Front(t, other)[1..] == t[..n];
      LookupSingle(t[n], key);
      LookupConcat(t[..n], [t[n]], key);
      LookupIndex(t[..n], key);
    } else {
      assert Front(t, other)[1..] == t;
    }
  }

  lemma {:induction false} NotAmong(t: seq<Entry>, x: Key, key: Key)
    requires forall i :: 0 <= i < |t| ==> t[i].key != x
    ensures x !in Before(t, key)
  {
    if t != [] && t[0].key != key { NotAmong(t[1..], x, key); }
  }

  // ---------------------------------------------------------------- one arrival

  /** The table holds exactly the fragments `s` of `fs`, in order. */
  predicate Holds(t: seq<Entry>, fs: seq<Frag>, key: Key, s: set<nat>) {
    Lookup(t, key) == if s == {} then None else Some(Pick(fs, s, 0))
  }

  lemma {:induction false} PickNone(fs: seq<Frag>, lo: nat)
    ensures Pick(fs, {}, lo) == []
    decreases |fs| - lo
  {
    if lo < |fs| { PickNone(fs, lo + 1); }
  }

  /** A fragment of the packet arrives: the table then holds it too, or, if it was the last one
      missing, the payload comes out and the entry is gone. */
  lemma OwnArrival(t: seq<Entry>, fs: seq<Frag>, payload: seq<Byte>, key: Key, s: set<nat>, i: nat)
    requires Cuts(fs, payload, key) && |payload| <= 0xFFFF && |fs| <= IP_FRAG_MAX_BUF_NR
    requires TableOk(t) && Holds(t, fs, key, s) && !Whole(fs, s) && i < |fs|
    ensures var r := FragIn(t, fs[i]);
      && TableOk(r.table) && r.table == (if Whole(fs, s + {i}) then Front(t, key)[1..] else r.table)
      && (if Whole(fs, s + {i}) then r.reply == Complete(payload) && Holds(r.table, fs, key, {})
          else !r.reply.Complete? && Holds(r.table, fs, key, s + {i}) && Before(r.table, key) == {})
  {
    hide Cuts, Front, Insert, ArrivedFrom, Index, Cat;
    assert fs[i].key == key by { KeyOf(fs, payload, key, i); }
    var t1, bufs := Front(t, key), Pick(fs, s, 0);
    FrontOk(t, key);
    PickNone(fs, 0);
    PickSize(fs, s, 0);
    InsertPick(fs, payload, key, s, 0, i);
    if i !in s {
      ArrivedPick(fs, payload, key, s + {i}, 0);
      assert fs[..0] == [];
      CatEmpty();
      if Whole(fs, s + {i}) {
        PickAll(fs, s + {i}, 0);
        CatOf(fs, payload, key);
      }
    } else {
      assert s + {i} == s;
    }
  }

  lemma KeyOf(fs: seq<Frag>, payload: seq<Byte>, key: Key, i: nat)
    requires Cuts(fs, payload, key) && i < |fs|
    ensures fs[i].key == key
  {
  }

  lemma CatOf(fs: seq<Frag>, payload: seq<Byte>, key: Key)
    requires Cuts(fs, payload, key)
    ensures Cat(fs[0..]) == payload
  {
    assert fs[0..] == fs;
  }

  lemma CatEmpty()
    ensures Cat([]) == []
  {
  }

  /** The arrival of `f` leaves no entry for its key: it completed or overran the entry. */
  predicate GivenUp(t: seq<Entry>, f: Frag) {
    Lookup(FragIn(t, f).table, f.key).None?
  }

  /** A fragment of another packet: the entry for `key` is lost exactly when fifteen keys are
      ahead of it and this one is not among them. Otherwise it is unchanged, and the other key is
      ahead of it afterwards unless its own entry was given up. */
  lemma OtherArrival(t: seq<Entry>, f: Frag, key: Key)
    requires TableOk(t) && f.key != key
    ensures var r, ahead := FragIn(t, f).table, Before(t, key);
      && TableOk(r)
      && (Lookup(t, key).Some? && Evicts(ahead, f.key) ==> Lookup(r, key).None?)
      && (Lookup(t, key).None? ==> Lookup(r, key).None?)
      && (Lookup(t, key).Some? && !Evicts(ahead, f.key) ==>
            && Lookup(r, key) == Lookup(t, key)
            && Before(r, key) == if GivenUp(t, f) then ahead - {f.key} else ahead + {f.key})
  {
    hide Insert, ArrivedFrom, Index, Front, Evicts, Cat, Before;
    var t1 := Front(t, f.key);
    FrontOk(t, f.key);
    if Lookup(t, key).None? { StillAbsent(t, f.key, key); } else { FrontOther(t, f.key, key); }
    var r := FragIn(t, f).table;
    if r != t1[1..] {
      assert r == [r[0]] + t1[1..] && r[0].key == f.key;
      LookupSingle(r[0], key);
      LookupConcat([r[0]], t1[1..], key);
    }
  }

  lemma StillAbsent(t: seq<Entry>, other: Key, key: Key)
    requires TableOk(t) && other != key && Lookup(t, key).None?
    ensures Lookup(Front(t, other)[1..], key).None?
  {
    LookupIndex(t, key);
    LookupIndex(Front(t, other)[1..], key);
  }

  /** The input on which reassembly fails: the entry is the last of a full table, and a fragment
      of a packet without an entry arrives. What had arrived is lost. */
  lemma EntryLost(t: seq<Entry>, f: Frag, key: Key)
    requires TableOk(t) && |t| == IP_FRAGS_MAX_NR && t[|t| - 1].key == key
    requires f.key != key && Lookup(t, f.key).None?
    ensures Lookup(t, key).Some? && Lookup(FragIn(t, f).table, key).None?
  {
    LookupIndex(t, key);
    assert Index(t, key) == |t| - 1;
    EvictsLast(t, f.key, key);
    OtherArrival(t, f, key);
  }

  lemma SubsetSize<T>(a: set<T>, b: set<T>)
    requires a <= b
    ensures |a| <= |b| && (|a| == |b| ==> a == b)
  {
    assert b == a + (b - a);
  }

  // ---------------------------------------------------------------- every run of arrivals

  /** What ip_frag_in answers to each of a sequence of arrivals. */
  function Replies(t: seq<Entry>, arr: seq<Frag>): (r: seq<Reply>)
    ensures |r| == |arr|
    decreases |arr|
  {
    if arr == [] then []
    else
      var st := FragIn(t, arr[0]);
      [st.reply] + Replies(st.table, arr[1..])
  }

  /** The same place in a cut: key, offset, length and more flag, whatever the bytes. */
  predicate SameShape(f: Frag, g: Frag) {
    f.key == g.key && f.offset == g.offset && f.more == g.more && |f.data| == |g.data|
  }

  predicate HasPlace(fs: seq<Frag>, f: Frag) {
    exists i :: 0 <= i < |fs| && SameShape(f, fs[i])
  }

  function Place(fs: seq<Frag>, f: Frag): (i: nat)
    requires HasPlace(fs, f)
    ensures i < |fs| && SameShape(f, fs[i])
  {
    if SameShape(f, fs[0]) then 0
    else
      assert HasPlace(fs[1..], f) by {
        var i :| 0 <= i < |fs| && SameShape(f, fs[i]);
        assert fs[1..][i - 1] == fs[i];
      }
      1 + Place(fs[1..], f)
  }

  /** Arrivals under this packet's key have the shape of its fragments. They may come from another
      packet that was sent under the same key. Anything else may arrive. */
  predicate OwnShapes(arr: seq<Frag>, fs: seq<Frag>, key: Key) {
    forall j :: 0 <= j < |arr| && arr[j].key == key ==> HasPlace(fs, arr[j])
  }

  /** Arrivals under this packet's key are fragments of it. */
  predicate OwnFrags(arr: seq<Frag>, fs: seq<Frag>, key: Key) {
    forall j :: 0 <= j < |arr| && arr[j].key == key ==> arr[j] in fs
  }

  predicate Shapes(held: seq<Frag>, fs: seq<Frag>) {
    |held| == |fs| && forall i :: 0 <= i < |fs| ==> SameShape(held[i], fs[i])
  }

  lemma {:induction false} ShapesLength(held: seq<Frag>, fs: seq<Frag>)
    requires Shapes(held, fs)
    ensures |Cat(held)| == |Cat(fs)|
  {
    if fs != [] { ShapesLength(held[1..], fs[1..]); }
  }

  /** What has the shape of a cut is a cut, of its own bytes. */
  lemma ShapesCut(held: seq<Frag>, fs: seq<Frag>, payload: seq<Byte>, key: Key)
    requires Shapes(held, fs) && Cuts(fs, payload, key)
    ensures Cuts(held, Cat(held), key) && |Cat(held)| == |payload|
  {
    hide Cat;
    ShapesLength(held, fs);
    forall i | 0 <= i < |held| ensures held[i].offset * 8 == |Cat(held[..i])| {
      ShapesLength(held[..i], fs[..i]);
    }
  }

  /** Cuts of one shape with the same bytes are the same. */
  lemma {:induction false} ShapesEqual(held: seq<Frag>, fs: seq<Frag>)
    requires Shapes(held, fs) && Cat(held) == Cat(fs)
    ensures held == fs
  {
    if fs != [] {
      var h, f := held[0], fs[0];
      assert Cat(held)[..|h.data|] == h.data && Cat(fs)[..|f.data|] == f.data;
      assert Cat(held)[|h.data|..] == Cat(held[1..]) && Cat(fs)[|f.data|..] == Cat(fs[1..]);
      ShapesEqual(held[1..], fs[1..]);
    }
  }

  /** The table after a sequence of arrivals. */
  function TableAfter(t: seq<Entry>, arr: seq<Frag>): seq<Entry> {
    if arr == [] then t else FragIn(TableAfter(t, arr[..|arr| - 1]), arr[|arr| - 1]).table
  }

  /** What an observer knows of the packet: the places filled, the keys that have come ahead of it
      since its last fragment and still have an entry, and the fragment first come at each place. */
  datatype Watch = Watch(s: set<nat>, ahead: set<Key>, held: seq<Frag>)

  function See(fs: seq<Frag>, key: Key, w: Watch, f: Frag, givenUp: bool): Watch {
    if f.key == key then
      if !HasPlace(fs, f) || |w.held| != |fs| then w
      else
        var i := Place(fs, f);
        var held := if i in w.s then w.held else w.held[i := f];
        if Whole(fs, w.s + {i}) then Watch({}, {}, held) else Watch(w.s + {i}, {}, held)
    else if w.s == {} || Evicts(w.ahead, f.key) then Watch({}, {}, w.held)
    else w.(ahead := if givenUp then w.ahead - {f.key} else w.ahead + {f.key})
  }

  function SeeAll(fs: seq<Frag>, key: Key, w: Watch, t: seq<Entry>, arr: seq<Frag>): Watch {
    if arr == [] then w
    else
      var n := |arr| - 1;
      See(fs, key, SeeAll(fs, key, w, t, arr[..n]), arr[n], GivenUp(TableAfter(t, arr[..n]), arr[n]))
  }

  ghost predicate Tracks(t: seq<Entry>, fs: seq<Frag>, key: Key, w: Watch) {
    && TableOk(t) && Shapes(w.held, fs) && Holds(t, w.held, key, w.s) && !Whole(fs, w.s)
    && (w.s != {} ==> Before(t, key) == w.ahead)
  }

  /** Does arrival `f` fill the last place missing from `s`? */
  predicate Completes(fs: seq<Frag>, s: set<nat>, f: Frag) {
    HasPlace(fs, f) && Whole(fs, s + {Place(fs, f)})
  }

  lemma {:induction false} PickOther(fs: seq<Frag>, s: set<nat>, lo: nat, i: nat, f: Frag)
    requires i < |fs| && i !in s
    ensures Pick(fs[i := f], s, lo) == Pick(fs, s, lo)
    decreases |fs| - lo
  {
    if lo < |fs| { PickOther(fs, s, lo + 1, i, f); }
  }

  /** A start that is already there is refused, whatever comes with it. */
  lemma {:induction false} InsertDup(bufs: seq<Frag>, f: Frag, i: nat)
    requires i < |bufs| && Start(f) == Start(bufs[i])
    requires forall j :: 0 <= j < i ==> Start(bufs[j]) < End(f)
    ensures Insert(bufs, f).None?
    decreases i
  {
    if Start(f) != Start(bufs[0]) { InsertDup(bufs[1..], f, i - 1); }
  }

  lemma {:induction false} DupPick(fs: seq<Frag>, payload: seq<Byte>, key: Key, s: set<nat>, lo: nat, i: nat, f: Frag)
    requires Cuts(fs, payload, key) && |payload| <= 0xFFFF && lo <= i < |fs| && i in s && SameShape(f, fs[i])
    ensures Insert(Pick(fs, s, lo), f).None?
    decreases |fs| - lo
  {
    hide Cuts, Cat;
    if lo in s {
      assert Pick(fs, s, lo)[1..] == Pick(fs, s, lo + 1);
      if lo < i {
        StartsGrow(fs, payload, key, lo, i);
        DupPick(fs, payload, key, s, lo + 1, i, f);
      }
    } else {
      DupPick(fs, payload, key, s, lo + 1, i, f);
    }
  }

  /** A fragment for a place that is filled is dropped, and only moves the entry to the front. */
  lemma DupArrival(t: seq<Entry>, fs: seq<Frag>, payload: seq<Byte>, key: Key, s: set<nat>, i: nat, f: Frag)
    requires Cuts(fs, payload, key) && |payload| <= 0xFFFF
    requires TableOk(t) && Holds(t, fs, key, s) && i < |fs| && i in s && SameShape(f, fs[i])
    requires |Pick(fs, s, 0)| < IP_FRAG_MAX_BUF_NR
    ensures var r := FragIn(t, f);
      !r.reply.Complete? && TableOk(r.table) && Holds(r.table, fs, key, s) && Before(r.table, key) == {}
  {
    hide Cuts, Front, Insert, ArrivedFrom, Index, Cat, Pick;
    KeyOf(fs, payload, key, i);
    FrontOk(t, key);
    DupPick(fs, payload, key, s, 0, i, f);
  }

  /** One arrival of a run. */
  lemma Arrival(t: seq<Entry>, f: Frag, fs: seq<Frag>, payload: seq<Byte>, key: Key, w: Watch)
    requires Cuts(fs, payload, key) && |payload| <= 0xFFFF && |fs| <= IP_FRAG_MAX_BUF_NR
    requires (f.key == key ==> HasPlace(fs, f)) && Tracks(t, fs, key, w)
    ensures var r := FragIn(t, f);
      && Tracks(r.table, fs, key, See(fs, key, w, f, GivenUp(t, f)))
      && (f.key == key ==>
            if Completes(fs, w.s, f) then r.reply == Complete(Cat(w.held[Place(fs, f) := f])) else !r.reply.Complete?)
  {
    hide Cuts, FragIn, Before, Pick, TableOk, Lookup, Place, Evicts, GivenUp, Cat;
    if f.key == key {
      OwnPlace(t, f, fs, payload, key, w, Place(fs, f));
      SomeMissing(fs, w.s);
    } else {
      OtherArrival(t, f, key);
      SomeMissing(fs, w.s);
    }
  }

  lemma OwnPlace(t: seq<Entry>, f: Frag, fs: seq<Frag>, payload: seq<Byte>, key: Key, w: Watch, i: nat)
    requires Cuts(fs, payload, key) && |payload| <= 0xFFFF && |fs| <= IP_FRAG_MAX_BUF_NR
    requires i < |fs| && SameShape(f, fs[i]) && Tracks(t, fs, key, w)
    ensures var r := FragIn(t, f); var held := if i in w.s then w.held else w.held[i := f];
      && TableOk(r.table) && Shapes(held, fs)
      && (if Whole(fs, w.s + {i}) then
            i !in w.s && r.reply == Complete(Cat(held)) && Holds(r.table, held, key, {})
          else
            !r.reply.Complete? && Holds(r.table, held, key, w.s + {i}) && Before(r.table, key) == {})
  {
    hide Cuts, FragIn, Before, TableOk, Lookup, Cat, Pick;
    if i in w.s {
      assert w.s + {i} == w.s;
      ShapesCut(w.held, fs, payload, key);
      PickSize(w.held, w.s, 0);
      DupArrival(t, w.held, Cat(w.held), key, w.s, i, f);
    } else {
      var held := w.held[i := f];
      ShapesCut(held, fs, payload, key);
      PickOther(w.held, w.s, 0, i, f);
      OwnArrival(t, held, Cat(held), key, w.s, i);
    }
  }

  lemma SomeMissing(fs: seq<Frag>, s: set<nat>)
    requires !Whole(fs, s)
    ensures !Whole(fs, {})
  {
    var i :| 0 <= i < |fs| && i !in s;
    var none: set<nat> := {};
    assert i !in none;
  }

  lemma {:induction false} Watched(t: seq<Entry>, arr: seq<Frag>, fs: seq<Frag>, payload: seq<Byte>, key: Key, w: Watch)
    requires Cuts(fs, payload, key) && |payload| <= 0xFFFF && |fs| <= IP_FRAG_MAX_BUF_NR
    requires OwnShapes(arr, fs, key) && Tracks(t, fs, key, w)
    ensures Tracks(TableAfter(t, arr), fs, key, SeeAll(fs, key, w, t, arr))
  {
    hide Cuts, FragIn, Tracks, See, GivenUp;
    if arr != [] {
      var n := |arr| - 1;
      Watched(t, arr[..n], fs, payload, key, w);
      Arrival(TableAfter(t, arr[..n]), arr[n], fs, payload, key, SeeAll(fs, key, w, t, arr[..n]));
    }
  }

  lemma {:induction false} ReplyAt(t: seq<Entry>, arr: seq<Frag>, j: nat)
    requires j < |arr|
    ensures Replies(t, arr)[j] == FragIn(TableAfter(t, arr[..j]), arr[j]).reply
    decreases |arr|
  {
    hide FragIn;
    if j > 0 {
      ReplyAt(FragIn(t, arr[0]).table, arr[1..], j - 1);
      assert arr[1..][..j - 1] == arr[1..j];
      TableAfterCons(t, arr[0], arr[1..j]);
      assert [arr[0]] + arr[1..j] == arr[..j];
    }
  }

  lemma {:induction false} TableAfterCons(t: seq<Entry>, f: Frag, arr: seq<Frag>)
    ensures TableAfter(t, [f] + arr) == TableAfter(FragIn(t, f).table, arr)
  {
    hide FragIn;
    if arr == [] {
      assert [f] + arr == [f] && [f][..0] == [];
    } else {
      var n := |arr| - 1;
      TableAfterCons(t, f, arr[..n]);
      assert ([f] + arr)[..n + 1] == [f] + arr[..n];
    }
  }

  /** In every run of arrivals, in any order, with duplicates, with fragments of the same shape from
      other packets under the same key, and with any fragments of any number of other keys in
      between, a payload comes out exactly at the arrivals that fill the last place missing since
      one last came out or was pushed out, and it is what came first at each place. */
  lemma Reassembles(t: seq<Entry>, arr: seq<Frag>, fs: seq<Frag>, payload: seq<Byte>, key: Key, w: Watch, j: nat)
    requires Cuts(fs, payload, key) && |payload| <= 0xFFFF && |fs| <= IP_FRAG_MAX_BUF_NR
    requires OwnShapes(arr, fs, key) && Tracks(t, fs, key, w)
    requires j < |arr| && arr[j].key == key
    ensures var v, f := SeeAll(fs, key, w, t, arr[..j]), arr[j];
      && |v.held| == |fs|
      && if Completes(fs, v.s, f) then Replies(t, arr)[j] == Complete(Cat(v.held[Place(fs, f) := f]))
         else !Replies(t, arr)[j].Complete?
  {
    hide Cuts, FragIn, Holds, Completes, GivenUp, Replies, Cat, Place, Whole;
    Watched(t, arr[..j], fs, payload, key, w);
    Arrival(TableAfter(t, arr[..j]), arr[j], fs, payload, key, SeeAll(fs, key, w, t, arr[..j]));
    ReplyAt(t, arr, j);
  }

  /** The places of this packet that have been filled. */
  function Arrived(fs: seq<Frag>, key: Key, arr: seq<Frag>): set<nat> {
    if arr == [] then {}
    else
      var n := |arr| - 1;
      Arrived(fs, key, arr[..n]) + if arr[n].key == key && HasPlace(fs, arr[n]) then {Place(fs, arr[n])} else {}
  }

  /** What came first at each place; `fs` itself where nothing came. */
  function Firsts(fs: seq<Frag>, key: Key, arr: seq<Frag>): (h: seq<Frag>)
    ensures |h| == |fs|
  {
    if arr == [] then fs
    else
      var n := |arr| - 1;
      var h := Firsts(fs, key, arr[..n]);
      if arr[n].key == key && HasPlace(fs, arr[n]) && Place(fs, arr[n]) !in Arrived(fs, key, arr[..n]) then
        h[Place(fs, arr[n]) := arr[n]]
      else h
  }

  /** The other keys that came since the packet's last fragment. */
  function Since(key: Key, arr: seq<Frag>): set<Key> {
    if arr == [] then {}
    else
      var n := |arr| - 1;
      if arr[n].key == key then {} else Since(key, arr[..n]) + {arr[n].key}
  }

  /** From the packet's first fragment on, fewer than sixteen other keys come between two of its
      fragments. Each of its fragments starts the count again. */
  predicate Calm(arr: seq<Frag>, key: Key) {
    forall k :: 0 <= k <= |arr| && (exists i :: 0 <= i < k && arr[i].key == key) ==>
      |Since(key, arr[..k])| < IP_FRAGS_MAX_NR
  }

  lemma CalmPrefix(arr: seq<Frag>, key: Key, n: nat)
    requires Calm(arr, key) && n <= |arr|
    ensures Calm(arr[..n], key)
  {
    forall k | 0 <= k <= n && exists i :: 0 <= i < k && arr[..n][i].key == key
      ensures |Since(key, arr[..n][..k])| < IP_FRAGS_MAX_NR
    {
      assert arr[..n][..k] == arr[..k];
      var i :| 0 <= i < k && arr[..n][i].key == key;
      assert arr[i].key == key;
    }
  }

  lemma {:induction false} ArrivedSome(fs: seq<Frag>, key: Key, arr: seq<Frag>)
    requires Arrived(fs, key, arr) != {}
    ensures exists i :: 0 <= i < |arr| && arr[i].key == key
  {
    var n := |arr| - 1;
    if arr[n].key != key { ArrivedSome(fs, key, arr[..n]); }
  }

  lemma CalmNow(fs: seq<Frag>, key: Key, arr: seq<Frag>, n: nat)
    requires Calm(arr, key) && n <= |arr| && Arrived(fs, key, arr[..n]) != {}
    ensures |Since(key, arr)| < IP_FRAGS_MAX_NR
  {
    hide Since, Arrived;
    ArrivedSome(fs, key, arr[..n]);
    var i :| 0 <= i < n && arr[..n][i].key == key;
    assert arr[i].key == key && arr[..|arr|] == arr;
  }

  /** In a calm run nothing is lost until all places are filled. */
  lemma {:induction false} PresentUntilWhole(fs: seq<Frag>, key: Key, t: seq<Entry>, arr: seq<Frag>)
    requires OwnShapes(arr, fs, key) && Calm(arr, key) && !Whole(fs, Arrived(fs, key, arr))
    ensures var w := SeeAll(fs, key, Watch({}, {}, fs), t, arr);
      w.s == Arrived(fs, key, arr) && w.ahead <= Since(key, arr) && w.held == Firsts(fs, key, arr)
  {
    hide FragIn, GivenUp, Place, TableAfter, Calm, See, Whole, HasPlace;
    if arr != [] {
      var n := |arr| - 1;
      var f, w := arr[n], SeeAll(fs, key, Watch({}, {}, fs), t, arr[..n]);
      CalmPrefix(arr, key, n);
      StillMissing(fs, key, arr);
      PresentUntilWhole(fs, key, t, arr[..n]);
      if f.key != key && w.s != {} { CalmNow(fs, key, arr, n); }
      PresentStep(fs, key, w, f, Since(key, arr[..n]), GivenUp(TableAfter(t, arr[..n]), f));
    }
  }

  lemma PresentStep(fs: seq<Frag>, key: Key, w: Watch, f: Frag, since: set<Key>, givenUp: bool)
    requires w.ahead <= since && |w.held| == |fs|
    requires f.key == key ==> HasPlace(fs, f) && !Whole(fs, w.s + {Place(fs, f)})
    requires f.key != key && w.s != {} ==> |since + {f.key}| < IP_FRAGS_MAX_NR
    ensures var w' := See(fs, key, w, f, givenUp);
      if f.key == key then
        w' == Watch(w.s + {Place(fs, f)}, {}, if Place(fs, f) in w.s then w.held else w.held[Place(fs, f) := f])
      else w'.s == w.s && w'.ahead <= since + {f.key} && w'.held == w.held
  {
    hide Whole, Place, HasPlace;
    if f.key != key && w.s != {} && Evicts(w.ahead, f.key) { SubsetSize(w.ahead + {f.key}, since + {f.key}); }
  }

  lemma StillMissing(fs: seq<Frag>, key: Key, arr: seq<Frag>)
    requires arr != [] && !Whole(fs, Arrived(fs, key, arr))
    ensures !Whole(fs, Arrived(fs, key, arr[..|arr| - 1]))
  {
    hide Place, HasPlace;
  }

  /** Reassembly under a key that several packets of one shape share: a payload comes out for the
      first time exactly when the last place is filled, and it is what came first at each. */
  lemma FirstsComeOut(t: seq<Entry>, arr: seq<Frag>, fs: seq<Frag>, payload: seq<Byte>, key: Key, j: nat)
    requires Cuts(fs, payload, key) && 0 < |payload| <= 0xFFFF && |fs| <= IP_FRAG_MAX_BUF_NR
    requires OwnShapes(arr, fs, key) && j < |arr| && Calm(arr[..j], key) && TableOk(t) && Lookup(t, key).None?
    requires arr[j].key == key && !Whole(fs, Arrived(fs, key, arr[..j]))
    ensures if Whole(fs, Arrived(fs, key, arr[..j + 1])) then
              Replies(t, arr)[j] == Complete(Cat(Firsts(fs, key, arr[..j + 1])))
            else !Replies(t, arr)[j].Complete?
  {
    hide Cuts, Replies, Pick, Place, SeeAll, Since, Calm, Cat, Whole, HasPlace;
    NothingYet(t, fs, payload, key);
    Reassembles(t, arr, fs, payload, key, Watch({}, {}, fs), j);
    PresentUntilWhole(fs, key, t, arr[..j]);
    assert arr[..j + 1][..|arr[..j + 1]| - 1] == arr[..j];
    var s, i := Arrived(fs, key, arr[..j]), Place(fs, arr[j]);
    if i in s { assert s + {i} == s; }
  }

  lemma NothingYet(t: seq<Entry>, fs: seq<Frag>, payload: seq<Byte>, key: Key)
    requires Cuts(fs, payload, key) && payload != [] && TableOk(t) && Lookup(t, key).None?
    ensures Tracks(t, fs, key, Watch({}, {}, fs))
  {
    hide Cuts, Pick;
    SomeFragment(fs, payload, key);
    var none: set<nat> := {};
    assert 0 !in none;
  }

  lemma {:induction false} FirstsShape(fs: seq<Frag>, key: Key, arr: seq<Frag>)
    ensures Shapes(Firsts(fs, key, arr), fs)
  {
    hide Place, HasPlace;
    if arr != [] { FirstsShape(fs, key, arr[..|arr| - 1]); }
  }

  /** What comes out is the packet exactly when each of its places was filled first by its own
      fragment. */
  lemma TruePayload(t: seq<Entry>, arr: seq<Frag>, fs: seq<Frag>, payload: seq<Byte>, key: Key, j: nat)
    requires Cuts(fs, payload, key) && 0 < |payload| <= 0xFFFF && |fs| <= IP_FRAG_MAX_BUF_NR
    requires OwnShapes(arr, fs, key) && j < |arr| && Calm(arr[..j], key) && TableOk(t) && Lookup(t, key).None?
    requires arr[j].key == key && !Whole(fs, Arrived(fs, key, arr[..j]))
    ensures Replies(t, arr)[j] == Complete(payload) <==>
      Whole(fs, Arrived(fs, key, arr[..j + 1])) && Firsts(fs, key, arr[..j + 1]) == fs
  {
    hide Replies, Arrived, Since, Calm, Cat, Whole, HasPlace, Firsts;
    FirstsComeOut(t, arr, fs, payload, key, j);
    FirstsShape(fs, key, arr[..j + 1]);
    var h := Firsts(fs, key, arr[..j + 1]);
    if Cat(h) == payload { ShapesEqual(h, fs); }
  }

  lemma InHasPlace(fs: seq<Frag>, f: Frag)
    requires f in fs
    ensures HasPlace(fs, f)
  {
  }

  /** Two fragments of one cut never share a place. */
  lemma OwnPlaceOnly(fs: seq<Frag>, payload: seq<Byte>, key: Key, f: Frag)
    requires Cuts(fs, payload, key) && |payload| <= 0xFFFF && f in fs
    ensures HasPlace(fs, f) && fs[Place(fs, f)] == f
  {
    hide Cuts, Cat;
    InHasPlace(fs, f);
    var k := Place(fs, f);
    var i: nat :| i < |fs| && fs[i] == f;
    if i < k { StartsGrow(fs, payload, key, i, k); } else if k < i { StartsGrow(fs, payload, key, k, i); }
  }

  lemma {:induction false} FirstsOwn(fs: seq<Frag>, payload: seq<Byte>, key: Key, arr: seq<Frag>)
    requires Cuts(fs, payload, key) && |payload| <= 0xFFFF && OwnFrags(arr, fs, key)
    ensures Firsts(fs, key, arr) == fs && OwnShapes(arr, fs, key)
  {
    hide Cuts, Place, HasPlace;
    if arr != [] {
      var n := |arr| - 1;
      FirstsOwn(fs, payload, key, arr[..n]);
      if arr[n].key == key { OwnPlaceOnly(fs, payload, key, arr[n]); }
      forall j | 0 <= j < |arr| && arr[j].key == key ensures HasPlace(fs, arr[j]) { InHasPlace(fs, arr[j]); }
    }
  }

  /** Fragment then reassemble is the identity: with nothing of the packet in the table and no other
      packet under its key, the payload comes out for the first time exactly when the last missing
      fragment arrives. */
  lemma FragmentThenReassemble(t: seq<Entry>, arr: seq<Frag>, fs: seq<Frag>, payload: seq<Byte>, key: Key, j: nat)
    requires Cuts(fs, payload, key) && 0 < |payload| <= 0xFFFF && |fs| <= IP_FRAG_MAX_BUF_NR
    requires OwnFrags(arr, fs, key) && j < |arr| && Calm(arr[..j], key) && TableOk(t) && Lookup(t, key).None?
    requires arr[j].key == key && !Whole(fs, Arrived(fs, key, arr[..j]))
    ensures if Whole(fs, Arrived(fs, key, arr[..j + 1])) then Replies(t, arr)[j] == Complete(payload)
            else !Replies(t, arr)[j].Complete?
  {
    hide Cuts, Replies, Arrived, Since, Calm, Cat, Whole, HasPlace, Firsts;
    FirstsOwn(fs, payload, key, arr);
    FirstsOwn(fs, payload, key, arr[..j + 1]);
    FirstsComeOut(t, arr, fs, payload, key, j);
    CatOf(fs, payload, key);
    assert fs[0..] == fs;
  }

  function Keys(arr: seq<Frag>): set<Key> {
    if arr == [] then {} else Keys(arr[..|arr| - 1]) + {arr[|arr| - 1].key}
  }

  /** How many other packets an entry survives: while the entries of the others stay, it is
      lost exactly when sixteen different other keys have come since its last fragment. */
  lemma {:induction false} SurvivesExactly(t: seq<Entry>, arr: seq<Frag>, key: Key)
    requires TableOk(t) && Lookup(t, key).Some? && Before(t, key) == {}
    requires forall j :: 0 <= j < |arr| ==> arr[j].key != key && !GivenUp(TableAfter(t, arr[..j]), arr[j])
    ensures var r := TableAfter(t, arr);
      && TableOk(r)
      && (|Keys(arr)| < IP_FRAGS_MAX_NR ==> Lookup(r, key) == Lookup(t, key) && Before(r, key) == Keys(arr))
      && (|Keys(arr)| >= IP_FRAGS_MAX_NR ==> Lookup(r, key).None?)
  {
    hide FragIn, Before, Lookup, TableOk, GivenUp;
    if arr != [] {
      var n := |arr| - 1;
      forall j | 0 <= j < n ensures arr[..n][j].key != key && !GivenUp(TableAfter(t, arr[..n][..j]), arr[..n][j]) {
        assert arr[..n][..j] == arr[..j];
      }
      SurvivesExactly(t, arr[..n], key);
      OtherArrival(TableAfter(t, arr[..n]), arr[n], key);
      KeySize(Keys(arr[..n]), arr[n].key);
    }
  }

  lemma KeySize(ks: set<Key>, k: Key)
    ensures |ks + {k}| == if k in ks then |ks| else |ks| + 1
  {
    if k in ks { assert ks + {k} == ks; }
  }

  lemma SomeFragment(fs: seq<Frag>, payload: seq<Byte>, key: Key)
    requires Cuts(fs, payload, key) && payload != []
    ensures fs != []
  {
  }

  // ---------------------------------------------------------------- more than 16 fragments

  /** A packet cut into more fragments than an entry holds never comes out, whatever else
      arrives: the arrival that finds the entry full throws the entry away. */
  lemma {:induction false} TooManyFragments(t: seq<Entry>, arr: seq<Frag>, fs: seq<Frag>, payload: seq<Byte>, key: Key,
                                            held: seq<Frag>, s: set<nat>, j: nat)
    requires Cuts(fs, payload, key) && |payload| <= 0xFFFF && |fs| > IP_FRAG_MAX_BUF_NR && Shapes(held, fs)
    requires OwnShapes(arr, fs, key) && TableOk(t) && Holds(t, held, key, s) && |Pick(held, s, 0)| <= IP_FRAG_MAX_BUF_NR
    requires j < |arr| && arr[j].key == key
    ensures !Replies(t, arr)[j].Complete?
    decreases |arr|
  {
    hide Cuts, FragIn, Before, Pick, Evicts, GivenUp, Lookup, Place, HasPlace;
    var f, st := arr[0], FragIn(t, arr[0]);
    var s', held' := s, held;
    if f.key == key {
      s', held' := FullArrival(t, f, fs, payload, key, held, s, Place(fs, f));
    } else {
      OtherArrival(t, f, key);
      PickNone(held, 0);
      if Lookup(st.table, key).None? { s' := {}; }
    }
    if j > 0 { TooManyFragments(st.table, arr[1..], fs, payload, key, held', s', j - 1); }
  }

  lemma FullArrival(t: seq<Entry>, f: Frag, fs: seq<Frag>, payload: seq<Byte>, key: Key,
                    held: seq<Frag>, s: set<nat>, i: nat)
    returns (s': set<nat>, held': seq<Frag>)
    requires Cuts(fs, payload, key) && |payload| <= 0xFFFF && |fs| > IP_FRAG_MAX_BUF_NR && Shapes(held, fs)
    requires TableOk(t) && Holds(t, held, key, s) && i < |fs| && |Pick(held, s, 0)| <= IP_FRAG_MAX_BUF_NR
    requires SameShape(f, fs[i])
    ensures var r := FragIn(t, f);
      && TableOk(r.table) && Shapes(held', fs) && Holds(r.table, held', key, s')
      && |Pick(held', s', 0)| <= IP_FRAG_MAX_BUF_NR && !r.reply.Complete?
  {
    hide Cuts, Front, Insert, ArrivedFrom, Index, Cat;
    s', held' := s, held;
    KeyOf(fs, payload, key, i);
    var bufs := Pick(held, s, 0);
    FrontOk(t, key);
    PickNone(held, 0);
    if |bufs| == IP_FRAG_MAX_BUF_NR {
      s' := {};
    } else if i in s {
      ShapesCut(held, fs, payload, key);
      DupArrival(t, held, Cat(held), key, s, i, f);
    } else {
      s', held' := s + {i}, held[i := f];
      ShapesCut(held', fs, payload, key);
      PickOther(held, s, 0, i, f);
      InsertPick(held', Cat(held'), key, s, 0, i);
      InsertSize(bufs, f);
      ArrivedPick(held', Cat(held'), key, s', 0);
      assert held'[..0] == [];
      CatEmpty();
      PickNotAll(held', s');
    }
  }

  lemma {:induction false} InsertSize(bufs: seq<Frag>, f: Frag)
    ensures Insert(bufs, f).Some? ==> |Insert(bufs, f).value| == |bufs| + 1
  {
    if bufs != [] { InsertSize(bufs[1..], f); }
  }

  lemma PickNotAll(fs: seq<Frag>, s: set<nat>)
    requires |Pick(fs, s, 0)| < |fs|
    ensures exists i :: 0 <= i < |fs| && i !in s
  {
    if Whole(fs, s) { PickAll(fs, s, 0); }
  }

  // ---------------------------------------------------------------- the code

  /** frag_list and the handling of an arrival, on the list the C code keeps. */
  class FragTable {
    var list: seq<Entry>

    constructor ()
      ensures list == []
    {
      list := [];
    }

    /** frag_find, frag_alloc and frag_add: afterwards the entry stands first. */
    method Find(key: Key)
      modifies this
      ensures list == Front(old(list), key)
    {
      hide Index;
      var i := 0;
      while i < |list|
        invariant i <= |list| && list == old(list)
        invariant i <= Index(list, key)
      {
        if list[i].key == key {
          list := [list[i]] + list[..i] + list[i + 1..];
          return;
        }
        i := i + 1;
      }
      if |list| >= IP_FRAGS_MAX_NR { list := list[..|list| - 1]; }
      list := [Entry(key, [])] + list;
    }

    /** ip_frag_in */
    method Arrive(f: Frag) returns (reply: Reply)
      modifies this
      ensures FragIn(old(list), f) == Step(list, reply)
    {
      hide Front, Insert, ArrivedFrom, Cat;
      Find(f.key);
      var bufs := list[0].bufs;
      if |bufs| >= IP_FRAG_MAX_BUF_NR {
        list := list[1..];
        return Dropped;
      }
      var r := InsertBuf(bufs, f);
      if r.None? { return Dropped; }
      var all := AllArrived(r.value);
      if all {
        var payload := Join(r.value);
        list := list[1..];
        return Complete(payload);
      }
      list := list[0 := list[0].(bufs := r.value)];
      reply := Kept;
    }
  }

  /** The insertion loop of frag_insert. */
  method InsertBuf(bufs: seq<Frag>, f: Frag) returns (r: Option<seq<Frag>>)
    ensures r == Insert(bufs, f)
  {
    var i := 0;
    assert bufs[0..] == bufs;
    if Insert(bufs, f).Some? { assert bufs[..0] + Insert(bufs, f).value == Insert(bufs, f).value; }
    while i < |bufs|
      invariant i <= |bufs|
      invariant Insert(bufs, f) == match Insert(bufs[i..], f) case None => None case Some(x) => Some(bufs[..i] + x)
    {
      assert bufs[i..][1..] == bufs[i + 1..];
      if Start(f) == Start(bufs[i]) { return None; }
      if End(f) <= Start(bufs[i]) {
        assert bufs[..i] + ([f] + bufs[i..]) == bufs[..i] + [f] + bufs[i..];
        return Some(bufs[..i] + [f] + bufs[i..]);
      }
      ghost var rest := Insert(bufs[i + 1..], f);
      if rest.Some? { assert bufs[..i] + ([bufs[i]] + rest.value) == bufs[..i + 1] + rest.value; }
      i := i + 1;
    }
    assert bufs[..i] == bufs && bufs[i..] == [];
    r := Some(bufs + [f]);
  }

  /** frag_is_all_arrived */
  method AllArrived(bufs: seq<Frag>) returns (all: bool)
    ensures all == ArrivedFrom(bufs, 0, true)
  {
    var i, off, more := 0, 0, true;
    assert bufs[0..] == bufs;
    while i < |bufs|
      invariant 0 <= i <= |bufs| && 0 <= off
      invariant ArrivedFrom(bufs, 0, true) == ArrivedFrom(bufs[i..], off, more)
    {
      assert bufs[i..][1..] == bufs[i + 1..];
      if Start(bufs[i]) != off { return false; }
      off := off + |bufs[i].data|;
      more := bufs[i].more;
      i := i + 1;
    }
    all := !more;
  }

  /** frag_join: the data of each fragment is appended to the first. */
  method Join(bufs: seq<Frag>) returns (payload: seq<Byte>)
    ensures payload == Cat(bufs)
  {
    var rest := bufs;
    payload := [];
    while rest != []
      invariant payload + Cat(rest) == Cat(bufs)
      decreases |rest|
    {
      assert (payload + rest[0].data) + Cat(rest[1..]) == payload + (rest[0].data + Cat(rest[1..]));
      payload := payload + rest[0].data;
      rest := rest[1..];
    }
  }
}
