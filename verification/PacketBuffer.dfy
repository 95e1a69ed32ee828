/** The packet buffer: a pool of pages, a pool of packets, and the operations that edit packets
    and move their cursors. The class invariant is page conservation. */
module PacketBuffer {
  import opened Common
  import opened Pages
  import C = Checksum

  const PACKET_PAGE_CNT := 512
  const PACKET_BUFFER_SIZE := 256

  datatype NetErr = Ok | ErrSize | ErrMem | ErrParam

  /** A packet record. `cur` is the index of the page under the cursor, |pages| for none, and
      `po` the payload offset in it. Structural edits leave the cursor as it was. */
  datatype Packet = Packet(totalSize: int, pages: seq<Page>, ref: nat, pos: int, cur: nat, po: nat)

  /** A live packet in order: pages in use, and total_size their sum. */
  predicate Sound(k: Packet) {
    k.ref > 0 && AllInUse(k.pages) && k.totalSize == Sum(k.pages)
  }

  /** A sound packet whose cursor is in order. */
  predicate Placed(k: Packet) {
    Sound(k) && Cursor(k.pages, k.pos, k.cur, k.po)
  }

  function Bytes(k: Packet): seq<Byte>
    requires AllInUse(k.pages)
  {
    Flat(k.pages)
  }

  /** packet_reset_pos */
  function Reset(k: Packet): (r: Packet)
    ensures AllInUse(k.pages) ==> Cursor(r.pages, r.pos, r.cur, r.po)
  {
    k.(pos := 0, cur := 0, po := if k.pages == [] then 0 else k.pages[0].off)
  }

  // ---------------------------------------------------------------- ownership

  /** The pages of all packets, with multiplicity. */
  ghost function Owned(ks: seq<Packet>): multiset<nat> {
    if ks == [] then multiset{} else Ids(ks[0].pages) + Owned(ks[1..])
  }

  ghost function Universe(n: nat): multiset<nat> {
    if n == 0 then multiset{} else Universe(n - 1) + multiset{n - 1}
  }

  lemma {:induction false} OwnedUpdate(ks: seq<Packet>, i: nat, k: Packet)
    requires i < |ks|
    ensures Owned(ks[i := k]) + Ids(ks[i].pages) == Owned(ks) + Ids(k.pages)
  {
    hide Ids;
    if i == 0 {
      assert ks[0 := k][1..] == ks[1..];
    } else {
      assert ks[i := k][1..] == ks[1..][i - 1 := k];
      OwnedUpdate(ks[1..], i - 1, k);
      var a, b, o := Ids(ks[0].pages), Owned(ks[1..][i - 1 := k]), Owned(ks[1..]);
      assert (a + b) + Ids(ks[i].pages) == a + (b + Ids(ks[i].pages));
      assert (a + o) + Ids(k.pages) == a + (o + Ids(k.pages));
    }
  }

  lemma {:induction false} OwnedAt(ks: seq<Packet>, i: nat)
    requires i < |ks|
    ensures Ids(ks[i].pages) <= Owned(ks)
  {
    hide Ids;
    if i > 0 { OwnedAt(ks[1..], i - 1); }
  }

  lemma {:induction false} OwnedTwo(ks: seq<Packet>, i: nat, j: nat)
    requires i < j < |ks|
    ensures Ids(ks[i].pages) + Ids(ks[j].pages) <= Owned(ks)
  {
    hide Ids;
    if i == 0 { OwnedAt(ks[1..], j - 1); } else { OwnedTwo(ks[1..], i - 1, j - 1); }
  }

  lemma {:induction false} OwnedSome(ks: seq<Packet>, id: nat)
    requires id in Owned(ks)
    ensures exists i :: 0 <= i < |ks| && id in Ids(ks[i].pages)
  {
    hide Ids;
    if id !in Ids(ks[0].pages) {
      OwnedSome(ks[1..], id);
      var i :| 0 <= i < |ks[1..]| && id in Ids(ks[1..][i].pages);
      assert id in Ids(ks[i + 1].pages);
    }
  }

  lemma {:induction false} UniverseOnce(n: nat, id: nat)
    ensures Universe(n)[id] == if id < n then 1 else 0
  {
    if n > 0 { UniverseOnce(n - 1, id); }
  }

  lemma {:induction false} IdCount(gs: seq<Page>, a: nat, b: nat)
    requires a < b < |gs| && gs[a].id == gs[b].id
    ensures Ids(gs)[gs[a].id] >= 2
  {
    if a == 0 {
      IdIn(gs[1..], b - 1);
    } else {
      IdCount(gs[1..], a - 1, b - 1);
    }
  }

  lemma {:induction false} IdIn(gs: seq<Page>, a: nat)
    requires a < |gs|
    ensures gs[a].id in Ids(gs)
  {
    if a > 0 { IdIn(gs[1..], a - 1); }
  }

  /** Free pages and the pages of all packets make up the pool. */
  ghost predicate Conserved(free: seq<Page>, ks: seq<Packet>) {
    Ids(free) + Owned(ks) == Universe(PACKET_PAGE_CNT)
  }

  lemma AtMostOnce(free: seq<Page>, ks: seq<Packet>, part: multiset<nat>, id: nat)
    requires Conserved(free, ks) && part <= Ids(free) + Owned(ks)
    ensures part[id] <= 1
  {
    hide Ids, Owned, Universe;
    UniverseOnce(PACKET_PAGE_CNT, id);
  }

  lemma PacketsDisjoint(free: seq<Page>, ks: seq<Packet>, i: nat, j: nat, id: nat)
    requires Conserved(free, ks) && i < j < |ks| && id in Ids(ks[i].pages)
    ensures id !in Ids(ks[j].pages)
  {
    OwnedTwo(ks, i, j);
    AtMostOnce(free, ks, Ids(ks[i].pages) + Ids(ks[j].pages), id);
  }

  lemma FreeDisjoint(free: seq<Page>, ks: seq<Packet>, i: nat, id: nat)
    requires Conserved(free, ks) && i < |ks| && id in Ids(ks[i].pages)
    ensures id !in Ids(free)
  {
    OwnedAt(ks, i);
    AtMostOnce(free, ks, Ids(free) + Ids(ks[i].pages), id);
  }

  lemma NoPageTwice(free: seq<Page>, ks: seq<Packet>, i: nat, a: nat, b: nat)
    requires Conserved(free, ks) && i < |ks| && a < b < |ks[i].pages|
    ensures ks[i].pages[a].id != ks[i].pages[b].id
  {
    if ks[i].pages[a].id == ks[i].pages[b].id {
      IdCount(ks[i].pages, a, b);
      OwnedAt(ks, i);
      AtMostOnce(free, ks, Ids(ks[i].pages), ks[i].pages[a].id);
    }
  }

  lemma SomewhereOrFree(free: seq<Page>, ks: seq<Packet>, id: nat)
    requires Conserved(free, ks) && id < PACKET_PAGE_CNT
    ensures id in Ids(free) || exists i :: 0 <= i < |ks| && id in Ids(ks[i].pages)
  {
    hide Ids, Owned, Universe;
    UniverseOnce(PACKET_PAGE_CNT, id);
    assert (Ids(free) + Owned(ks))[id] == 1;
    if id !in Ids(free) { OwnedSome(ks, id); }
  }

  /** What conservation means: no page is in two packets, twice in one packet, or both free and
      in use, and every page of the pool is free or in some packet. */
  lemma PagesPartition(free: seq<Page>, ks: seq<Packet>)
    requires Conserved(free, ks)
    ensures forall i, j, id :: 0 <= i < j < |ks| && id in Ids(ks[i].pages) ==> id !in Ids(ks[j].pages)
    ensures forall i, id :: 0 <= i < |ks| && id in Ids(ks[i].pages) ==> id !in Ids(free)
    ensures forall i, a, b :: 0 <= i < |ks| && 0 <= a < b < |ks[i].pages| ==> ks[i].pages[a].id != ks[i].pages[b].id
    ensures forall id :: 0 <= id < PACKET_PAGE_CNT ==>
      id in Ids(free) || exists i :: 0 <= i < |ks| && id in Ids(ks[i].pages)
  {
    hide Ids, Conserved;
    forall i, j, id | 0 <= i < j < |ks| && id in Ids(ks[i].pages) ensures id !in Ids(ks[j].pages) {
      PacketsDisjoint(free, ks, i, j, id);
    }
    forall i, id | 0 <= i < |ks| && id in Ids(ks[i].pages) ensures id !in Ids(free) {
      FreeDisjoint(free, ks, i, id);
    }
    forall i, a, b | 0 <= i < |ks| && 0 <= a < b < |ks[i].pages|
      ensures ks[i].pages[a].id != ks[i].pages[b].id
    {
      NoPageTwice(free, ks, i, a, b);
    }
    forall id | 0 <= id < PACKET_PAGE_CNT
      ensures id in Ids(free) || exists i :: 0 <= i < |ks| && id in Ids(ks[i].pages)
    {
      SomewhereOrFree(free, ks, id);
    }
  }

  // ---------------------------------------------------------------- page lists

  /** page_alloc_list: take pages from the front of the pool until `size` bytes are covered. With
      `front` each page is filled from its end and put before the others. When the pool runs
      out, the pages already taken go back to its tail. */
  method PageAllocList(pool: seq<Page>, size: nat, front: bool) returns (ok: bool, gs: seq<Page>, rest: seq<Page>)
    requires AllRaw(pool)
    ensures ok <==> size <= PACKET_PAGE_SIZE * |pool|
    ensures AllRaw(rest) && Ids(rest) + Ids(gs) == Ids(pool)
    ensures if ok then AllInUse(gs) && Sum(gs) == size else gs == []
    ensures ok && 0 < size <= PACKET_PAGE_SIZE ==>
      |gs| == 1 && gs[0].off == if front then PACKET_PAGE_SIZE - size else 0
  {
    hide Sum, Ids, Flat;
    gs, rest := [], pool;
    EmptyList();
    var left := size;
    while left > 0
      invariant 0 <= left && AllRaw(rest) && AllInUse(gs) && |gs| + |rest| == |pool|
      invariant Sum(gs) + left == size && Ids(rest) + Ids(gs) == Ids(pool)
      invariant Sum(gs) <= PACKET_PAGE_SIZE * |gs| && (left > 0 ==> Sum(gs) == PACKET_PAGE_SIZE * |gs|)
      invariant 0 < size <= PACKET_PAGE_SIZE && gs != [] ==>
        left == 0 && |gs| == 1 && gs[0].off == if front then PACKET_PAGE_SIZE - size else 0
    {
      if rest == [] {
        Concat(rest, gs);
        return false, [], rest + gs;
      }
      var curr := Min(left, PACKET_PAGE_SIZE);
      var g := rest[0].(size := curr, off := if front then PACKET_PAGE_SIZE - curr else 0);
      HeadIds(rest);
      Cons(g, gs);
      Snoc(gs, g);
      gs := if front then [g] + gs else gs + [g];
      rest := rest[1..];
      left := left - curr;
    }
    ok := true;
  }

  lemma EmptyList()
    ensures Sum([]) == 0 && Ids([]) == multiset{} && Flat([]) == []
  {
  }

  lemma HeadIds(gs: seq<Page>)
    requires gs != []
    ensures Ids(gs) == multiset{gs[0].id} + Ids(gs[1..]) && Sum(gs) == gs[0].size + Sum(gs[1..])
    ensures AllInUse(gs) ==> Flat(gs) == Data(gs[0]) + Flat(gs[1..])
  {
  }

  /** packet_insert_page_list: page by page to the end, or in order to the front. */
  method InsertPageList(k: Packet, gs: seq<Page>, last: bool) returns (r: Packet)
    ensures r == k.(pages := if last then k.pages + gs else gs + k.pages, totalSize := k.totalSize + Sum(gs))
  {
    hide Sum, Linked;
    r := k;
    var i := 0;
    LinkedNone(k.pages, gs, last);
    while i < |gs|
      invariant i <= |gs|
      invariant r == k.(pages := Linked(k.pages, gs, i, last), totalSize := k.totalSize + Sum(gs[..i]))
    {
      SumNext(gs, i);
      LinkedNext(k.pages, gs, i, last);
      var pages := if last then r.pages + [gs[i]] else r.pages[..i] + [gs[i]] + r.pages[i..];
      r := r.(pages := pages, totalSize := r.totalSize + gs[i].size);
      i := i + 1;
    }
    LinkedAll(k.pages, gs, last);
  }

  /** `pages` with the first `i` of `gs` linked in, behind or in front. */
  function Linked(pages: seq<Page>, gs: seq<Page>, i: nat, last: bool): seq<Page>
    requires i <= |gs|
  {
    if last then pages + gs[..i] else gs[..i] + pages
  }

  lemma LinkedNone(pages: seq<Page>, gs: seq<Page>, last: bool)
    ensures Linked(pages, gs, 0, last) == pages && Sum(gs[..0]) == 0
  {
  }

  lemma LinkedNext(pages: seq<Page>, gs: seq<Page>, i: nat, last: bool)
    requires i < |gs|
    ensures var ps := Linked(pages, gs, i, last);
      && i <= |ps|
      && Linked(pages, gs, i + 1, last) == if last then ps + [gs[i]] else ps[..i] + [gs[i]] + ps[i..]
  {
    assert gs[..i + 1] == gs[..i] + [gs[i]];
  }

  lemma LinkedAll(pages: seq<Page>, gs: seq<Page>, last: bool)
    ensures Linked(pages, gs, |gs|, last) == (if last then pages + gs else gs + pages) && Sum(gs[..|gs|]) == Sum(gs)
  {
    assert gs[..|gs|] == gs;
  }

  /** Extending the first page to the front puts `n` bytes before the others. */
  lemma GrowHead(gs: seq<Page>, n: nat)
    requires AllInUse(gs) && gs != [] && n <= gs[0].off
    ensures var g := gs[0].(size := gs[0].size + n, off := gs[0].off - n); var gs' := gs[0 := g];
      && AllInUse(gs') && Sum(gs') == Sum(gs) + n && Ids(gs') == Ids(gs)
      && Flat(gs')[n..] == Flat(gs)
  {
    hide Sum, Ids, Flat;
    var g := gs[0].(size := gs[0].size + n, off := gs[0].off - n);
    var gs' := gs[0 := g];
    HeadIds(gs);
    HeadIds(gs');
    assert gs'[1..] == gs[1..];
    assert Data(g)[n..] == Data(gs[0]);
    assert (Data(g) + Flat(gs[1..]))[n..] == Data(g)[n..] + Flat(gs[1..]);
  }

  /** Cutting the first page from the front drops `n` bytes. */
  lemma CutHead(gs: seq<Page>, n: nat)
    requires AllInUse(gs) && gs != [] && n < gs[0].size
    ensures var g := gs[0].(off := gs[0].off + n, size := gs[0].size - n); var gs' := gs[0 := g];
      && AllInUse(gs') && Sum(gs') == Sum(gs) - n && Ids(gs') == Ids(gs)
      && Flat(gs') == Flat(gs)[n..]
  {
    hide Sum, Ids, Flat;
    var g := gs[0].(off := gs[0].off + n, size := gs[0].size - n);
    var gs' := gs[0 := g];
    HeadIds(gs);
    HeadIds(gs');
    assert gs'[1..] == gs[1..];
    assert Data(g) == Data(gs[0])[n..];
    assert (Data(gs[0]) + Flat(gs[1..]))[n..] == Data(gs[0])[n..] + Flat(gs[1..]);
  }

  lemma SingleSum(gs: seq<Page>)
    ensures |gs| == 1 ==> Sum(gs) == gs[0].size
  {
    if |gs| == 1 { assert gs == [gs[0]]; Single(gs[0]); }
  }

  /** curr_page_tail_free of the last page. */
  function TailFree(k: Packet): nat
    requires AllInUse(k.pages)
  {
    if k.pages == [] then 0
    else var g := k.pages[|k.pages| - 1]; PACKET_PAGE_SIZE - g.off - g.size
  }

  lemma NoEmptyPages(gs: seq<Page>)
    requires AllInUse(gs) && Sum(gs) == 0
    ensures gs == []
  {
  }

  lemma GrowTail(gs: seq<Page>, n: nat)
    requires AllInUse(gs) && gs != []
    requires var g := gs[|gs| - 1]; g.off + g.size + n <= PACKET_PAGE_SIZE
    ensures var t := |gs| - 1; var gs' := gs[t := gs[t].(size := gs[t].size + n)];
      && AllInUse(gs') && Sum(gs') == Sum(gs) + n && Ids(gs') == Ids(gs)
      && Flat(gs')[..|Flat(gs)|] == Flat(gs)
  {
    hide Sum, Ids, Flat;
    var t := |gs| - 1;
    var g := gs[t].(size := gs[t].size + n);
    Split(gs, t);
    Replace(gs, t, g);
    EmptyList();
    assert gs[t + 1..] == [];
    DataPrefix(g, gs[t].size);
    var pre := Flat(gs[..t]);
    assert (pre + Data(g) + [])[..|pre| + gs[t].size] == pre + Data(g)[..gs[t].size];
    assert pre + Data(gs[t]) + [] == pre + Data(gs[t]);
  }

  /** The page in which byte number `to` ends. */
  method FindTail(gs: seq<Page>, to: nat) returns (t: nat)
    requires AllInUse(gs) && 0 < to <= Sum(gs)
    ensures t < |gs| && Sum(gs[..t]) < to <= Sum(gs[..t + 1])
  {
    hide Sum;
    EmptyList();
    t := 0;
    var total := 0;
    assert gs[..0] == [] && gs[..|gs|] == gs;
    while t < |gs|
      invariant t <= |gs| && total == Sum(gs[..t]) < to
    {
      SumNext(gs, t);
      total := total + gs[t].size;
      if total >= to { return; }
      t := t + 1;
    }
  }

  /** Give the pages behind page `t` back to the pool, one by one. */
  method FreeAfter(gs: seq<Page>, pool: seq<Page>, t: nat) returns (kept: seq<Page>, rest: seq<Page>, removed: nat)
    requires AllInUse(gs) && AllRaw(pool) && t < |gs|
    ensures kept == gs[..t + 1] && AllRaw(rest)
    ensures removed + Sum(kept) == Sum(gs) && Ids(rest) + Ids(kept) == Ids(pool) + Ids(gs)
  {
    hide Sum, Ids, Flat;
    kept, rest, removed := gs, pool, 0;
    while |kept| > t + 1
      invariant t + 1 <= |kept| <= |gs| && kept[..t + 1] == gs[..t + 1] && AllInUse(kept) && AllRaw(rest)
      invariant removed + Sum(kept) == Sum(gs) && Ids(rest) + Ids(kept) == Ids(pool) + Ids(gs)
    {
      var g := kept[t + 1];
      Split(kept, t + 1);
      Concat(kept[..t + 1], kept[t + 2..]);
      Snoc(rest, g);
      kept, rest, removed := kept[..t + 1] + kept[t + 2..], rest + [g], removed + g.size;
    }
  }

  lemma DataPrefix(g: Page, n: nat)
    requires InUse(g) && 0 < n <= g.size
    ensures InUse(g.(size := n)) && Data(g.(size := n)) == Data(g)[..n]
  {
  }

  lemma CutTail(gs: seq<Page>, n: nat)
    requires AllInUse(gs) && gs != [] && n < gs[|gs| - 1].size
    ensures var t := |gs| - 1; var gs' := gs[t := gs[t].(size := gs[t].size - n)];
      && AllInUse(gs') && Sum(gs') == Sum(gs) - n && Ids(gs') == Ids(gs)
      && Flat(gs') == Flat(gs)[..Sum(gs) - n]
  {
    hide Sum, Ids, Flat;
    var t := |gs| - 1;
    var g := gs[t].(size := gs[t].size - n);
    Split(gs, t);
    Replace(gs, t, g);
    EmptyList();
    assert gs[t + 1..] == [];
    DataPrefix(gs[t], g.size);
    var pre := Flat(gs[..t]);
    assert (pre + Data(gs[t]) + [])[..|pre| + g.size] == pre + Data(gs[t])[..g.size];
    assert pre + Data(g) + [] == pre + Data(g);
  }

  lemma TwoConserve(free: seq<Page>, ks: seq<Packet>, i: nat, j: nat, d: Packet, s: Packet)
    requires Conserved(free, ks) && i < |ks| && j < |ks| && i != j
    requires Ids(d.pages) + Ids(s.pages) == Ids(ks[i].pages) + Ids(ks[j].pages)
    ensures Conserved(free, ks[i := d][j := s])
  {
    hide Ids, Owned, Universe;
    OwnedUpdate(ks, i, d);
    OwnedUpdate(ks[i := d], j, s);
    MultisetSwap2(Owned(ks), Owned(ks[i := d]), Owned(ks[i := d][j := s]),
                  Ids(ks[i].pages), Ids(ks[j].pages), Ids(d.pages), Ids(s.pages));
  }

  lemma MultisetSwap2(o: multiset<nat>, o1: multiset<nat>, o2: multiset<nat>,
                      a: multiset<nat>, b: multiset<nat>, x: multiset<nat>, y: multiset<nat>)
    requires o1 + a == o + x && o2 + b == o1 + y && x + y == a + b
    ensures o2 == o
  {
    forall id: nat ensures o2[id] == o[id] {
      assert (o1 + a)[id] == (o + x)[id];
      assert (o2 + b)[id] == (o1 + y)[id];
      assert (x + y)[id] == (a + b)[id];
    }
  }

  // ---------------------------------------------------------------- making bytes contiguous

  /** Move the data of a page to the start of its payload, byte by byte from the front. */
  method ShiftDown(g: Page) returns (r: Page)
    requires InUse(g)
    ensures InUse(r) && r.off == 0 && r.size == g.size && r.id == g.id && Data(r) == Data(g)
  {
    var pay, i := g.payload, 0;
    while i < g.size
      invariant i <= g.size && |pay| == PACKET_PAGE_SIZE
      invariant forall j :: 0 <= j < i ==> pay[j] == g.payload[g.off + j]
      invariant forall j :: i <= j < PACKET_PAGE_SIZE ==> pay[j] == g.payload[j]
    {
      pay := pay[i := pay[g.off + i]];
      i := i + 1;
    }
    r := g.(payload := pay, off := 0);
  }

  /** The first page with `n` bytes of the second appended. */
  function Absorb(f: Page, g: Page, n: nat): Page
    requires InUse(f) && InUse(g) && f.off == 0 && n <= g.size && f.size + n <= PACKET_PAGE_SIZE
  {
    Overwrite(f, f.size, g.payload[g.off..g.off + n]).(size := f.size + n)
  }

  lemma AbsorbData(f: Page, g: Page, n: nat)
    requires InUse(f) && InUse(g) && f.off == 0 && n <= g.size && f.size + n <= PACKET_PAGE_SIZE
    ensures InUse(Absorb(f, g, n)) && Data(Absorb(f, g, n)) == Data(f) + Data(g)[..n]
  {
  }

  /** Taking `n` bytes of the second page into the first changes no byte. */
  lemma AbsorbKeeps(f: Page, g: Page, gs: seq<Page>, n: nat)
    requires InUse(f) && InUse(g) && AllInUse(gs) && f.off == 0 && 0 < n <= g.size && f.size + n <= PACKET_PAGE_SIZE
    ensures var f' := Absorb(f, g, n); var g' := g.(off := g.off + n, size := g.size - n);
      var was, now := [f] + ([g] + gs), if n < g.size then [f'] + ([g'] + gs) else [f'] + gs;
      && AllInUse(was) && AllInUse(now) && Flat(now) == Flat(was) && Sum(now) == Sum(was)
      && Ids(was) == Ids(now) + (if n < g.size then multiset{} else multiset{g.id})
  {
    hide Flat, Sum, Ids, Data, Absorb;
    var f', g' := Absorb(f, g, n), g.(off := g.off + n, size := g.size - n);
    AbsorbData(f, g, n);
    AbsorbIds(f, g, n);
    Cons(g, gs);
    Cons(f, [g] + gs);
    if n < g.size {
      DataSuffix(g, n);
      Cons(g', gs);
      Cons(f', [g'] + gs);
      assert Data(g) == Data(g)[..n] + Data(g)[n..];
      assert (Data(f) + Data(g)[..n]) + (Data(g)[n..] + Flat(gs)) ==
        Data(f) + ((Data(g)[..n] + Data(g)[n..]) + Flat(gs));
    } else {
      Cons(f', gs);
      assert Data(g)[..n] == Data(g);
      assert (Data(f) + Data(g)) + Flat(gs) == Data(f) + (Data(g) + Flat(gs));
    }
  }

  lemma AbsorbIds(f: Page, g: Page, n: nat)
    requires InUse(f) && InUse(g) && f.off == 0 && n <= g.size && f.size + n <= PACKET_PAGE_SIZE
    ensures Absorb(f, g, n).id == f.id && Absorb(f, g, n).size == f.size + n && Absorb(f, g, n).off == 0
  {
  }

  lemma DataSuffix(g: Page, n: nat)
    requires InUse(g) && n < g.size
    ensures InUse(g.(off := g.off + n, size := g.size - n))
    ensures Data(g.(off := g.off + n, size := g.size - n)) == Data(g)[n..]
  {
  }

  /** The loop of packet_set_cont. */
  method Gather(gs: seq<Page>, pool: seq<Page>, size: nat) returns (r: seq<Page>, rest: seq<Page>)
    requires AllInUse(gs) && AllRaw(pool) && gs != [] && gs[0].size < size <= PACKET_PAGE_SIZE && size <= Sum(gs)
    ensures AllInUse(r) && AllRaw(rest) && Flat(r) == Flat(gs) && Sum(r) == Sum(gs)
    ensures Ids(rest) + Ids(r) == Ids(pool) + Ids(gs)
    ensures r != [] && r[0].size >= size
  {
    hide Flat, Sum, Ids, Data, Absorb;
    var f := ShiftDown(gs[0]);
    var tail := gs[1..];
    rest := pool;
    Cons(gs[0], tail);
    Cons(f, tail);
    assert gs == [gs[0]] + tail;
    while f.size < size
      invariant InUse(f) && AllInUse(tail) && AllRaw(rest) && f.off == 0 && f.size <= size
      invariant Flat([f] + tail) == Flat(gs) && Sum([f] + tail) == Sum(gs)
      invariant Ids(rest) + Ids([f] + tail) == Ids(pool) + Ids(gs)
      decreases |tail|, size - f.size
    {
      Cons(f, tail);
      EmptyList();
      var g := tail[0];
      assert tail == [g] + tail[1..];
      var n := Min(g.size, size - f.size);
      AbsorbKeeps(f, g, tail[1..], n);
      AbsorbIds(f, g, n);
      AbsorbData(f, g, n);
      f := Absorb(f, g, n);
      if n < g.size {
        tail := [g.(off := g.off + n, size := g.size - n)] + tail[1..];
      } else {
        Snoc(rest, g);
        rest := rest + [g];
        tail := tail[1..];
      }
    }
    Cons(f, tail);
    r := [f] + tail;
  }

  // ---------------------------------------------------------------- one packet, one cursor

  /** move_forward by `n`, or to the end of the current page. */
  function MoveForward(k: Packet, n: nat): (r: Packet)
    requires Placed(k) && k.pos < k.totalSize && n > 0
    ensures Placed(r) && r == k.(pos := r.pos, cur := r.cur, po := r.po)
    ensures k.cur < |k.pages| && k.po <= k.pages[k.cur].off + k.pages[k.cur].size
    ensures k.pos < r.pos == k.pos + Min(n, Remain(k.pages, k.cur, k.po))
  {
    CursorInside(k.pages, k.pos, k.cur, k.po);
    var m := Min(n, Remain(k.pages, k.cur, k.po));
    AdvanceCursor(k.pages, k.pos, k.cur, k.po, m);
    var (c, q) := Advance(k.pages, k.cur, k.po, m);
    k.(pos := k.pos + m, cur := c, po := q)
  }

  lemma Glue(s: seq<Byte>, a: nat, b: nat, c: nat)
    requires a <= b <= c <= |s|
    ensures s[a..b] + s[b..c] == s[a..c]
  {
  }

  lemma Spliced(was: seq<Byte>, done: seq<Byte>, chunk: seq<Byte>, a: nat)
    requires a + |done| + |chunk| <= |was|
    ensures var now := was[..a] + done + was[a + |done|..]; var q := a + |done|;
      now[..q] + chunk + now[q + |chunk|..] == was[..a] + (done + chunk) + was[q + |chunk|..]
  {
  }

  /** memcpy under the cursor, then move_forward. */
  function Put(k: Packet, chunk: seq<Byte>): (r: Packet)
    requires Placed(k) && k.cur < |k.pages| && 0 < |chunk| <= Remain(k.pages, k.cur, k.po)
    ensures Placed(r) && r.ref == k.ref && r.totalSize == k.totalSize && Ids(r.pages) == Ids(k.pages)
    ensures 0 <= k.pos && k.pos + |chunk| <= |Flat(k.pages)| && r.pos == k.pos + |chunk|
    ensures Flat(r.pages) == Flat(k.pages)[..k.pos] + chunk + Flat(k.pages)[k.pos + |chunk|..]
  {
    OverwriteAt(k.pages, k.pos, k.cur, k.po, chunk);
    CursorInside(k.pages, k.pos, k.cur, k.po);
    MoveForward(k.(pages := k.pages[k.cur := Overwrite(k.pages[k.cur], k.po, chunk)]), |chunk|)
  }

  /** The loop of packet_write: page by page under the cursor. */
  method WriteBytes(k: Packet, src: seq<Byte>) returns (r: Packet)
    requires Placed(k) && k.totalSize - k.pos >= |src|
    ensures Placed(r) && r.ref == k.ref && r.totalSize == k.totalSize && Ids(r.pages) == Ids(k.pages)
    ensures 0 <= k.pos && k.pos + |src| <= |Flat(k.pages)| && r.pos == k.pos + |src|
    ensures Flat(r.pages) == Flat(k.pages)[..k.pos] + src + Flat(k.pages)[k.pos + |src|..]
  {
    hide Ids, Sum, Flat, Cursor, Put, MoveForward;
    ghost var was := Flat(k.pages);
    CursorInside(k.pages, k.pos, k.cur, k.po);
    r := k;
    var done := 0;
    assert was[..k.pos] + src[..0] + was[k.pos..] == was;
    while done < |src|
      invariant done <= |src| && Placed(r) && r.ref == k.ref && r.totalSize == k.totalSize
      invariant Ids(r.pages) == Ids(k.pages) && r.pos == k.pos + done
      invariant Flat(r.pages) == was[..k.pos] + src[..done] + was[k.pos + done..]
    {
      CursorInside(r.pages, r.pos, r.cur, r.po);
      var n := Min(|src| - done, Remain(r.pages, r.cur, r.po));
      var chunk := src[done..done + n];
      Spliced(was, src[..done], chunk, k.pos);
      assert src[..done] + chunk == src[..done + n];
      r := Put(r, chunk);
      done := done + n;
    }
    assert src[..done] == src;
  }

  /** One round of packet_read: as much as the current page holds. */
  method ReadChunk(k: Packet, left: nat) returns (r: Packet, chunk: seq<Byte>)
    requires Placed(k) && 0 < left <= k.totalSize - k.pos
    ensures 0 < |chunk| <= left
    ensures Placed(r) && r == k.(pos := k.pos + |chunk|, cur := r.cur, po := r.po)
    ensures 0 <= k.pos && k.pos + |chunk| <= |Flat(k.pages)| && chunk == Flat(k.pages)[k.pos..k.pos + |chunk|]
  {
    hide Ids, Sum, Flat, Cursor, MoveForward;
    CursorInside(k.pages, k.pos, k.cur, k.po);
    var n := Min(left, Remain(k.pages, k.cur, k.po));
    UnderCursor(k.pages, k.pos, k.cur, k.po, n);
    chunk := k.pages[k.cur].payload[k.po..k.po + n];
    r := MoveForward(k, n);
  }

  /** The loop of packet_read. */
  method ReadBytes(k: Packet, size: nat) returns (r: Packet, out: seq<Byte>)
    requires Placed(k) && k.totalSize - k.pos >= size
    ensures Placed(r) && r == k.(pos := k.pos + size, cur := r.cur, po := r.po)
    ensures 0 <= k.pos && k.pos + size <= |Flat(k.pages)| && out == Flat(k.pages)[k.pos..k.pos + size]
  {
    hide Flat, Placed;
    PlacedInside(k);
    ghost var was := Flat(k.pages);
    r, out := k, [];
    var done := 0;
    while done < size
      invariant 0 <= done <= size && Placed(r) && r == k.(pos := k.pos + done, cur := r.cur, po := r.po)
      invariant out == was[k.pos..k.pos + done]
    {
      var chunk;
      r, chunk := ReadChunk(r, size - done);
      Glue(was, k.pos, k.pos + done, k.pos + done + |chunk|);
      out := out + chunk;
      done := done + |chunk|;
    }
  }

  /** One round of packet_copy: as much as both current pages allow. */
  method CopyChunk(d: Packet, s: Packet, left: nat) returns (d': Packet, s': Packet, n: nat)
    requires Placed(d) && Placed(s) && left > 0 && d.totalSize - d.pos >= left && s.totalSize - s.pos >= left
    ensures 0 < n <= left
    ensures Placed(d') && d'.ref == d.ref && d'.totalSize == d.totalSize && Ids(d'.pages) == Ids(d.pages)
    ensures Placed(s') && s' == s.(pos := s.pos + n, cur := s'.cur, po := s'.po) && d'.pos == d.pos + n
    ensures 0 <= d.pos && d.pos + n <= |Flat(d.pages)| && 0 <= s.pos && s.pos + n <= |Flat(s.pages)|
    ensures Flat(d'.pages) == Flat(d.pages)[..d.pos] + Flat(s.pages)[s.pos..s.pos + n] + Flat(d.pages)[d.pos + n..]
  {
    hide Ids, Sum, Flat, Cursor, Put, MoveForward;
    CursorInside(d.pages, d.pos, d.cur, d.po);
    CursorInside(s.pages, s.pos, s.cur, s.po);
    n := Min(Min(Remain(d.pages, d.cur, d.po), Remain(s.pages, s.cur, s.po)), left);
    UnderCursor(s.pages, s.pos, s.cur, s.po, n);
    d' := Put(d, s.pages[s.cur].payload[s.po..s.po + n]);
    s' := MoveForward(s, n);
  }

  lemma PlacedInside(k: Packet)
    requires Placed(k)
    ensures AllInUse(k.pages) && 0 <= k.pos <= k.totalSize == |Flat(k.pages)|
  {
    hide Ids, Sum, Flat, Cursor;
    CursorInside(k.pages, k.pos, k.cur, k.po);
  }

  /** Copying the next `n` bytes behind the first `done`. */
  lemma CopiedMore(dw: seq<Byte>, sw: seq<Byte>, a: nat, b: nat, done: nat, n: nat, now: seq<Byte>)
    requires a + done + n <= |dw| && b + done + n <= |sw| && now == dw[..a] + sw[b..b + done] + dw[a + done..]
    ensures now[..a + done] + sw[b + done..b + done + n] + now[a + done + n..]
         == dw[..a] + sw[b..b + done + n] + dw[a + done + n..]
  {
    Spliced(dw, sw[b..b + done], sw[b + done..b + done + n], a);
    Glue(sw, b, b + done, b + done + n);
  }

  /** The loop of packet_copy. */
  method CopyBytes(d0: Packet, s0: Packet, size: nat) returns (d: Packet, s: Packet)
    requires Placed(d0) && Placed(s0) && d0.totalSize - d0.pos >= size && s0.totalSize - s0.pos >= size
    ensures Placed(d) && d.ref == d0.ref && d.totalSize == d0.totalSize && Ids(d.pages) == Ids(d0.pages)
    ensures Placed(s) && s == s0.(pos := s0.pos + size, cur := s.cur, po := s.po) && d.pos == d0.pos + size
    ensures 0 <= d0.pos && d0.pos + size <= |Flat(d0.pages)| && 0 <= s0.pos && s0.pos + size <= |Flat(s0.pages)|
    ensures Flat(d.pages) ==
      Flat(d0.pages)[..d0.pos] + Flat(s0.pages)[s0.pos..s0.pos + size] + Flat(d0.pages)[d0.pos + size..]
  {
    hide Ids, Flat, Placed;
    PlacedInside(d0);
    PlacedInside(s0);
    ghost var dw, sw, a, b := Flat(d0.pages), Flat(s0.pages), d0.pos, s0.pos;
    assert dw[..a] + sw[b..b] + dw[a..] == dw;
    d, s := d0, s0;
    var done := 0;
    while done < size
      invariant 0 <= done <= size && Placed(d) && Placed(s) && AllInUse(d.pages) && AllInUse(s.pages)
      invariant s == s0.(pos := b + done, cur := s.cur, po := s.po)
      invariant d.ref == d0.ref && d.totalSize == d0.totalSize && d.pos == a + done && Ids(d.pages) == Ids(d0.pages)
      invariant Flat(d.pages) == dw[..a] + sw[b..b + done] + dw[a + done..]
    {
      ghost var now := Flat(d.pages);
      PlacedInside(d);
      PlacedInside(s);
      var n;
      d, s, n := CopyChunk(d, s, size - done);
      PlacedInside(d);
      CopiedMore(dw, sw, a, b, done, n, now);
      done := done + n;
    }
  }

  /** The loop of packet_checksum16. The chained sums equal one sum over the flat bytes. */
  method SumBytes(k: Packet, size: nat, preSum: nat) returns (r: Packet, sum: nat)
    requires Placed(k) && k.totalSize - k.pos >= size && preSum < C.U16
    ensures Placed(r) && r == k.(pos := k.pos + size, cur := r.cur, po := r.po)
    ensures 0 <= k.pos && k.pos + size <= |Flat(k.pages)|
    ensures sum == C.Fold(preSum + C.Raw(Flat(k.pages)[k.pos..k.pos + size], false))
  {
    hide Ids, Sum, Flat, Cursor, C.Raw, C.Fold;
    ghost var was := Flat(k.pages);
    CursorInside(k.pages, k.pos, k.cur, k.po);
    r, sum := k, preSum;
    var done := 0;
    FoldSmall(preSum);
    C.RawEmpty(false);
    assert was[k.pos..k.pos] == [];
    while done < size
      invariant 0 <= done <= size && Placed(r) && r == k.(pos := k.pos + done, cur := r.cur, po := r.po)
      invariant sum == C.Fold(preSum + C.Raw(was[k.pos..k.pos + done], false))
    {
      CursorInside(r.pages, r.pos, r.cur, r.po);
      var n := Min(size - done, Remain(r.pages, r.cur, r.po));
      UnderCursor(r.pages, r.pos, r.cur, r.po, n);
      var chunk := r.pages[r.cur].payload[r.po..r.po + n];
      ChainSums(preSum, was[k.pos..k.pos + done], chunk);
      assert was[k.pos..k.pos + done] + chunk == was[k.pos..k.pos + done + n];
      sum := C.Checksum16(done, chunk, sum, false);
      r := MoveForward(r, n);
      done := done + n;
    }
  }

  lemma ChainSums(preSum: nat, done: seq<Byte>, chunk: seq<Byte>)
    ensures C.Fold(C.Fold(preSum + C.Raw(done, false)) + C.Raw(chunk, C.Odd(|done|)))
      == C.Fold(preSum + C.Raw(done + chunk, false))
  {
    hide C.Raw, C.Fold;
    C.RawConcat(done, chunk, false);
    C.FoldAbsorb(preSum + C.Raw(done, false), C.Raw(chunk, C.Odd(|done|)));
  }

  lemma FoldSmall(x: nat)
    requires x < C.U16
    ensures C.Fold(x) == x
  {
  }

  /** The four chained sums over the pseudo-header are one sum over its twelve bytes. */
  lemma PseudoSum(src: seq<Byte>, dst: seq<Byte>, zp: seq<Byte>, len: seq<Byte>)
    requires |src| == |dst| == 4 && |zp| == |len| == 2
    ensures C.Fold(C.Fold(C.Fold(C.Fold(C.Raw(src, false)) + C.Raw(dst, false)) + C.Raw(zp, false)) + C.Raw(len, false))
      == C.Fold(C.Raw(src + dst + zp + len, false))
  {
    hide C.Raw, C.Fold;
    C.RawConcat(src, dst, false);
    C.RawConcat(src + dst, zp, false);
    C.RawConcat(src + dst + zp, len, false);
    C.FoldAbsorb(C.Raw(src, false), C.Raw(dst, false));
    C.FoldAbsorb(C.Raw(src + dst, false), C.Raw(zp, false));
    C.FoldAbsorb(C.Raw(src + dst + zp, false), C.Raw(len, false));
  }

  // ---------------------------------------------------------------- the module state

  /** The free packets are exactly those without references, each once, and own no page. */
  predicate SlotsOk(freePackets: seq<nat>, ks: seq<Packet>) {
    && (forall i :: 0 <= i < |freePackets| ==> freePackets[i] < |ks|)
    && (forall i :: 0 <= i < |ks| ==> (ks[i].ref == 0 <==> i in freePackets))
    && (forall i :: 0 <= i < |ks| && ks[i].ref == 0 ==> ks[i].pages == [])
    && (forall i, j :: 0 <= i < j < |freePackets| ==> freePackets[i] != freePackets[j])
  }

  lemma SlotsKept(freePackets: seq<nat>, ks: seq<Packet>, p: nat, k: Packet)
    requires SlotsOk(freePackets, ks) && p < |ks| && ks[p].ref > 0 && k.ref > 0
    ensures SlotsOk(freePackets, ks[p := k])
  {
  }

  function EmptyPackets(): seq<Packet> {
    seq(PACKET_BUFFER_SIZE, i => Packet(0, [], 0, 0, 0, 0))
  }

  function AllSlots(): seq<nat> {
    seq(PACKET_BUFFER_SIZE, i => i)
  }

  /** memory_pool_init over the array of pages: every page once, in order. */
  method BuildPool(n: nat) returns (pages: seq<Page>)
    ensures |pages| == n && AllRaw(pages) && Ids(pages) == Universe(n)
  {
    hide Ids, Universe;
    NoPages();
    pages := [];
    var zeros: seq<Byte> := seq(PACKET_PAGE_SIZE, _ => 0);
    for i := 0 to n
      invariant |pages| == i && AllRaw(pages) && Ids(pages) == Universe(i)
    {
      var g := Page(i, zeros, 0, 0);
      Snoc(pages, g);
      OneMorePage(i);
      pages := pages + [g];
    }
  }

  lemma NoPages()
    ensures Ids([]) == Universe(0)
  {
  }

  lemma OneMorePage(n: nat)
    ensures Universe(n + 1) == Universe(n) + multiset{n}
  {
  }

  lemma AllFree(pages: seq<Page>)
    requires Ids(pages) == Universe(PACKET_PAGE_CNT)
    ensures SlotsOk(AllSlots(), EmptyPackets()) && Conserved(pages, EmptyPackets())
    ensures |EmptyPackets()| == PACKET_BUFFER_SIZE
  {
    hide Universe, Ids, Owned;
    forall i | 0 <= i < PACKET_BUFFER_SIZE ensures i in AllSlots() { assert AllSlots()[i] == i; }
    NothingOwned(EmptyPackets());
  }

  lemma SlotTaken(fs: seq<nat>, ks: seq<Packet>)
    requires SlotsOk(fs, ks) && fs != []
    ensures fs[0] < |ks| && ks[fs[0]].ref == 0 && ks[fs[0]].pages == []
  {
    assert fs[0] in fs;
  }

  lemma SlotUsed(fs: seq<nat>, ks: seq<Packet>, k: Packet)
    requires SlotsOk(fs, ks) && fs != [] && fs[0] < |ks| && k.ref > 0
    ensures SlotsOk(fs[1..], ks[fs[0] := k])
  {
    forall i | 0 <= i < |ks| && i != fs[0] ensures i in fs <==> i in fs[1..] {
      if i in fs { var j :| 0 <= j < |fs| && fs[j] == i; assert fs[1..][j - 1] == i; }
    }
  }

  lemma SlotReturned(fs: seq<nat>, ks: seq<Packet>)
    requires SlotsOk(fs, ks) && fs != []
    ensures SlotsOk(fs[1..] + [fs[0]], ks)
  {
    forall i | 0 <= i < |ks| ensures i in fs <==> i in fs[1..] + [fs[0]] {
      if i in fs && i != fs[0] { var j :| 0 <= j < |fs| && fs[j] == i; assert fs[1..][j - 1] == i; }
    }
  }

  lemma SlotFreed(fs: seq<nat>, ks: seq<Packet>, p: nat, k: Packet)
    requires SlotsOk(fs, ks) && p < |ks| && ks[p].ref > 0 && k.ref == 0 && k.pages == []
    ensures SlotsOk(fs + [p], ks[p := k])
  {
    assert p !in fs;
  }

  lemma ReturnConserves(free: seq<Page>, ks: seq<Packet>, rest: seq<Page>)
    requires Conserved(free, ks) && Ids(rest) == Ids(free)
    ensures Conserved(rest, ks)
  {
    hide Ids, Owned, Universe;
  }

  class Buffers {
    var free: seq<Page>
    var freePackets: seq<nat>
    var packets: seq<Packet>

    ghost predicate Valid()
      reads this
    {
      && |packets| == PACKET_BUFFER_SIZE
      && AllRaw(free) && Conserved(free, packets) && SlotsOk(freePackets, packets)
    }

    /** Only packet `p` changed. */
    twostate predicate OnlyAt(p: nat)
      reads this
    {
      && p < |packets| == |old(packets)|
      && packets == old(packets)[p := packets[p]]
    }

    /** packet_buffer_init: all pages and packets free. */
    constructor ()
      ensures Valid() && |free| == PACKET_PAGE_CNT && packets == EmptyPackets()
    {
      hide SlotsOk, Conserved, Ids, Universe, AllRaw, EmptyPackets, AllSlots;
      var pages := BuildPool(PACKET_PAGE_CNT);
      free := pages;
      freePackets := AllSlots();
      packets := EmptyPackets();
      AllFree(pages);
    }

    /** Storing an edited packet and the pages it gave back keeps the pool whole. */
    method Store(p: nat, k: Packet, pool: seq<Page>)
      requires Valid() && p < |packets| && AllRaw(pool)
      requires k.ref > 0 && packets[p].ref > 0
      requires Ids(pool) + Ids(k.pages) == Ids(free) + Ids(packets[p].pages)
      modifies this`free, this`packets
      ensures Valid() && free == pool && packets == old(packets)[p := k]
    {
      hide Conserved, SlotsOk, Ids;
      StoreConserves(free, packets, p, k, pool);
      SlotsKept(freePackets, packets, p, k);
      free := pool;
      packets := packets[p := k];
    }

    /** packet_alloc. It fails exactly when no packet is left or the pages do not suffice, and
        then gives back whatever it took. */
    method Alloc(size: nat) returns (r: Option<nat>)
      requires Valid()
      modifies this
      ensures Valid()
      ensures r.Some? <==> old(freePackets) != [] && size <= PACKET_PAGE_SIZE * |old(free)|
      ensures r.None? ==> packets == old(packets)
      ensures r.Some? ==> var p := r.value;
        && OnlyAt(p) && old(packets)[p].ref == 0
        && Placed(packets[p]) && packets[p].ref == 1 && packets[p].totalSize == size && packets[p].pos == 0
    {
      hide Conserved, SlotsOk, Ids, Sum, Flat;
      if freePackets == [] { return None; }
      var p := freePackets[0];
      SlotTaken(freePackets, packets);
      var k := Packet(0, [], 1, 0, 0, 0);
      var ok, gs, rest := PageAllocList(free, size, false);
      EmptyList();
      if !ok {
        SlotReturned(freePackets, packets);
        ReturnConserves(free, packets, rest);
        freePackets := freePackets[1..] + [p];
        free := rest;
        return None;
      }
      k := InsertPageList(k, gs, true);
      assert [] + gs == gs;
      k := Reset(k);
      StoreConserves(free, packets, p, k, rest);
      SlotUsed(freePackets, packets, k);
      freePackets := freePackets[1..];
      free := rest;
      packets := packets[p := k];
      r := Some(p);
    }

    /** packet_inc_ref */
    method IncRef(p: nat)
      requires Valid() && p < |packets| && packets[p].ref > 0
      modifies this`packets, this`free
      ensures Valid() && free == old(free)
      ensures packets == old(packets)[p := old(packets)[p].(ref := old(packets)[p].ref + 1)]
    {
      hide Conserved, SlotsOk, Ids;
      Store(p, packets[p].(ref := packets[p].ref + 1), free);
    }

    /** packet_free: the last reference gives the pages and the packet back. */
    method Free(p: nat)
      requires Valid() && p < |packets| && packets[p].ref > 0 && AllRaw(packets[p].pages)
      modifies this
      ensures Valid() && OnlyAt(p) && packets[p].ref == old(packets)[p].ref - 1
      ensures packets[p].totalSize == old(packets)[p].totalSize
      ensures if packets[p].ref > 0 then packets[p] == old(packets)[p].(ref := packets[p].ref) && free == old(free)
              else packets[p].pages == [] && free == old(free) + old(packets)[p].pages
    {
      hide Conserved, SlotsOk, Ids;
      var k := packets[p];
      if k.ref > 1 {
        Store(p, k.(ref := k.ref - 1), free);
      } else {
        var k' := k.(ref := 0, pages := []);
        Concat(free, k.pages);
        EmptyList();
        StoreConserves(free, packets, p, k', free + k.pages);
        SlotFreed(freePackets, packets, p, k');
        free := free + k.pages;
        freePackets := freePackets + [p];
        packets := packets[p := k'];
      }
    }

    // ------------------------------------------------------------ structural edits

    /** The branch of packet_add_header that fills the head page first and then adds pages. */
    method AddLoose(p: nat, size: nat) returns (err: NetErr)
      requires Valid() && p < |packets| && Sound(packets[p]) && packets[p].pages != []
      requires size > packets[p].pages[0].off
      modifies this`packets, this`free
      ensures Valid() && OnlyAt(p) && Sound(packets[p])
      ensures err == if size - old(packets)[p].pages[0].off > PACKET_PAGE_SIZE * |old(free)| then ErrMem else Ok
      ensures var was, now, resv := Bytes(old(packets)[p]), Bytes(packets[p]), old(packets)[p].pages[0].off;
        var grown := if err == Ok then size else resv;
        |now| == grown + |was| && now[grown..] == was
    {
      hide Conserved, SlotsOk, Ids, Sum, Flat, Data;
      var k := packets[p];
      var g := k.pages[0];
      var resv := g.off;
      HeadIds(k.pages);
      GrowHead(k.pages, resv);
      k := k.(pages := k.pages[0 := g.(size := g.size + resv, off := 0)], totalSize := k.totalSize + resv);
      var ok, gs, rest := PageAllocList(free, size - resv, true);
      if !ok {
        Store(p, k, free);
        return ErrMem;
      }
      Concat(gs, k.pages);
      k := InsertPageList(k, gs, false);
      Store(p, k, rest);
      err := Ok;
    }

    /** packet_add_header: room for `size` bytes in front. With `cont` the header lies in one
        page, and a failure changes nothing; without it a failed allocation leaves the packet
        grown by the space that was reserved in its first page. */
    method AddHeader(p: nat, size: nat, cont: bool) returns (err: NetErr)
      requires Valid() && p < |packets| && Sound(packets[p]) && packets[p].pages != []
      modifies this`packets, this`free
      ensures Valid() && OnlyAt(p) && Sound(packets[p])
      ensures err in {Ok, ErrSize, ErrMem} && (err == ErrSize <==> cont && size > PACKET_PAGE_SIZE)
      ensures var was, now, resv := Bytes(old(packets)[p]), Bytes(packets[p]), old(packets)[p].pages[0].off;
        var grown := if err == Ok then size else if cont then 0 else resv;
        |now| == grown + |was| && now[grown..] == was
      ensures cont && err == Ok ==> packets[p].pages[0].size >= size
      ensures cont && err != Ok ==> packets == old(packets)
      ensures err == ErrMem <==>
        !(cont && size > PACKET_PAGE_SIZE) &&
        size - (if cont && size > old(packets)[p].pages[0].off then 0 else old(packets)[p].pages[0].off)
          > PACKET_PAGE_SIZE * |old(free)|
    {
      hide Conserved, SlotsOk, Ids, Sum, Flat, Data;
      var k := packets[p];
      var g := k.pages[0];
      var resv := g.off;
      HeadIds(k.pages);
      if size <= resv {
        GrowHead(k.pages, size);
        k := k.(pages := k.pages[0 := g.(size := g.size + size, off := g.off - size)], totalSize := k.totalSize + size);
        Store(p, k, free);
        return Ok;
      }
      if cont {
        if size > PACKET_PAGE_SIZE { return ErrSize; }
        var ok, gs, rest := PageAllocList(free, size, true);
        if !ok { return ErrMem; }
        Concat(gs, k.pages);
        SingleSum(gs);
        k := InsertPageList(k, gs, false);
        Store(p, k, rest);
      } else {
        err := AddLoose(p, size);
        return;
      }
      err := Ok;
    }

    /** packet_remove_header: whole pages go back to the pool, the next one is cut. */
    method RemoveHeader(p: nat, size: nat)
      requires Valid() && p < |packets| && Sound(packets[p]) && size <= packets[p].totalSize
      modifies this`packets, this`free
      ensures Valid() && OnlyAt(p) && Sound(packets[p])
      ensures Bytes(packets[p]) == Bytes(old(packets)[p])[size..]
    {
      hide Conserved, SlotsOk, Ids, Sum, Flat, Data;
      var k, pool, left := packets[p], free, size;
      ghost var was := Flat(k.pages);
      while left > 0
        invariant AllRaw(pool) && Sound(k) && k == packets[p].(pages := k.pages, totalSize := k.totalSize)
        invariant 0 <= left <= size && Flat(k.pages) == was[size - left..]
        invariant Ids(pool) + Ids(k.pages) == Ids(free) + Ids(packets[p].pages)
        decreases left
        modifies {}
      {
        EmptyList();
        var g := k.pages[0];
        HeadIds(k.pages);
        if left < g.size {
          CutHead(k.pages, left);
          assert was[size - left..][left..] == was[size..];
          k := k.(pages := k.pages[0 := g.(off := g.off + left, size := g.size - left)],
            totalSize := k.totalSize - left);
          left := 0;
        } else {
          Snoc(pool, g);
          assert was[size - left..][g.size..] == was[size - (left - g.size)..];
          k := k.(pages := k.pages[1..], totalSize := k.totalSize - g.size);
          pool := pool + [g];
          left := left - g.size;
        }
      }
      Store(p, k, pool);
    }

    /** packet_resize. Growing keeps all bytes as a prefix and fails, changing nothing, exactly
        when the pages do not suffice; shrinking keeps a prefix and never fails. */
    method Resize(p: nat, to: nat) returns (err: NetErr)
      requires Valid() && p < |packets| && Sound(packets[p])
      modifies this`packets, this`free
      ensures Valid() && OnlyAt(p) && Sound(packets[p]) && err in {Ok, ErrMem}
      ensures err == Ok ==> packets[p].totalSize == to
      ensures err == Ok && to <= |Bytes(old(packets)[p])| ==> Bytes(packets[p]) == Bytes(old(packets)[p])[..to]
      ensures err == Ok && to >= |Bytes(old(packets)[p])| ==>
        Bytes(packets[p])[..|Bytes(old(packets)[p])|] == Bytes(old(packets)[p])
      ensures err == ErrMem <==>
        to - old(packets)[p].totalSize - TailFree(old(packets)[p]) > PACKET_PAGE_SIZE * |old(free)|
      ensures err == ErrMem ==> packets == old(packets)
    {
      hide Conserved, SlotsOk, Ids, Sum, Flat, Data;
      var k := packets[p];
      EmptyList();
      if to == k.totalSize {
        assert Flat(k.pages)[..to] == Flat(k.pages);
        return Ok;
      }
      if k.totalSize == 0 {
        NoEmptyPages(k.pages);
        var ok, gs, rest := PageAllocList(free, to, false);
        if !ok { return ErrMem; }
        k := InsertPageList(k, gs, true);
        assert [] + gs == gs;
        Store(p, k, rest);
      } else if to == 0 {
        Concat(free, k.pages);
        Store(p, k.(pages := [], totalSize := 0), free + k.pages);
      } else if to > k.totalSize {
        err := Grow(p, to);
        return;
      } else {
        Shrink(p, to);
      }
      err := Ok;
    }

    method Grow(p: nat, to: nat) returns (err: NetErr)
      requires Valid() && p < |packets| && Sound(packets[p]) && 0 < packets[p].totalSize < to
      modifies this`packets, this`free
      ensures Valid() && OnlyAt(p) && Sound(packets[p]) && err in {Ok, ErrMem}
      ensures err == Ok ==> packets[p].totalSize == to
      ensures err == Ok ==> Bytes(packets[p])[..|Bytes(old(packets)[p])|] == Bytes(old(packets)[p])
      ensures err == ErrMem <==>
        to - old(packets)[p].totalSize - TailFree(old(packets)[p]) > PACKET_PAGE_SIZE * |old(free)|
      ensures err == ErrMem ==> packets == old(packets)
    {
      hide Conserved, SlotsOk, Ids, Sum, Flat, Data;
      var k := packets[p];
      EmptyList();
      var t := |k.pages| - 1;
      var inc, remain := to - k.totalSize, TailFree(k);
      if remain >= inc {
        GrowTail(k.pages, inc);
        k := k.(pages := k.pages[t := k.pages[t].(size := k.pages[t].size + inc)], totalSize := to);
        Store(p, k, free);
      } else {
        var ok, gs, rest := PageAllocList(free, inc - remain, false);
        if !ok { return ErrMem; }
        GrowTail(k.pages, remain);
        ghost var was := Flat(k.pages);
        k := k.(pages := k.pages[t := k.pages[t].(size := k.pages[t].size + remain)],
                totalSize := k.totalSize + remain);
        Concat(k.pages, gs);
        assert (Flat(k.pages) + Flat(gs))[..|was|] == Flat(k.pages)[..|was|];
        k := InsertPageList(k, gs, true);
        Store(p, k, rest);
      }
      err := Ok;
    }

    method Shrink(p: nat, to: nat)
      requires Valid() && p < |packets| && Sound(packets[p]) && 0 < to < packets[p].totalSize
      modifies this`packets, this`free
      ensures Valid() && OnlyAt(p) && Sound(packets[p]) && packets[p].totalSize == to
      ensures Bytes(packets[p]) == Bytes(old(packets)[p])[..to]
    {
      hide Conserved, SlotsOk, Ids, Sum, Flat, Data;
      var k := packets[p];
      var t := FindTail(k.pages, to);
      SumNext(k.pages, t);
      var gs, pool, removed := FreeAfter(k.pages, free, t);
      Prefixes(k.pages, t + 1);
      var cut := k.totalSize - removed - to;
      CutTail(gs, cut);
      assert Flat(k.pages)[..to] == Flat(gs)[..to];
      k := k.(pages := gs[t := gs[t].(size := gs[t].size - cut)], totalSize := to);
      Store(p, k, pool);
    }

    /** packet_join: the pages of `src` move to the end of `dest`, and `src` is released. */
    method Join(dest: nat, src: nat)
      requires Valid() && dest < |packets| && src < |packets| && dest != src
      requires Sound(packets[dest]) && Sound(packets[src])
      modifies this
      ensures Valid() && Sound(packets[dest])
      ensures Bytes(packets[dest]) == Bytes(old(packets)[dest]) + Bytes(old(packets)[src])
      ensures |packets| == |old(packets)| && packets[src].ref == old(packets)[src].ref - 1 && packets[src].pages == []
      ensures packets[src].totalSize == old(packets)[src].totalSize
      ensures Sound(packets[src]) <==> old(packets)[src].ref > 1 && old(packets)[src].totalSize == 0
      ensures forall i :: 0 <= i < |packets| && i != dest && i != src ==> packets[i] == old(packets)[i]
    {
      hide Conserved, SlotsOk, Ids, Sum, Flat, Data;
      var d, s := packets[dest], packets[src];
      EmptyList();
      assert Flat(d.pages) + Flat([]) == Flat(d.pages);
      while s.pages != []
        invariant Sound(d) && AllInUse(s.pages)
        invariant d == packets[dest].(pages := d.pages, totalSize := d.totalSize)
        invariant s == packets[src].(pages := s.pages)
        invariant Ids(d.pages) + Ids(s.pages) == Ids(packets[dest].pages) + Ids(packets[src].pages)
        invariant Flat(d.pages) + Flat(s.pages) == Flat(packets[dest].pages) + Flat(packets[src].pages)
        decreases |s.pages|
        modifies {}
      {
        var g := s.pages[0];
        HeadIds(s.pages);
        Snoc(d.pages, g);
        Single(g);
        assert (Flat(d.pages) + Data(g)) + Flat(s.pages[1..]) == Flat(d.pages) + (Data(g) + Flat(s.pages[1..]));
        s := s.(pages := s.pages[1..]);
        d := InsertPageList(d, [g], true);
      }
      StoreTwo(dest, src, d, s);
      assert Flat(d.pages) + [] == Flat(d.pages);
      Free(src);
    }

    method StoreTwo(i: nat, j: nat, d: Packet, s: Packet)
      requires Valid() && i < |packets| && j < |packets| && i != j
      requires packets[i].ref > 0 && packets[j].ref > 0 && d.ref > 0 && s.ref > 0
      requires Ids(d.pages) + Ids(s.pages) == Ids(packets[i].pages) + Ids(packets[j].pages)
      modifies this`packets
      ensures Valid() && packets == old(packets)[i := d][j := s]
    {
      hide Conserved, SlotsOk, Ids;
      SlotsKept(freePackets, packets, i, d);
      SlotsKept(freePackets, packets[i := d], j, s);
      TwoConserve(free, packets, i, j, d, s);
      packets := packets[i := d][j := s];
    }

    /** packet_set_cont: the first `size` bytes end up in one page and no byte changes. */
    method SetCont(p: nat, size: nat) returns (err: NetErr)
      requires Valid() && p < |packets| && Sound(packets[p]) && (packets[p].pages != [] || size > 0)
      modifies this`packets, this`free
      ensures Valid() && OnlyAt(p) && Sound(packets[p]) && Bytes(packets[p]) == Bytes(old(packets)[p])
      ensures err in {Ok, ErrSize} && (err == Ok <==> size <= old(packets)[p].totalSize && size <= PACKET_PAGE_SIZE)
      ensures err == Ok ==> packets[p].pages != [] && packets[p].pages[0].size >= size
    {
      hide Conserved, SlotsOk, Ids, Sum, Flat, Data;
      var k := packets[p];
      EmptyList();
      if size > k.totalSize || size > PACKET_PAGE_SIZE { return ErrSize; }
      if size <= k.pages[0].size { return Ok; }
      var gs, rest := Gather(k.pages, free, size);
      Store(p, k.(pages := gs), rest);
      err := Ok;
    }

    // ------------------------------------------------------------ cursor

    /** packet_reset_pos */
    method ResetPos(p: nat)
      requires Valid() && p < |packets| && Sound(packets[p])
      modifies this`packets, this`free
      ensures Valid() && packets == old(packets)[p := Reset(old(packets)[p])] && Placed(packets[p])
    {
      hide Conserved, SlotsOk, Ids;
      Store(p, Reset(packets[p]), free);
    }

    /** packet_seek: from any position to any offset inside the packet. */
    method Seek(p: nat, offset: int) returns (err: NetErr)
      requires Valid() && p < |packets| && Placed(packets[p])
      modifies this`packets, this`free
      ensures Valid() && OnlyAt(p) && Placed(packets[p]) && packets[p].pages == old(packets)[p].pages
      ensures err in {Ok, ErrSize}
      ensures err == Ok <==> offset == old(packets)[p].pos || 0 <= offset < old(packets)[p].totalSize
      ensures packets[p].pos == if err == Ok then offset else old(packets)[p].pos
    {
      hide Conserved, SlotsOk, Ids, Sum, Flat, Cursor;
      var k := packets[p];
      if k.pos == offset { return Ok; }
      if offset < 0 || offset >= k.totalSize { return ErrSize; }
      CursorInside(k.pages, k.pos, k.cur, k.po);
      if offset < k.pos { k := Reset(k); }
      var move := offset - k.pos;
      while move > 0
        invariant Placed(k) && k == packets[p].(pos := k.pos, cur := k.cur, po := k.po)
        invariant move == offset - k.pos >= 0
        modifies {}
      {
        k := MoveForward(k, move);
        move := offset - k.pos;
      }
      Store(p, k, free);
      err := Ok;
    }

    /** packet_write: exactly [pos, pos + n) is replaced, and the cursor stands behind it. */
    method Write(p: nat, src: seq<Byte>) returns (err: NetErr)
      requires Valid() && p < |packets| && Placed(packets[p])
      modifies this`packets, this`free
      ensures Valid() && OnlyAt(p) && Placed(packets[p])
      ensures err == if src == [] then ErrParam
        else if old(packets)[p].totalSize - old(packets)[p].pos < |src| then ErrSize else Ok
      ensures err != Ok ==> packets == old(packets)
      ensures err == Ok ==> var was, pos := Bytes(old(packets)[p]), old(packets)[p].pos;
        && 0 <= pos && pos + |src| <= |was|
        && Bytes(packets[p]) == was[..pos] + src + was[pos + |src|..] && packets[p].pos == pos + |src|
    {
      hide Conserved, SlotsOk, Ids, Sum, Flat, Cursor;
      var k := packets[p];
      if src == [] { return ErrParam; }
      if k.totalSize - k.pos < |src| { return ErrSize; }
      k := WriteBytes(k, src);
      Store(p, k, free);
      err := Ok;
    }

    /** packet_fill */
    method Fill(p: nat, val: Byte, size: nat) returns (err: NetErr)
      requires Valid() && p < |packets| && Placed(packets[p])
      modifies this`packets, this`free
      ensures Valid() && OnlyAt(p) && Placed(packets[p])
      ensures err == if size == 0 then ErrParam
        else if old(packets)[p].totalSize - old(packets)[p].pos < size then ErrSize else Ok
      ensures err != Ok ==> packets == old(packets)
      ensures err == Ok ==> var was, pos := Bytes(old(packets)[p]), old(packets)[p].pos;
        && 0 <= pos && pos + size <= |was|
        && Bytes(packets[p]) == was[..pos] + seq(size, _ => val) + was[pos + size..] && packets[p].pos == pos + size
    {
      hide Conserved, SlotsOk, Ids, Sum, Flat, Cursor;
      var k := packets[p];
      if size == 0 { return ErrParam; }
      if k.totalSize - k.pos < size { return ErrSize; }
      k := WriteBytes(k, seq(size, _ => val));
      Store(p, k, free);
      err := Ok;
    }

    /** packet_read: exactly the slice [pos, pos + n). */
    method Read(p: nat, size: nat) returns (err: NetErr, out: seq<Byte>)
      requires Valid() && p < |packets| && Placed(packets[p])
      modifies this`packets, this`free
      ensures Valid() && OnlyAt(p) && Placed(packets[p]) && packets[p].pages == old(packets)[p].pages
      ensures err == if size > 0 && old(packets)[p].totalSize - old(packets)[p].pos < size then ErrSize else Ok
      ensures err != Ok ==> packets == old(packets) && out == []
      ensures err == Ok ==> var was, pos := Bytes(old(packets)[p]), old(packets)[p].pos;
        && 0 <= pos && pos + size <= |was| && out == was[pos..pos + size] && packets[p].pos == pos + size
    {
      hide Conserved, SlotsOk, Ids, Sum, Flat, Cursor;
      var k := packets[p];
      out := [];
      CursorInside(k.pages, k.pos, k.cur, k.po);
      if size == 0 { return Ok, []; }
      if k.totalSize - k.pos < size { return ErrSize, []; }
      k, out := ReadBytes(k, size);
      Store(p, k, free);
      err := Ok;
    }

    /** packet_copy between two packets, however differently they are paged. */
    method Copy(dest: nat, src: nat, size: nat) returns (err: NetErr)
      requires Valid() && dest < |packets| && src < |packets| && dest != src
      requires Placed(packets[dest]) && Placed(packets[src])
      modifies this`packets
      ensures Valid() && Placed(packets[dest]) && Placed(packets[src])
      ensures err == if old(packets)[dest].totalSize - old(packets)[dest].pos < size
                        || old(packets)[src].totalSize - old(packets)[src].pos < size then ErrSize else Ok
      ensures err != Ok ==> packets == old(packets)
      ensures |packets| == |old(packets)| && packets[src].pages == old(packets)[src].pages
      ensures forall i :: 0 <= i < |packets| && i != dest && i != src ==> packets[i] == old(packets)[i]
      ensures err == Ok ==>
        var d, s := Bytes(old(packets)[dest]), Bytes(old(packets)[src]);
        var a, b := old(packets)[dest].pos, old(packets)[src].pos;
        && 0 <= a && a + size <= |d| && 0 <= b && b + size <= |s|
        && Bytes(packets[dest]) == d[..a] + s[b..b + size] + d[a + size..]
        && packets[dest].pos == a + size && packets[src].pos == b + size
    {
      hide Conserved, SlotsOk, Ids, Sum, Flat, Cursor;
      var d, s := packets[dest], packets[src];
      if d.totalSize - d.pos < size || s.totalSize - s.pos < size { return ErrSize; }
      d, s := CopyBytes(d, s, size);
      StoreTwo(dest, src, d, s);
      err := Ok;
    }

    /** packet_checksum16: per-page sums chained, each page at its offset in the summed range. */
    method Checksum16(p: nat, size: nat, preSum: nat, complement: bool) returns (r: nat)
      requires Valid() && p < |packets| && Placed(packets[p]) && preSum < C.U16
      modifies this`packets, this`free
      ensures Valid() && OnlyAt(p) && Placed(packets[p]) && packets[p].pages == old(packets)[p].pages
      ensures var was, pos := Bytes(old(packets)[p]), old(packets)[p].pos;
        if |was| - pos < size then r == 0 && packets == old(packets)
        else
          && 0 <= pos && packets[p].pos == pos + size
          && r == C.Finish(C.Fold(preSum + C.Raw(was[pos..pos + size], false)), complement)
    {
      hide Conserved, SlotsOk, Ids, Sum, Flat, Cursor, C.Raw, C.Fold;
      var k := packets[p];
      if k.totalSize - k.pos < size { return 0; }
      var sum;
      k, sum := SumBytes(k, size, preSum);
      Store(p, k, free);
      r := C.Finish(sum, complement);
    }

    /** Write, seek back, read: the bytes written come back, and the rest is as it was. */
    method WriteAndReadBack(p: nat, src: seq<Byte>) returns (out: seq<Byte>)
      requires Valid() && p < |packets| && Placed(packets[p])
      requires 0 < |src| <= packets[p].totalSize - packets[p].pos
      modifies this`packets, this`free
      ensures Valid() && OnlyAt(p) && Placed(packets[p]) && out == src
      ensures var was, pos := Bytes(old(packets)[p]), old(packets)[p].pos;
        && 0 <= pos && pos + |src| <= |was|
        && Bytes(packets[p]) == was[..pos] + src + was[pos + |src|..] && packets[p].pos == pos + |src|
    {
      hide Conserved, SlotsOk, Ids, Sum, Flat, Cursor;
      var pos := packets[p].pos;
      var err := Write(p, src);
      err := Seek(p, pos);
      err, out := Read(p, |src|);
    }

    /** checksum_peso: the pseudo-header first, then the whole packet. */
    method ChecksumPeso(src: seq<Byte>, dst: seq<Byte>, protocol: Byte, p: nat) returns (r: nat)
      requires Valid() && p < |packets| && Sound(packets[p]) && |src| == |dst| == 4
      modifies this`packets, this`free
      ensures Valid() && OnlyAt(p) && Placed(packets[p]) && packets[p].pages == old(packets)[p].pages
      ensures var b := Bytes(old(packets)[p]);
        r == C.Sum16(0, C.Pseudo(src, dst, protocol, |b|) + b)
    {
      hide Conserved, SlotsOk, Ids, Sum, Flat, Cursor, C.Raw, C.Fold;
      var len := packets[p].totalSize;
      var sum := C.Checksum16(0, src, 0, false);
      sum := C.Checksum16(4, dst, sum, false);
      sum := C.Checksum16(8, [0, protocol], sum, false);
      sum := C.Checksum16(10, [len / 256 % 256, len % 256], sum, false);
      PseudoSum(src, dst, [0, protocol], [len / 256 % 256, len % 256]);
      ResetPos(p);
      ghost var b := Flat(packets[p].pages);
      assert b[0..0 + |b|] == b;
      r := Checksum16(p, len, sum, true);
      C.PseudoIsPrefix(C.Pseudo(src, dst, protocol, len), b);
    }

    /** Two bytes written at `k`, from any cursor. */
    method StoreField(p: nat, k: nat, c: nat)
      requires Valid() && p < |packets| && Placed(packets[p]) && k + 1 < packets[p].totalSize && c < C.U16
      modifies this`packets, this`free
      ensures Valid() && OnlyAt(p) && Placed(packets[p])
      ensures k + 1 < |Bytes(old(packets)[p])| && Bytes(packets[p]) == C.SetField(Bytes(old(packets)[p]), k, c)
    {
      hide Conserved, SlotsOk, Ids, Sum, Flat, Cursor;
      var err := Seek(p, k);
      err := Write(p, [c % 256, c / 256]);
    }

    /** What send_out does to the checksum field at `k`: clear it, sum pseudo-header and packet,
        store the result. For every page layout the receiver's sum is then zero, and no other
        byte has changed. */
    method StampChecksum(src: seq<Byte>, dst: seq<Byte>, protocol: Byte, p: nat, k: nat)
      requires Valid() && p < |packets| && Sound(packets[p]) && |src| == |dst| == 4
      requires k + 1 < packets[p].totalSize && !C.Odd(k)
      modifies this`packets, this`free
      ensures Valid() && OnlyAt(p) && Placed(packets[p])
      ensures var was, now := Bytes(old(packets)[p]), Bytes(packets[p]);
        && |now| == |was| && (forall i :: 0 <= i < |was| && i != k && i != k + 1 ==> now[i] == was[i])
        && C.Sum16(0, C.Pseudo(src, dst, protocol, |now|) + now) == 0
    {
      hide Conserved, SlotsOk, Ids, Sum, Flat, Cursor, C.Raw, C.Fold, C.Sum16, C.Pseudo;
      ResetPos(p);
      StoreField(p, k, 0);
      ghost var b := Bytes(packets[p]);
      var c := ChecksumPeso(src, dst, protocol, p);
      C.SumRange(0, C.Pseudo(src, dst, protocol, |b|) + b);
      StoreField(p, k, c);
      C.PseudoChecksumVerifies(src, dst, protocol, b, k);
    }

    /** Stamp and check: an intact packet passes, however its bytes lie in pages. */
    method StampAndCheck(src: seq<Byte>, dst: seq<Byte>, protocol: Byte, p: nat, k: nat) returns (r: nat)
      requires Valid() && p < |packets| && Sound(packets[p]) && |src| == |dst| == 4
      requires k + 1 < packets[p].totalSize && !C.Odd(k)
      modifies this`packets, this`free
      ensures Valid() && OnlyAt(p) && Placed(packets[p]) && r == 0
    {
      hide Conserved, SlotsOk, Ids, Sum, Flat, Cursor, C.Raw, C.Fold, C.Sum16, C.Pseudo;
      StampChecksum(src, dst, protocol, p, k);
      r := ChecksumPeso(src, dst, protocol, p);
    }
  }

  lemma StoreConserves(free: seq<Page>, ks: seq<Packet>, p: nat, k: Packet, pool: seq<Page>)
    requires Conserved(free, ks) && p < |ks| && Ids(pool) + Ids(k.pages) == Ids(free) + Ids(ks[p].pages)
    ensures Conserved(pool, ks[p := k])
  {
    hide Ids, Owned, Universe;
    OwnedUpdate(ks, p, k);
    var f, g, o, o' := Ids(free), Ids(pool), Owned(ks), Owned(ks[p := k]);
    var x, y := Ids(ks[p].pages), Ids(k.pages);
    MultisetSwap(f, g, o, o', x, y);
  }

  lemma MultisetSwap(f: multiset<nat>, g: multiset<nat>, o: multiset<nat>, o': multiset<nat>,
                     x: multiset<nat>, y: multiset<nat>)
    requires g + y == f + x && o' + x == o + y
    ensures g + o' == f + o
  {
    forall id: nat ensures (g + o')[id] == (f + o)[id] {
      assert (g + y)[id] == (f + x)[id];
      assert (o' + x)[id] == (o + y)[id];
    }
  }

  lemma {:induction false} NothingOwned(ks: seq<Packet>)
    requires forall i :: 0 <= i < |ks| ==> ks[i].pages == []
    ensures Owned(ks) == multiset{}
  {
    if ks != [] { NothingOwned(ks[1..]); }
  }
}
