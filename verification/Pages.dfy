/** Page lists as values: the bytes they hold, their sizes, and the identities of the pages
    (their place in the static page array). */
module Pages {
  import opened Common

  const PACKET_PAGE_SIZE := 128

  /** A page: its data is `size` bytes of the payload from `off` on. */
  datatype Page = Page(id: nat, payload: seq<Byte>, off: nat, size: nat)

  predicate Raw(g: Page) {
    |g.payload| == PACKET_PAGE_SIZE
  }

  /** A page in use is never empty and never reaches past its payload. */
  predicate InUse(g: Page) {
    Raw(g) && 0 < g.size && g.off + g.size <= PACKET_PAGE_SIZE
  }

  predicate AllRaw(gs: seq<Page>) {
    forall i :: 0 <= i < |gs| ==> Raw(gs[i])
  }

  predicate AllInUse(gs: seq<Page>) {
    forall i :: 0 <= i < |gs| ==> InUse(gs[i])
  }

  function Data(g: Page): (d: seq<Byte>)
    requires InUse(g)
    ensures |d| == g.size
  {
    g.payload[g.off..g.off + g.size]
  }

  /** Total size of a page list. */
  function Sum(gs: seq<Page>): nat {
    if gs == [] then 0 else gs[0].size + Sum(gs[1..])
  }

  /** The flat bytes of a page list. */
  function Flat(gs: seq<Page>): (f: seq<Byte>)
    requires AllInUse(gs)
    ensures |f| == Sum(gs)
  {
    if gs == [] then [] else Data(gs[0]) + Flat(gs[1..])
  }

  /** The identities of the pages, with multiplicity. */
  function Ids(gs: seq<Page>): multiset<nat> {
    if gs == [] then multiset{} else multiset{gs[0].id} + Ids(gs[1..])
  }

  lemma {:induction false} SumConcat(a: seq<Page>, b: seq<Page>)
    ensures Sum(a + b) == Sum(a) + Sum(b)
  {
    if a == [] {
      assert a + b == b;
    } else {
      assert (a + b)[1..] == a[1..] + b;
      SumConcat(a[1..], b);
    }
  }

  lemma {:induction false} IdsConcat(a: seq<Page>, b: seq<Page>)
    ensures Ids(a + b) == Ids(a) + Ids(b)
  {
    if a == [] {
      assert a + b == b;
    } else {
      assert (a + b)[1..] == a[1..] + b;
      IdsConcat(a[1..], b);
    }
  }

  lemma {:induction false} FlatConcat(a: seq<Page>, b: seq<Page>)
    requires AllInUse(a) && AllInUse(b)
    ensures AllInUse(a + b) && Flat(a + b) == Flat(a) + Flat(b)
  {
    hide Data, Sum;
    if a == [] {
      assert a + b == b;
    } else {
      assert (a + b)[1..] == a[1..] + b;
      FlatConcat(a[1..], b);
      assert Flat(a + b) == Data(a[0]) + (Flat(a[1..]) + Flat(b));
    }
  }

  /** Concatenation of page lists in all three views. */
  lemma Concat(a: seq<Page>, b: seq<Page>)
    ensures Sum(a + b) == Sum(a) + Sum(b) && Ids(a + b) == Ids(a) + Ids(b)
    ensures AllInUse(a) && AllInUse(b) ==> AllInUse(a + b) && Flat(a + b) == Flat(a) + Flat(b)
  {
    SumConcat(a, b);
    IdsConcat(a, b);
    if AllInUse(a) && AllInUse(b) { FlatConcat(a, b); }
  }

  lemma Single(g: Page)
    ensures Sum([g]) == g.size && Ids([g]) == multiset{g.id}
    ensures InUse(g) ==> AllInUse([g]) && Flat([g]) == Data(g)
  {
    assert [g][1..] == [];
  }

  lemma Cons(g: Page, gs: seq<Page>)
    ensures Sum([g] + gs) == g.size + Sum(gs) && Ids([g] + gs) == multiset{g.id} + Ids(gs)
    ensures InUse(g) && AllInUse(gs) ==> AllInUse([g] + gs) && Flat([g] + gs) == Data(g) + Flat(gs)
  {
    Single(g);
    Concat([g], gs);
  }

  lemma Snoc(gs: seq<Page>, g: Page)
    ensures Sum(gs + [g]) == Sum(gs) + g.size && Ids(gs + [g]) == Ids(gs) + multiset{g.id}
    ensures InUse(g) && AllInUse(gs) ==> AllInUse(gs + [g]) && Flat(gs + [g]) == Flat(gs) + Data(g)
  {
    Single(g);
    Concat(gs, [g]);
  }

  lemma Around(a: seq<Page>, g: Page, b: seq<Page>)
    ensures Sum(a + [g] + b) == Sum(a) + g.size + Sum(b)
    ensures Ids(a + [g] + b) == Ids(a) + multiset{g.id} + Ids(b)
    ensures AllInUse(a) && InUse(g) && AllInUse(b) ==>
      AllInUse(a + [g] + b) && Flat(a + [g] + b) == Flat(a) + Data(g) + Flat(b)
  {
    hide Flat, Sum, Ids, Data, InUse;
    Snoc(a, g);
    Concat(a + [g], b);
  }

  lemma Parts(gs: seq<Page>, k: nat)
    requires k < |gs|
    ensures gs == gs[..k] + [gs[k]] + gs[k + 1..]
    ensures AllInUse(gs) ==> AllInUse(gs[..k]) && InUse(gs[k]) && AllInUse(gs[k + 1..])
  {
    hide InUse;
  }

  /** A list seen as what is before page `k`, that page, and what is behind it. */
  lemma Split(gs: seq<Page>, k: nat)
    requires k < |gs|
    ensures gs == gs[..k] + [gs[k]] + gs[k + 1..]
    ensures Sum(gs) == Sum(gs[..k]) + gs[k].size + Sum(gs[k + 1..])
    ensures Ids(gs) == Ids(gs[..k]) + multiset{gs[k].id} + Ids(gs[k + 1..])
    ensures AllInUse(gs) ==> Flat(gs) == Flat(gs[..k]) + Data(gs[k]) + Flat(gs[k + 1..])
  {
    Parts(gs, k);
    hide Flat, Sum, Ids, Data, InUse, AllInUse;
    Around(gs[..k], gs[k], gs[k + 1..]);
  }

  /** Replacing page `k` replaces its bytes and nothing else. */
  lemma Replace(gs: seq<Page>, k: nat, g: Page)
    requires k < |gs|
    ensures var gs' := gs[k := g];
      && Sum(gs') == Sum(gs) - gs[k].size + g.size
      && Ids(gs') == Ids(gs) - multiset{gs[k].id} + multiset{g.id}
      && (AllInUse(gs) && InUse(g) ==>
            AllInUse(gs') && Flat(gs') == Flat(gs[..k]) + Data(g) + Flat(gs[k + 1..]))
  {
    hide Flat, Sum, Ids, Data;
    var gs' := gs[k := g];
    Split(gs, k);
    Split(gs', k);
    assert gs'[..k] == gs[..k] && gs'[k + 1..] == gs[k + 1..];
  }

  lemma {:induction false} Prefixes(gs: seq<Page>, k: nat)
    requires k <= |gs|
    ensures gs == gs[..k] + gs[k..]
    ensures Sum(gs) == Sum(gs[..k]) + Sum(gs[k..]) && Ids(gs) == Ids(gs[..k]) + Ids(gs[k..])
    ensures AllInUse(gs) ==> Flat(gs) == Flat(gs[..k]) + Flat(gs[k..])
  {
    assert gs == gs[..k] + gs[k..];
    Concat(gs[..k], gs[k..]);
  }

  lemma SumNil()
    ensures Sum([]) == 0
  {
  }

  lemma SumNext(gs: seq<Page>, k: nat)
    requires k < |gs|
    ensures Sum(gs[..k + 1]) == Sum(gs[..k]) + gs[k].size
  {
    assert gs[..k + 1] == gs[..k] + [gs[k]];
    Snoc(gs[..k], gs[k]);
  }

  // ---------------------------------------------------------------- the cursor

  /** `cur` is the page of position `pos` and `po` the payload offset in it; behind the last
      byte there is no page. */
  predicate Cursor(gs: seq<Page>, pos: int, cur: nat, po: nat) {
    && cur <= |gs|
    && if cur == |gs| then pos == Sum(gs)
       else gs[cur].off <= po < gs[cur].off + gs[cur].size && pos == Sum(gs[..cur]) + po - gs[cur].off
  }

  /** curr_page_remain */
  function Remain(gs: seq<Page>, cur: nat, po: nat): nat
    requires cur < |gs| && po <= gs[cur].off + gs[cur].size
  {
    gs[cur].off + gs[cur].size - po
  }

  lemma CursorInside(gs: seq<Page>, pos: int, cur: nat, po: nat)
    requires AllInUse(gs) && Cursor(gs, pos, cur, po)
    ensures 0 <= pos <= Sum(gs)
    ensures pos < Sum(gs) <==> cur < |gs|
    ensures cur < |gs| ==> po < gs[cur].off + gs[cur].size && 0 < Remain(gs, cur, po)
    ensures cur < |gs| ==> pos + Remain(gs, cur, po) == Sum(gs[..cur + 1]) <= Sum(gs)
  {
    if cur < |gs| {
      SumNext(gs, cur);
      Prefixes(gs, cur + 1);
    }
  }

  /** What lies under the cursor is the flat bytes from `pos` on. */
  lemma UnderCursor(gs: seq<Page>, pos: int, cur: nat, po: nat, n: nat)
    requires AllInUse(gs) && Cursor(gs, pos, cur, po) && cur < |gs| && n <= Remain(gs, cur, po)
    ensures 0 <= pos && pos + n <= |Flat(gs)|
    ensures gs[cur].payload[po..po + n] == Flat(gs)[pos..pos + n]
  {
    hide Flat, Sum, Ids;
    Split(gs, cur);
    Middle(Flat(gs[..cur]), Data(gs[cur]), Flat(gs[cur + 1..]), po - gs[cur].off, n);
    var g := gs[cur];
    SliceOfSlice(g.payload, g.off, g.off + g.size, po - g.off, n);
  }

  lemma SliceOfSlice(s: seq<Byte>, lo: nat, hi: nat, a: nat, n: nat)
    requires lo <= hi <= |s| && a + n <= hi - lo
    ensures s[lo..hi][a..a + n] == s[lo + a..lo + a + n]
  {
    var l, r, d := s[lo..hi][a..a + n], s[lo + a..lo + a + n], s[lo..hi];
    forall i | 0 <= i < n ensures l[i] == r[i] {
      assert l[i] == d[a + i] && d[a + i] == s[lo + (a + i)] && r[i] == s[lo + a + i];
    }
  }

  /** Writing inside a slice, seen through the slice. */
  lemma SliceOfWritten(s: seq<Byte>, lo: nat, hi: nat, a: nat, b: seq<Byte>)
    requires lo <= hi <= |s| && a + |b| <= hi - lo
    ensures (s[..lo + a] + b + s[lo + a + |b|..])[lo..hi] == s[lo..hi][..a] + b + s[lo..hi][a + |b|..]
  {
    var w, d := s[..lo + a] + b + s[lo + a + |b|..], s[lo..hi];
    var l, r := w[lo..hi], d[..a] + b + d[a + |b|..];
    assert |l| == |r|;
    forall i | 0 <= i < |l| ensures l[i] == r[i] {
      assert l[i] == w[lo + i] && d[i] == s[lo + i];
      if i < a {
        assert w[lo + i] == s[lo + i] && r[i] == d[i];
      } else if i < a + |b| {
        assert w[lo + i] == b[lo + i - (lo + a)] && r[i] == b[i - a];
      } else {
        assert w[lo + i] == s[lo + i] && r[i] == d[a + |b|..][i - a - |b|];
      }
    }
  }

  lemma Middle(pre: seq<Byte>, d: seq<Byte>, post: seq<Byte>, a: nat, n: nat)
    requires a + n <= |d|
    ensures (pre + d + post)[|pre| + a..|pre| + a + n] == d[a..a + n]
    ensures (pre + d + post)[..|pre| + a] == pre + d[..a]
    ensures (pre + d + post)[|pre| + a + n..] == d[a + n..] + post
  {
  }

  /** A page with `b` written over its payload from `po` on. */
  function Overwrite(g: Page, po: nat, b: seq<Byte>): (g': Page)
    requires Raw(g) && po + |b| <= PACKET_PAGE_SIZE
    ensures Raw(g') && g'.id == g.id && g'.off == g.off && g'.size == g.size
  {
    g.(payload := g.payload[..po] + b + g.payload[po + |b|..])
  }

  lemma OverwriteData(g: Page, po: nat, b: seq<Byte>)
    requires InUse(g) && g.off <= po && po + |b| <= g.off + g.size
    ensures InUse(Overwrite(g, po, b))
    ensures Data(Overwrite(g, po, b)) == Data(g)[..po - g.off] + b + Data(g)[po - g.off + |b|..]
  {
    SliceOfWritten(g.payload, g.off, g.off + g.size, po - g.off, b);
  }

  /** Overwriting under the cursor overwrites exactly [pos, pos + n) of the flat bytes. */
  lemma OverwriteAt(gs: seq<Page>, pos: int, cur: nat, po: nat, b: seq<Byte>)
    requires AllInUse(gs) && Cursor(gs, pos, cur, po) && cur < |gs| && |b| <= Remain(gs, cur, po)
    ensures 0 <= pos && pos + |b| <= |Flat(gs)|
    ensures var gs' := gs[cur := Overwrite(gs[cur], po, b)];
      && AllInUse(gs') && Sum(gs') == Sum(gs) && Ids(gs') == Ids(gs) && Cursor(gs', pos, cur, po)
      && Flat(gs') == Flat(gs)[..pos] + b + Flat(gs)[pos + |b|..]
  {
    hide Flat, Sum, Ids, Data, Overwrite;
    var g, a := Overwrite(gs[cur], po, b), po - gs[cur].off;
    var gs' := gs[cur := g];
    Split(gs, cur);
    OverwriteData(gs[cur], po, b);
    Replace(gs, cur, g);
    assert gs'[..cur] == gs[..cur];
    var pre, d, post := Flat(gs[..cur]), Data(gs[cur]), Flat(gs[cur + 1..]);
    Middle(pre, d, post, a, |b|);
    assert pre + (d[..a] + b + d[a + |b|..]) + post == (pre + d[..a]) + b + (d[a + |b|..] + post);
  }

  /** move_forward: where the cursor stands after `n` more bytes of the current page. */
  function Advance(gs: seq<Page>, cur: nat, po: nat, n: nat): (r: (nat, nat))
    requires cur < |gs| && po <= gs[cur].off + gs[cur].size && n <= Remain(gs, cur, po)
  {
    if po + n >= gs[cur].off + gs[cur].size then
      (cur + 1, if cur + 1 < |gs| then gs[cur + 1].off else 0)
    else (cur, po + n)
  }

  lemma AdvanceCursor(gs: seq<Page>, pos: int, cur: nat, po: nat, n: nat)
    requires AllInUse(gs) && Cursor(gs, pos, cur, po) && cur < |gs| && n <= Remain(gs, cur, po)
    ensures var (c, q) := Advance(gs, cur, po, n); Cursor(gs, pos + n, c, q)
  {
    SumNext(gs, cur);
    if cur + 1 == |gs| { assert gs[..cur + 1] == gs; }
  }
}
