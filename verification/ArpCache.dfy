/** The ARP cache: a list kept in order of use, entries that age by periodic scans, and packets
    that wait on an entry until its address is resolved. */
module ArpCache {
  import opened Common

  const ARP_CACHE_SIZE := 50
  const ARP_MAX_PKT_WAIT := 10
  const STABLE_SCANS := 1200
  const PENDING_SCANS := 3
  const RETRIES := 3

  type Ip = nat
  type Hw = nat
  type Pkt = nat

  datatype EntryState = Resolved | Waiting

  datatype Entry = Entry(ip: Ip, hw: Hw, state: EntryState, tmo: int, retry: int, pending: seq<Pkt>)

  /** The cache: listed entries, most recently used first, and the number of free ones. */
  datatype Cache = Cache(list: seq<Entry>, free: nat)

  /** The new cache, packets handed to the link layer, and packets released. */
  datatype Res = Res(c: Cache, sent: seq<Pkt>, dropped: seq<Pkt>)

  // ---------------------------------------------------------------- operations

  /** Place of the entry for `ip`, or the length of the list. */
  function Index(list: seq<Entry>, ip: Ip): (i: nat)
    ensures i <= |list| && (i < |list| ==> list[i].ip == ip)
    ensures forall j :: 0 <= j < i ==> list[j].ip != ip
  {
    if list == [] || list[0].ip == ip then 0 else 1 + Index(list[1..], ip)
  }

  function Touch(list: seq<Entry>, i: nat): (r: seq<Entry>)
    requires i < |list|
    ensures |r| == |list| && r[0] == list[i]
  {
    [list[i]] + (list[..i] + list[i + 1..])
  }

  /** cache_find */
  function Find(c: Cache, ip: Ip): Cache {
    var i := Index(c.list, ip);
    if i < |c.list| then c.(list := Touch(c.list, i)) else c
  }

  /** cache_alloc, and the new entry in front. Without a free entry `force` evicts the last. */
  function Place(c: Cache, force: bool, e: Entry): Option<Res> {
    if c.free > 0 then Some(Res(Cache([e] + c.list, c.free - 1), [], []))
    else if force && c.list != [] then
      var n := |c.list| - 1;
      Some(Res(Cache([e] + c.list[..n], 0), [], c.list[n].pending))
    else None
  }

  /** cache_insert: what an ARP packet teaches. */
  function Learn(c: Cache, ip: Ip, hw: Hw, force: bool): Res {
    var i := Index(c.list, ip);
    if i < |c.list| then
      var l := Touch(c.list, i);
      Res(c.(list := l[0 := Entry(ip, hw, Resolved, STABLE_SCANS, RETRIES, [])]), l[0].pending, [])
    else
      match Place(c, force, Entry(ip, hw, Resolved, STABLE_SCANS, RETRIES, []))
      case None => Res(c, [], [])
      case Some(r) => r
  }

  /** arp_resolve: send, queue behind a waiting entry, or start waiting. The packet is put on the
      new entry before the request goes out; when the request fails (`asked` is false) that error
      is returned all the same, and the caller releases the packet. */
  function Resolve(c: Cache, ip: Ip, pkt: Pkt, asked: bool): Res {
    var i := Index(c.list, ip);
    if i < |c.list| then
      var l := Touch(c.list, i);
      if l[0].state.Resolved? then Res(c.(list := l), [pkt], [])
      else if |l[0].pending| <= ARP_MAX_PKT_WAIT then
        Res(c.(list := l[0 := l[0].(pending := [pkt] + l[0].pending)]), [], [])
      else Res(c.(list := l), [], [pkt])
    else
      match Place(c, true, Entry(ip, 0, Waiting, PENDING_SCANS, RETRIES, [pkt]))
      case None => Res(c, [], [pkt])
      case Some(r) => r.(dropped := r.dropped + if asked then [] else [pkt])
  }

  /** One entry in arp_cache_tmo; None when it is freed. */
  function Age(e: Entry): Option<Entry> {
    var t := e.(tmo := e.tmo - 1);
    if t.tmo > 0 then Some(t)
    else if e.state.Resolved? then Some(t.(state := Waiting, tmo := PENDING_SCANS, retry := RETRIES))
    else if e.retry - 1 == 0 then None
    else Some(t.(tmo := PENDING_SCANS, retry := e.retry - 1))
  }

  function AgeAll(list: seq<Entry>): seq<Entry> {
    if list == [] then []
    else match Age(list[0])
      case None => AgeAll(list[1..])
      case Some(e) => [e] + AgeAll(list[1..])
  }

  function Expired(list: seq<Entry>): seq<Entry> {
    if list == [] then []
    else if Age(list[0]).None? then [list[0]] + Expired(list[1..])
    else Expired(list[1..])
  }

  function Packets(list: seq<Entry>): seq<Pkt> {
    if list == [] then [] else list[0].pending + Packets(list[1..])
  }

  /** arp_cache_tmo */
  function Scan(c: Cache): Res {
    Res(Cache(AgeAll(c.list), c.free + |Expired(c.list)|), [], Packets(Expired(c.list)))
  }

  // ---------------------------------------------------------------- the invariant

  predicate EntryOk(e: Entry) {
    && 1 <= e.retry <= RETRIES
    && match e.state
       case Resolved => 1 <= e.tmo <= STABLE_SCANS && e.pending == []
       case Waiting => 1 <= e.tmo <= PENDING_SCANS && |e.pending| <= ARP_MAX_PKT_WAIT + 1
  }

  predicate Distinct(list: seq<Entry>) {
    forall i, j :: 0 <= i < j < |list| ==> list[i].ip != list[j].ip
  }

  predicate AllOk(list: seq<Entry>) {
    forall i :: 0 <= i < |list| ==> EntryOk(list[i])
  }

  predicate CacheOk(c: Cache) {
    |c.list| + c.free == ARP_CACHE_SIZE && Distinct(c.list) && AllOk(c.list)
  }

  // ---------------------------------------------------------------- recency

  /** When `ip` was last used, as an index in the history of uses. */
  function LastUse(uses: seq<Ip>, ip: Ip): (t: int)
    ensures -1 <= t < |uses|
  {
    if uses == [] then -1
    else if uses[|uses| - 1] == ip then |uses| - 1
    else LastUse(uses[..|uses| - 1], ip)
  }

  lemma LastUseSnoc(uses: seq<Ip>, x: Ip, ip: Ip)
    ensures LastUse(uses + [x], ip) == if ip == x then |uses| else LastUse(uses, ip)
  {
    assert (uses + [x])[..|uses|] == uses;
  }

  /** The list is in order of last use, most recent first. */
  predicate ByRecency(list: seq<Entry>, uses: seq<Ip>) {
    && (forall i :: 0 <= i < |list| ==> 0 <= LastUse(uses, list[i].ip))
    && (forall i, j :: 0 <= i < j < |list| ==> LastUse(uses, list[j].ip) < LastUse(uses, list[i].ip))
  }

  // ---------------------------------------------------------------- steps

  datatype Op =
    | DoFind(ip: Ip) | DoLearn(ip: Ip, hw: Hw, force: bool) | DoResolve(ip: Ip, pkt: Pkt, asked: bool) | DoScan

  function Apply(c: Cache, op: Op): Res {
    match op
    case DoFind(ip) => Res(Find(c, ip), [], [])
    case DoLearn(ip, hw, force) => Learn(c, ip, hw, force)
    case DoResolve(ip, pkt, asked) => Resolve(c, ip, pkt, asked)
    case DoScan => Scan(c)
  }

  /** The address an operation uses: one that it finds or puts into the list. */
  function Used(c: Cache, op: Op): seq<Ip> {
    match op
    case DoFind(ip) => if Index(c.list, ip) < |c.list| then [ip] else []
    case DoLearn(ip, _, force) =>
      if Index(c.list, ip) < |c.list| || c.free > 0 || (force && c.list != []) then [ip] else []
    case DoResolve(ip, _, _) => if Index(c.list, ip) < |c.list| || c.free > 0 || c.list != [] then [ip] else []
    case DoScan => []
  }

  /** The entry an operation evicts, if any: the last one, for lack of a free one. */
  predicate Evicts(c: Cache, op: Op) {
    c.free == 0 && c.list != [] &&
    match op
    case DoLearn(ip, _, force) => force && Index(c.list, ip) == |c.list|
    case DoResolve(ip, _, _) => Index(c.list, ip) == |c.list|
    case _ => false
  }

  // ---------------------------------------------------------------- the invariant is kept

  lemma TouchOk(list: seq<Entry>, i: nat)
    requires Distinct(list) && AllOk(list) && i < |list|
    ensures Distinct(Touch(list, i)) && AllOk(Touch(list, i))
    ensures forall j :: 1 <= j < |list| ==> Touch(list, i)[j].ip != list[i].ip
  {
    var r := Touch(list, i);
    assert (forall j :: 1 <= j <= i ==> r[j] == list[j - 1]) && (forall j :: i < j < |r| ==> r[j] == list[j]);
  }

  lemma PlaceOk(c: Cache, force: bool, e: Entry)
    requires CacheOk(c) && EntryOk(e) && Index(c.list, e.ip) == |c.list|
    ensures Place(c, force, e).Some? ==> CacheOk(Place(c, force, e).value.c)
  {
    if Place(c, force, e).Some? {
      var l := Place(c, force, e).value.c.list;
      assert forall j :: 1 <= j < |l| ==> l[j] == c.list[j - 1];
    }
  }

  lemma HeadOk(list: seq<Entry>, e: Entry)
    requires list != [] && Distinct(list) && AllOk(list) && EntryOk(e) && e.ip == list[0].ip
    ensures Distinct(list[0 := e]) && AllOk(list[0 := e])
  {
  }

  lemma AgeOk(e: Entry)
    requires EntryOk(e)
    ensures Age(e).Some? ==> EntryOk(Age(e).value) && Age(e).value.ip == e.ip
  {
  }

  predicate Has(list: seq<Entry>, ip: Ip) {
    exists i :: 0 <= i < |list| && list[i].ip == ip
  }

  lemma {:induction false} AgeAllOk(list: seq<Entry>)
    requires Distinct(list) && AllOk(list)
    ensures Distinct(AgeAll(list)) && AllOk(AgeAll(list))
    ensures |AgeAll(list)| + |Expired(list)| == |list|
    ensures forall ip :: Has(AgeAll(list), ip) ==> Has(list, ip)
  {
    hide Age;
    if list != [] {
      AgeAllOk(list[1..]);
      AgeOk(list[0]);
      HasTail(list);
      if Age(list[0]).Some? {
        var e, rest := Age(list[0]).value, AgeAll(list[1..]);
        DistinctCons(e, rest);
      }
    }
  }

  lemma HasTail(list: seq<Entry>)
    requires list != []
    ensures forall ip :: Has(list, ip) <==> ip == list[0].ip || Has(list[1..], ip)
    ensures Distinct(list) ==> !Has(list[1..], list[0].ip)
  {
    forall ip | Has(list[1..], ip) ensures Has(list, ip) {
      var i :| 0 <= i < |list[1..]| && list[1..][i].ip == ip;
      assert list[i + 1].ip == ip;
    }
    forall ip | Has(list, ip) && ip != list[0].ip ensures Has(list[1..], ip) {
      var i :| 0 <= i < |list| && list[i].ip == ip;
      assert list[1..][i - 1].ip == ip;
    }
  }

  lemma DistinctCons(e: Entry, list: seq<Entry>)
    requires Distinct(list) && !Has(list, e.ip)
    ensures Distinct([e] + list) && forall ip :: Has([e] + list, ip) <==> ip == e.ip || Has(list, ip)
  {
    assert ([e] + list)[1..] == list;
    HasTail([e] + list);
  }

  /** Every operation keeps the cache in order: one entry per address, listed and free entries
      make up the cache, resolved entries hold no packet, waiting ones at most eleven. */
  lemma ApplyOk(c: Cache, op: Op)
    requires CacheOk(c)
    ensures CacheOk(Apply(c, op).c)
  {
    hide Index, Touch, Place, Age;
    match op
    case DoFind(ip) =>
      var i := Index(c.list, ip);
      if i < |c.list| { TouchOk(c.list, i); }
    case DoLearn(ip, hw, force) =>
      var i, e := Index(c.list, ip), Entry(ip, hw, Resolved, STABLE_SCANS, RETRIES, []);
      if i < |c.list| {
        TouchOk(c.list, i);
        HeadOk(Touch(c.list, i), e);
      } else {
        PlaceOk(c, force, e);
      }
    case DoResolve(ip, pkt, asked) =>
      var i := Index(c.list, ip);
      if i < |c.list| {
        TouchOk(c.list, i);
        var e := Touch(c.list, i)[0];
        if e.state.Waiting? && |e.pending| <= ARP_MAX_PKT_WAIT {
          HeadOk(Touch(c.list, i), e.(pending := [pkt] + e.pending));
        }
      } else {
        PlaceOk(c, true, Entry(ip, 0, Waiting, PENDING_SCANS, RETRIES, [pkt]));
      }
    case DoScan => AgeAllOk(c.list);
  }

  // ---------------------------------------------------------------- the cache as a map

  /** The entry the cache holds for `ip`. */
  function Lookup(list: seq<Entry>, ip: Ip): Option<Entry> {
    var i := Index(list, ip);
    if i < |list| then Some(list[i]) else None
  }

  lemma LookupAt(list: seq<Entry>, i: nat)
    requires Distinct(list) && i < |list|
    ensures Lookup(list, list[i].ip) == Some(list[i])
  {
    hide Index;
    var k := Index(list, list[i].ip);
    assert k <= i;
  }

  lemma LookupNone(list: seq<Entry>, ip: Ip)
    requires !Has(list, ip)
    ensures Lookup(list, ip).None?
  {
    hide Index;
  }

  lemma LookupHas(list: seq<Entry>, ip: Ip)
    ensures Lookup(list, ip).None? <==> !Has(list, ip)
  {
    hide Index;
  }

  /** Two lists with the same entries, in any order, answer every lookup alike. */
  lemma SameLookup(a: seq<Entry>, b: seq<Entry>, ip: Ip)
    requires Distinct(a) && Distinct(b)
    requires forall i :: 0 <= i < |a| && a[i].ip == ip ==> exists j :: 0 <= j < |b| && b[j] == a[i]
    requires Has(b, ip) ==> Has(a, ip)
    ensures Lookup(a, ip) == Lookup(b, ip)
  {
    hide Index;
    LookupHas(a, ip);
    LookupHas(b, ip);
    if Has(a, ip) {
      var i :| 0 <= i < |a| && a[i].ip == ip;
      var j :| 0 <= j < |b| && b[j] == a[i];
      LookupAt(a, i);
      LookupAt(b, j);
    }
  }

  lemma TouchLookup(list: seq<Entry>, i: nat, ip: Ip)
    requires Distinct(list) && AllOk(list) && i < |list|
    ensures Lookup(Touch(list, i), ip) == Lookup(list, ip)
  {
    hide Lookup;
    var pre, post := list[..i], list[i + 1..];
    assert list == pre + [list[i]] + post;
    TouchOk(list, i);
    hide Distinct, AllOk;
    LookupConcat(pre + [list[i]], post, ip);
    LookupConcat(pre, [list[i]], ip);
    LookupConcat([list[i]], pre + post, ip);
    LookupConcat(pre, post, ip);
    LookupOne(list[i], ip);
    if Lookup(pre, ip).Some? && ip == list[i].ip {
      LookupHas(pre, ip);
      TwiceListed(list, i, ip);
    }
  }

  lemma LookupOne(e: Entry, ip: Ip)
    ensures Lookup([e], ip) == if ip == e.ip then Some(e) else None
  {
    assert [e][1..] == [];
  }

  lemma TwiceListed(list: seq<Entry>, i: nat, ip: Ip)
    requires Distinct(list) && i < |list| && Has(list[..i], ip)
    ensures list[i].ip != ip
  {
  }

  lemma {:induction false} LookupConcat(a: seq<Entry>, b: seq<Entry>, ip: Ip)
    ensures Lookup(a + b, ip) == if Lookup(a, ip).Some? then Lookup(a, ip) else Lookup(b, ip)
  {
    if a == [] {
      assert a + b == b;
    } else {
      assert (a + b)[1..] == a[1..] + b;
      LookupConcat(a[1..], b, ip);
    }
  }

  lemma HeadLookup(list: seq<Entry>, e: Entry, ip: Ip)
    requires list != [] && e.ip == list[0].ip
    ensures Lookup(list[0 := e], ip) == if ip == e.ip then Some(e) else Lookup(list, ip)
  {
    assert list[0 := e][1..] == list[1..];
  }

  lemma ConsLookup(list: seq<Entry>, e: Entry, ip: Ip)
    ensures Lookup([e] + list, ip) == if ip == e.ip then Some(e) else Lookup(list, ip)
  {
    assert ([e] + list)[1..] == list;
  }

  lemma DropLastLookup(list: seq<Entry>, ip: Ip)
    requires Distinct(list) && list != []
    ensures Lookup(list[..|list| - 1], ip) == if ip == list[|list| - 1].ip then None else Lookup(list, ip)
  {
    hide Lookup;
    var n := |list| - 1;
    var a := list[..n];
    if ip == list[n].ip {
      LookupNone(a, ip);
    } else {
      if Has(list, ip) {
        var j :| 0 <= j < |list| && list[j].ip == ip;
        assert a[j].ip == ip;
      }
      forall i | 0 <= i < |a| && a[i].ip == ip ensures exists j :: 0 <= j < |list| && list[j] == a[i] {
        assert list[i] == a[i];
      }
      SameLookup(a, list, ip);
    }
  }

  lemma {:induction false} AgeAllLookup(list: seq<Entry>, ip: Ip)
    requires Distinct(list) && AllOk(list)
    ensures Lookup(AgeAll(list), ip) == (match Lookup(list, ip) case None => None case Some(e) => Age(e))
  {
    hide Age, Lookup, EntryOk;
    if list == [] {
      LookupNone(list, ip);
    } else {
      var rest := AgeAll(list[1..]);
      AgeAllLookup(list[1..], ip);
      AgeAllOk(list[1..]);
      AgeOk(list[0]);
      HasTail(list);
      assert list == [list[0]] + list[1..];
      ConsLookup(list[1..], list[0], ip);
      if Age(list[0]).Some? {
        ConsLookup(rest, Age(list[0]).value, ip);
      } else if ip == list[0].ip {
        LookupNone(rest, ip);
      }
    }
  }

  /** What one operation does to the answer for `x`, whatever the order of the list. */
  function MapStep(c: Cache, op: Op, x: Ip): Option<Entry> {
    var old_ := Lookup(c.list, x);
    if Evicts(c, op) && x == c.list[|c.list| - 1].ip then None
    else match op
      case DoFind(_) => old_
      case DoLearn(ip, hw, _) =>
        if x == ip && Used(c, op) != [] then Some(Entry(ip, hw, Resolved, STABLE_SCANS, RETRIES, [])) else old_
      case DoResolve(ip, pkt, asked) =>
        if x != ip || Used(c, op) == [] then old_
        else if old_.None? then Some(Entry(ip, 0, Waiting, PENDING_SCANS, RETRIES, [pkt]))
        else if old_.value.state.Waiting? && |old_.value.pending| <= ARP_MAX_PKT_WAIT then
          Some(old_.value.(pending := [pkt] + old_.value.pending))
        else old_
      case DoScan => if old_.None? then None else Age(old_.value)
  }

  lemma PlaceLookup(c: Cache, force: bool, e: Entry, x: Ip)
    requires CacheOk(c) && Index(c.list, e.ip) == |c.list| && Place(c, force, e).Some?
    ensures Lookup(Place(c, force, e).value.c.list, x) ==
      if c.free == 0 && x == c.list[|c.list| - 1].ip then None
      else if x == e.ip then Some(e) else Lookup(c.list, x)
  {
    hide Lookup, EntryOk, Index;
    if c.free > 0 {
      ConsLookup(c.list, e, x);
    } else {
      ConsLookup(c.list[..|c.list| - 1], e, x);
      DropLastLookup(c.list, x);
    }
  }

  /** The cache is a map: an operation changes the answer for its own address, ages every answer
      in a scan, forgets the evicted address, and changes no other answer. */
  lemma ApplyIsMapStep(c: Cache, op: Op, x: Ip)
    requires CacheOk(c)
    ensures Lookup(Apply(c, op).c.list, x) == MapStep(c, op, x)
  {
    hide Index, Place, EntryOk, AgeAll, Expired, Touch, Age;
    match op
    case DoFind(ip) =>
      var i := Index(c.list, ip);
      if i < |c.list| { TouchLookup(c.list, i, x); }
    case DoLearn(ip, hw, force) => LearnLookup(c, ip, hw, force, x);
    case DoResolve(ip, pkt, asked) => ResolveLookup(c, ip, pkt, asked, x);
    case DoScan => AgeAllLookup(c.list, x);
  }

  lemma PlaceSome(c: Cache, force: bool, e: Entry)
    ensures Place(c, force, e).Some? <==> c.free > 0 || (force && c.list != [])
  {
  }

  lemma LearnLookup(c: Cache, ip: Ip, hw: Hw, force: bool, x: Ip)
    requires CacheOk(c)
    ensures Lookup(Learn(c, ip, hw, force).c.list, x) == MapStep(c, DoLearn(ip, hw, force), x)
  {
    hide Index, Place, EntryOk, Touch, Age;
    var i, e := Index(c.list, ip), Entry(ip, hw, Resolved, STABLE_SCANS, RETRIES, []);
    if i < |c.list| {
      TouchLookup(c.list, i, x);
      HeadLookup(Touch(c.list, i), e, x);
    } else {
      PlaceSome(c, force, e);
      if Place(c, force, e).Some? { PlaceLookup(c, force, e, x); }
    }
  }

  lemma ResolveLookup(c: Cache, ip: Ip, pkt: Pkt, asked: bool, x: Ip)
    requires CacheOk(c)
    ensures Lookup(Resolve(c, ip, pkt, asked).c.list, x) == MapStep(c, DoResolve(ip, pkt, asked), x)
  {
    hide Index, Place, EntryOk, Touch, Age;
    var i := Index(c.list, ip);
    if i < |c.list| {
      TouchLookup(c.list, i, x);
      var e := Touch(c.list, i)[0];
      HeadLookup(Touch(c.list, i), e.(pending := [pkt] + e.pending), x);
    } else {
      var e := Entry(ip, 0, Waiting, PENDING_SCANS, RETRIES, [pkt]);
      PlaceSome(c, true, e);
      if Place(c, true, e).Some? { PlaceLookup(c, true, e, x); }
    }
  }

  // ---------------------------------------------------------------- order of use

  lemma UsesNow(list: seq<Entry>, i: nat, uses: seq<Ip>)
    requires Distinct(list) && i < |list|
    ensures forall k :: 0 <= k < |list| ==>
      LastUse(uses + [list[i].ip], list[k].ip) == if k == i then |uses| else LastUse(uses, list[k].ip)
  {
    hide LastUse;
    forall k | 0 <= k < |list|
      ensures LastUse(uses + [list[i].ip], list[k].ip) == if k == i then |uses| else LastUse(uses, list[k].ip)
    {
      LastUseSnoc(uses, list[i].ip, list[k].ip);
    }
  }

  lemma TouchRecent(list: seq<Entry>, i: nat, uses: seq<Ip>)
    requires Distinct(list) && ByRecency(list, uses) && i < |list|
    ensures ByRecency(Touch(list, i), uses + [list[i].ip])
  {
    hide LastUse, Touch;
    var r, now := Touch(list, i), uses + [list[i].ip];
    UsesNow(list, i, uses);
    TouchAt(list, i);
    hide Distinct;
    forall j | 1 <= j < |r| ensures exists k :: 0 <= k < |list| && k != i && r[j] == list[k] {
      assert r[j] == list[if j <= i then j - 1 else j];
    }
  }

  lemma TouchAt(list: seq<Entry>, i: nat)
    requires i < |list|
    ensures var r := Touch(list, i);
      forall j :: 1 <= j < |r| ==> r[j] == list[if j <= i then j - 1 else j]
  {
  }

  lemma ConsRecent(list: seq<Entry>, e: Entry, uses: seq<Ip>)
    requires ByRecency(list, uses) && !Has(list, e.ip)
    ensures ByRecency([e] + list, uses + [e.ip])
  {
    var r, now := [e] + list, uses + [e.ip];
    LastUseSnoc(uses, e.ip, e.ip);
    forall k | 0 <= k < |list| ensures LastUse(now, list[k].ip) == LastUse(uses, list[k].ip) {
      LastUseSnoc(uses, e.ip, list[k].ip);
    }
    hide LastUse;
    assert forall j :: 1 <= j < |r| ==> r[j] == list[j - 1];
  }

  lemma HeadRecent(list: seq<Entry>, e: Entry, uses: seq<Ip>)
    requires list != [] && e.ip == list[0].ip && ByRecency(list, uses)
    ensures ByRecency(list[0 := e], uses)
  {
    hide LastUse;
  }

  lemma {:induction false} AgeAllRecent(list: seq<Entry>, uses: seq<Ip>)
    requires Distinct(list) && AllOk(list) && ByRecency(list, uses)
    ensures ByRecency(AgeAll(list), uses)
  {
    hide LastUse, Age, EntryOk;
    if list != [] {
      var rest := AgeAll(list[1..]);
      assert ByRecency(list[1..], uses);
      AgeAllRecent(list[1..], uses);
      AgeAllOk(list[1..]);
      AgeOk(list[0]);
      if Age(list[0]).Some? {
        var r := [Age(list[0]).value] + rest;
        forall j | 0 <= j < |rest| ensures LastUse(uses, rest[j].ip) < LastUse(uses, list[0].ip) {
          assert Has(rest, rest[j].ip) && Has(list[1..], rest[j].ip);
          var k :| 0 <= k < |list[1..]| && list[1..][k].ip == rest[j].ip;
          assert list[1..][k] == list[k + 1];
        }
        assert forall j :: 1 <= j < |r| ==> r[j] == rest[j - 1];
      }
    }
  }

  lemma PlaceRecent(c: Cache, force: bool, e: Entry, uses: seq<Ip>)
    requires ByRecency(c.list, uses) && Index(c.list, e.ip) == |c.list| && Place(c, force, e).Some?
    ensures ByRecency(Place(c, force, e).value.c.list, uses + [e.ip])
  {
    hide LastUse, Index;
    if c.free > 0 {
      ConsRecent(c.list, e, uses);
    } else {
      ConsRecent(c.list[..|c.list| - 1], e, uses);
    }
  }

  /** Every operation leaves the list in order of last use. */
  lemma ApplyRecent(c: Cache, op: Op, uses: seq<Ip>)
    requires CacheOk(c) && ByRecency(c.list, uses)
    ensures ByRecency(Apply(c, op).c.list, uses + Used(c, op))
  {
    hide LastUse, Index, Touch, Place, Age, AgeAll, EntryOk, ByRecency;
    assert uses + [] == uses;
    match op
    case DoFind(ip) =>
      var i := Index(c.list, ip);
      if i < |c.list| { TouchRecent(c.list, i, uses); }
    case DoLearn(ip, hw, force) =>
      var i, e := Index(c.list, ip), Entry(ip, hw, Resolved, STABLE_SCANS, RETRIES, []);
      if i < |c.list| {
        TouchRecent(c.list, i, uses);
        HeadRecent(Touch(c.list, i), e, uses + [ip]);
      } else {
        PlaceSome(c, force, e);
        if Place(c, force, e).Some? { PlaceRecent(c, force, e, uses); }
      }
    case DoResolve(ip, pkt, asked) =>
      var i := Index(c.list, ip);
      if i < |c.list| {
        TouchRecent(c.list, i, uses);
        var e := Touch(c.list, i)[0];
        HeadRecent(Touch(c.list, i), e.(pending := [pkt] + e.pending), uses + [ip]);
      } else {
        var e := Entry(ip, 0, Waiting, PENDING_SCANS, RETRIES, [pkt]);
        PlaceSome(c, true, e);
        if Place(c, true, e).Some? { PlaceRecent(c, true, e, uses); }
      }
    case DoScan => AgeAllRecent(c.list, uses);
  }

  // ---------------------------------------------------------------- packets

  lemma {:induction false} PacketsConcat(a: seq<Entry>, b: seq<Entry>)
    ensures Packets(a + b) == Packets(a) + Packets(b)
  {
    if a == [] {
      assert a + b == b;
    } else {
      assert (a + b)[1..] == a[1..] + b;
      PacketsConcat(a[1..], b);
    }
  }

  function Held(list: seq<Entry>): multiset<Pkt> {
    multiset(Packets(list))
  }

  lemma HeldConcat(a: seq<Entry>, b: seq<Entry>)
    ensures Held(a + b) == Held(a) + Held(b)
  {
    PacketsConcat(a, b);
  }

  lemma HeldOne(e: Entry)
    ensures Held([e]) == multiset(e.pending)
  {
    assert Packets([e]) == e.pending + Packets([]);
  }

  lemma TouchHeld(list: seq<Entry>, i: nat)
    requires i < |list|
    ensures Held(Touch(list, i)) == Held(list)
  {
    hide Held;
    HeldConcat([list[i]], list[..i] + list[i + 1..]);
    HeldConcat(list[..i], list[i + 1..]);
    HeldConcat(list[..i], [list[i]]);
    HeldConcat(list[..i] + [list[i]], list[i + 1..]);
    assert list == list[..i] + [list[i]] + list[i + 1..];
  }

  lemma HeadHeld(list: seq<Entry>, e: Entry)
    requires list != []
    ensures Held(list[0 := e]) + multiset(list[0].pending) == Held(list) + multiset(e.pending)
  {
    hide Held;
    assert list == [list[0]] + list[1..] && list[0 := e] == [e] + list[1..];
    HeldConcat([list[0]], list[1..]);
    HeldConcat([e], list[1..]);
    HeldOne(e);
    HeldOne(list[0]);
  }

  lemma PlaceHeld(c: Cache, force: bool, e: Entry)
    requires Place(c, force, e).Some?
    ensures var r := Place(c, force, e).value;
      Held(r.c.list) + multiset(r.dropped) == Held(c.list) + multiset(e.pending)
  {
    hide Held;
    HeldOne(e);
    if c.free > 0 {
      HeldConcat([e], c.list);
    } else {
      var n := |c.list| - 1;
      HeldConcat([e], c.list[..n]);
      HeldConcat(c.list[..n], [c.list[n]]);
      HeldOne(c.list[n]);
      assert c.list == c.list[..n] + [c.list[n]];
    }
  }

  lemma {:induction false} AgeAllHeld(list: seq<Entry>)
    ensures Held(AgeAll(list)) + Held(Expired(list)) == Held(list)
  {
    if list != [] {
      AgeAllHeld(list[1..]);
      hide Held;
      assert list == [list[0]] + list[1..];
      HeldConcat([list[0]], list[1..]);
      HeldOne(list[0]);
      match Age(list[0])
      case None =>
        HeldConcat([list[0]], Expired(list[1..]));
      case Some(e) =>
        HeldConcat([e], AgeAll(list[1..]));
        HeldOne(e);
        assert e.pending == list[0].pending;
    }
  }

  function Given(op: Op): multiset<Pkt> {
    match op
    case DoResolve(_, pkt, _) => multiset{pkt}
    case _ => multiset{}
  }

  /** A resolve starts to wait for a new address and its request does not go out. */
  predicate RequestFails(c: Cache, op: Op) {
    op.DoResolve? && !op.asked && Index(c.list, op.ip) == |c.list| && Used(c, op) != []
  }

  /** The packet that is then held and released. */
  function Twice(c: Cache, op: Op): multiset<Pkt> {
    if RequestFails(c, op) then multiset{op.pkt} else multiset{}
  }

  /** No operation loses a packet: each is held, handed to the link layer or released, and only
      once, but for the packet of a failed request. */
  lemma ApplyConserves(c: Cache, op: Op)
    ensures var r := Apply(c, op);
      Held(r.c.list) + multiset(r.sent) + multiset(r.dropped) == Held(c.list) + Given(op) + Twice(c, op)
  {
    hide Index, Touch, Place, Age, AgeAll, Expired, Held;
    match op
    case DoFind(ip) =>
      var i := Index(c.list, ip);
      if i < |c.list| { TouchHeld(c.list, i); }
    case DoLearn(ip, hw, force) =>
      var i, e := Index(c.list, ip), Entry(ip, hw, Resolved, STABLE_SCANS, RETRIES, []);
      if i < |c.list| {
        TouchHeld(c.list, i);
        HeadHeld(Touch(c.list, i), e);
      } else {
        if Place(c, force, e).Some? { PlaceSent(c, force, e); PlaceHeld(c, force, e); }
      }
    case DoResolve(ip, pkt, asked) =>
      ResolveConserves(c, ip, pkt, asked);
    case DoScan => 
      AgeAllHeld(c.list);
      assert multiset(Packets(Expired(c.list))) == Held(Expired(c.list)) by { HeldIs(Expired(c.list)); }
  }

  lemma HeldIs(list: seq<Entry>)
    ensures Held(list) == multiset(Packets(list))
  {
  }

  lemma PlaceSent(c: Cache, force: bool, e: Entry)
    ensures Place(c, force, e).Some? ==> Place(c, force, e).value.sent == []
  {
  }

  lemma Cancel(a: multiset<Pkt>, b: multiset<Pkt>, p: multiset<Pkt>)
    requires a + p == b + p
    ensures a == b
  {
    forall x ensures a[x] == b[x] {
      assert (a + p)[x] == (b + p)[x];
    }
  }

  lemma ResolveConserves(c: Cache, ip: Ip, pkt: Pkt, asked: bool)
    ensures var r := Resolve(c, ip, pkt, asked);
      Held(r.c.list) + multiset(r.sent) + multiset(r.dropped) ==
        Held(c.list) + multiset{pkt} + Twice(c, DoResolve(ip, pkt, asked))
  {
    hide Index, Touch, Place, Held;
    var i := Index(c.list, ip);
    if i < |c.list| {
      var l := Touch(c.list, i);
      TouchHeld(c.list, i);
      QueuedHeld(l, pkt);
    } else {
      var e := Entry(ip, 0, Waiting, PENDING_SCANS, RETRIES, [pkt]);
      PlaceSome(c, true, e);
      if Place(c, true, e).Some? { NewHeld(c, e, pkt, asked); }
    }
  }

  lemma QueuedHeld(l: seq<Entry>, pkt: Pkt)
    requires l != []
    ensures Held(l[0 := l[0].(pending := [pkt] + l[0].pending)]) == Held(l) + multiset{pkt}
  {
    hide Held;
    var e := l[0];
    HeadHeld(l, e.(pending := [pkt] + e.pending));
    assert multiset([pkt] + e.pending) == multiset{pkt} + multiset(e.pending);
    Cancel(Held(l[0 := e.(pending := [pkt] + e.pending)]), Held(l) + multiset{pkt}, multiset(e.pending));
  }

  lemma NewHeld(c: Cache, e: Entry, pkt: Pkt, asked: bool)
    requires Place(c, true, e).Some? && e.pending == [pkt]
    ensures var r := Place(c, true, e).value;
      && r.sent == []
      && Held(r.c.list) + multiset(r.dropped + if asked then [] else [pkt]) ==
           Held(c.list) + multiset{pkt} + if asked then multiset{} else multiset{pkt}
  {
    hide Held, Place;
    PlaceSent(c, true, e);
    PlaceHeld(c, true, e);
    var d := Place(c, true, e).value.dropped;
    assert multiset(d + [pkt]) == multiset(d) + multiset{pkt} && d + [] == d;
  }

  // ---------------------------------------------------------------- runs

  /** The cache with its history: addresses used, packets taken in, sent and released, and the
      packets of failed requests. */
  datatype Sys = Sys(c: Cache, uses: seq<Ip>, given: multiset<Pkt>, sent: multiset<Pkt>, dropped: multiset<Pkt>,
                     twice: multiset<Pkt>)

  const Start := Sys(Cache([], ARP_CACHE_SIZE), [], multiset{}, multiset{}, multiset{}, multiset{})

  function Step(s: Sys, op: Op): Sys {
    var r := Apply(s.c, op);
    Sys(r.c, s.uses + Used(s.c, op), s.given + Given(op), s.sent + multiset(r.sent), s.dropped + multiset(r.dropped),
        s.twice + Twice(s.c, op))
  }

  function After(s: Sys, ops: seq<Op>): Sys {
    if ops == [] then s else Step(After(s, ops[..|ops| - 1]), ops[|ops| - 1])
  }

  predicate SysOk(s: Sys) {
    && CacheOk(s.c)
    && ByRecency(s.c.list, s.uses)
    && Held(s.c.list) + s.sent + s.dropped == s.given + s.twice
  }

  lemma StepOk(s: Sys, op: Op)
    requires SysOk(s)
    ensures SysOk(Step(s, op))
  {
    hide Apply, CacheOk, ByRecency, Held, Used, Given, Twice;
    ApplyOk(s.c, op);
    ApplyRecent(s.c, op, s.uses);
    ApplyConserves(s.c, op);
    var r := Apply(s.c, op);
    AddUp(Held(s.c.list), s.sent, s.dropped, s.given, s.twice,
          Held(r.c.list), multiset(r.sent), multiset(r.dropped), Given(op), Twice(s.c, op));
  }

  lemma AddUp(h: multiset<Pkt>, s: multiset<Pkt>, d: multiset<Pkt>, g: multiset<Pkt>, t: multiset<Pkt>,
              h': multiset<Pkt>, s': multiset<Pkt>, d': multiset<Pkt>, g': multiset<Pkt>, t': multiset<Pkt>)
    requires h + s + d == g + t && h' + s' + d' == h + g' + t'
    ensures h' + (s + s') + (d + d') == (g + g') + (t + t')
  {
    forall x ensures (h' + (s + s') + (d + d'))[x] == ((g + g') + (t + t'))[x] {
      assert (h + s + d)[x] == (g + t)[x] && (h' + s' + d')[x] == (h + g' + t')[x];
    }
  }

  lemma {:induction false} AfterOk(s: Sys, ops: seq<Op>)
    requires SysOk(s)
    ensures SysOk(After(s, ops))
  {
    if ops != [] {
      var n := |ops| - 1;
      AfterOk(s, ops[..n]);
      hide SysOk, Step;
      StepOk(After(s, ops[..n]), ops[n]);
    }
  }

  /** After any run: one entry per address, listed and free entries make up the cache, resolved
      entries hold no packet and no entry more than eleven, the list is in order of last use, and
      every packet taken in is held, handed on or released once, those of failed requests twice. */
  lemma EveryRun(ops: seq<Op>)
    ensures SysOk(After(Start, ops))
  {
    hide After;
    AfterOk(Start, ops);
  }

  /** No request for a new address failed in this run. */
  ghost predicate AllAsked(ops: seq<Op>) {
    forall k :: 0 <= k < |ops| ==> !RequestFails(After(Start, ops[..k]).c, ops[k])
  }

  lemma AllAskedSnoc(ops: seq<Op>)
    requires ops != []
    ensures var n := |ops| - 1;
      AllAsked(ops) <==> AllAsked(ops[..n]) && !RequestFails(After(Start, ops[..n]).c, ops[n])
  {
    hide After, RequestFails;
    var n := |ops| - 1;
    assert forall k :: 0 <= k < n ==> ops[..n][..k] == ops[..k];
    if AllAsked(ops[..n]) && !RequestFails(After(Start, ops[..n]).c, ops[n]) {
      forall k | 0 <= k < |ops| ensures !RequestFails(After(Start, ops[..k]).c, ops[k]) {
        if k < n { assert !RequestFails(After(Start, ops[..n][..k]).c, ops[..n][k]); }
      }
    }
    if AllAsked(ops) {
      forall k | 0 <= k < n ensures !RequestFails(After(Start, ops[..n][..k]).c, ops[..n][k]) {
        assert !RequestFails(After(Start, ops[..k]).c, ops[k]);
      }
    }
  }

  lemma {:induction false} TwiceInRun(ops: seq<Op>)
    ensures After(Start, ops).twice == multiset{} <==> AllAsked(ops)
  {
    hide Apply, Used, Given, RequestFails, AllAsked;
    if ops == [] {
      NothingAsked();
    } else {
      var n := |ops| - 1;
      TwiceInRun(ops[..n]);
      AllAskedSnoc(ops);
      var s := After(Start, ops[..n]);
      SumEmpty(s.twice, Twice(s.c, ops[n]));
    }
  }

  lemma NothingAsked()
    ensures AllAsked([])
  {
  }

  lemma SumEmpty(a: multiset<Pkt>, b: multiset<Pkt>)
    ensures a + b == multiset{} <==> a == multiset{} && b == multiset{}
  {
    assert |a + b| == |a| + |b|;
  }

  /** Packets are conserved over a run exactly when no request for a new address failed in it. */
  lemma ConservedExactly(ops: seq<Op>)
    ensures var s := After(Start, ops);
      Held(s.c.list) + s.sent + s.dropped == s.given <==> AllAsked(ops)
  {
    EveryRun(ops);
    TwiceInRun(ops);
    hide After, CacheOk, ByRecency, Held, AllAsked;
    var s := After(Start, ops);
    assert s.given + s.twice == s.given <==> s.twice == multiset{} by { Surplus(s.given, s.twice); }
  }

  lemma Surplus(g: multiset<Pkt>, t: multiset<Pkt>)
    ensures g + t == g <==> t == multiset{}
  {
    if t != multiset{} {
      var p :| p in t;
      assert (g + t)[p] > g[p];
    }
  }

  /** One resolve whose request fails: its packet waits on the entry and is released as well. */
  lemma HeldAndReleased(ip: Ip, pkt: Pkt)
    ensures var s := After(Start, [DoResolve(ip, pkt, false)]);
      s.given == multiset{pkt} && pkt in Held(s.c.list) && pkt in s.dropped
  {
    var ops := [DoResolve(ip, pkt, false)];
    assert ops[..0] == [];
    assert After(Start, ops) == Step(Start, ops[0]);
    var e := Entry(ip, 0, Waiting, PENDING_SCANS, RETRIES, [pkt]);
    assert After(Start, ops).c.list == [e] by { assert [e] + [] == [e]; }
    HeldOne(e);
  }

  /** An eviction in any run takes the entry whose last use lies furthest back. */
  lemma EvictsLeastRecent(ops: seq<Op>, op: Op, x: Ip)
    requires var s := After(Start, ops); Evicts(s.c, op) && Has(s.c.list, x)
    ensures var s := After(Start, ops);
      var victim := s.c.list[|s.c.list| - 1].ip;
      if x == victim then Lookup(Apply(s.c, op).c.list, x).None?
      else LastUse(s.uses, victim) < LastUse(s.uses, x) && Lookup(Apply(s.c, op).c.list, x) == Lookup(s.c.list, x)
  {
    EveryRun(ops);
    var s := After(Start, ops);
    hide After, Apply, LastUse, EntryOk, Lookup, Index;
    ApplyIsMapStep(s.c, op, x);
    var i :| 0 <= i < |s.c.list| && s.c.list[i].ip == x;
  }

  // ---------------------------------------------------------------- ageing

  /** Scans an entry has left without any ARP traffic for it. */
  function Life(e: Entry): int {
    match e.state
    case Resolved => e.tmo + PENDING_SCANS * RETRIES
    case Waiting => e.tmo + PENDING_SCANS * (e.retry - 1)
  }

  function Scans(ops: seq<Op>): nat {
    if ops == [] then 0
    else Scans(ops[..|ops| - 1]) + if ops[|ops| - 1].DoScan? then 1 else 0
  }

  /** In this run `x` hears no ARP packet and is not evicted. */
  predicate LeftAlone(s: Sys, ops: seq<Op>, x: Ip) {
    ops == [] ||
    (var n := |ops| - 1; var t := After(s, ops[..n]).c;
     && LeftAlone(s, ops[..n], x)
     && !(ops[n].DoLearn? && ops[n].ip == x)
     && !(Evicts(t, ops[n]) && t.list[|t.list| - 1].ip == x))
  }

  lemma AgeLowersLife(e: Entry)
    requires EntryOk(e)
    ensures Age(e).None? <==> Life(e) == 1
    ensures Age(e).Some? ==> Life(Age(e).value) == Life(e) - 1
    ensures Life(e) >= 1
  {
  }

  lemma MapStepLife(c: Cache, op: Op, x: Ip)
    requires CacheOk(c) && Lookup(c.list, x).Some?
    requires !(op.DoLearn? && op.ip == x) && !(Evicts(c, op) && c.list[|c.list| - 1].ip == x)
    requires op.DoScan? ==> Life(Lookup(c.list, x).value) > 1
    ensures MapStep(c, op, x).Some?
    ensures Life(MapStep(c, op, x).value) == Life(Lookup(c.list, x).value) - if op.DoScan? then 1 else 0
  {
    hide Age, Index, Evicts, Used;
    var e := Lookup(c.list, x).value;
    assert EntryOk(e);
    AgeLowersLife(e);
  }

  /** Each scan takes one from an entry's life, whatever lookups, queued packets and other
      addresses come between, until one is left. */
  lemma {:induction false} LifeInRun(s: Sys, ops: seq<Op>, x: Ip)
    requires SysOk(s) && Lookup(s.c.list, x).Some? && LeftAlone(s, ops, x)
    requires Scans(ops) < Life(Lookup(s.c.list, x).value)
    ensures var l := After(s, ops).c.list;
      Lookup(l, x).Some? && Life(Lookup(l, x).value) == Life(Lookup(s.c.list, x).value) - Scans(ops)
  {
    if ops != [] {
      var n := |ops| - 1;
      LifeInRun(s, ops[..n], x);
      AfterOk(s, ops[..n]);
      var t := After(s, ops[..n]);
      hide Apply, Life, CacheOk, ByRecency, Held, MapStep, Evicts, Lookup;
      ApplyIsMapStep(t.c, ops[n], x);
      MapStepLife(t.c, ops[n], x);
    }
  }

  /** The scan that takes the last of an entry's life frees it, and no earlier one does. */
  lemma FreedExactly(s: Sys, ops: seq<Op>, x: Ip)
    requires SysOk(s) && Lookup(s.c.list, x).Some? && LeftAlone(s, ops, x)
    requires Scans(ops) < Life(Lookup(s.c.list, x).value)
    ensures var left := Life(Lookup(s.c.list, x).value) - Scans(ops);
      Lookup(Apply(After(s, ops).c, DoScan).c.list, x).None? <==> left == 1
  {
    hide Age, Apply, ByRecency, Held, LeftAlone, After, Scans, AgeAll;
    LifeInRun(s, ops, x);
    AfterOk(s, ops);
    var c := After(s, ops).c;
    var e := Lookup(c.list, x).value;
    assert EntryOk(e);
    AgeLowersLife(e);
    ApplyIsMapStep(c, DoScan, x);
  }

  /** An ARP packet gives its sender 1209 scans, when the entry finds a place. */
  lemma LearnGives1209(c: Cache, ip: Ip, hw: Hw, force: bool)
    requires CacheOk(c) && Used(c, DoLearn(ip, hw, force)) != []
    ensures var l := Learn(c, ip, hw, force).c.list;
      && Lookup(l, ip).Some? && Lookup(l, ip).value.hw == hw
      && Lookup(l, ip).value.state.Resolved? && Life(Lookup(l, ip).value) == 1209
  {
    hide Learn, Lookup, EntryOk;
    LearnLookup(c, ip, hw, force, ip);
    EvictedIsListed(c, DoLearn(ip, hw, force), ip);
  }

  /** A packet for an unknown address starts a wait of 9 scans. */
  lemma ResolveGives9(c: Cache, ip: Ip, pkt: Pkt, asked: bool)
    requires CacheOk(c) && Lookup(c.list, ip).None?
    ensures var l := Resolve(c, ip, pkt, asked).c.list;
      && Lookup(l, ip).Some? && Lookup(l, ip).value.pending == [pkt]
      && Lookup(l, ip).value.state.Waiting? && Life(Lookup(l, ip).value) == 9
  {
    hide Resolve, EntryOk;
    ResolveLookup(c, ip, pkt, asked, ip);
    EvictedIsListed(c, DoResolve(ip, pkt, asked), ip);
  }

  lemma EvictedIsListed(c: Cache, op: Op, ip: Ip)
    requires !op.DoScan? && op.ip == ip
    ensures Evicts(c, op) ==> c.list[|c.list| - 1].ip != ip
  {
  }

  /** In any run, a packet for an unknown address waits through eight scans; the ninth frees it. */
  lemma WaitingLastsNine(before: seq<Op>, ip: Ip, pkt: Pkt, asked: bool, ops: seq<Op>)
    requires Lookup(After(Start, before).c.list, ip).None?
    requires LeftAlone(Step(After(Start, before), DoResolve(ip, pkt, asked)), ops, ip) && Scans(ops) < 9
    ensures var t := After(Step(After(Start, before), DoResolve(ip, pkt, asked)), ops);
      && Lookup(t.c.list, ip).Some?
      && (Lookup(Apply(t.c, DoScan).c.list, ip).None? <==> Scans(ops) == 8)
  {
    var s := After(Start, before);
    var t := Step(s, DoResolve(ip, pkt, asked));
    EveryRun(before);
    StepOk(s, DoResolve(ip, pkt, asked));
    hide After, LeftAlone, Scans, Lookup, Life, Resolve, AgeAll, ByRecency, Held, EntryOk, Used;
    ResolveGives9(s.c, ip, pkt, asked);
    LifeInRun(t, ops, ip);
    FreedExactly(t, ops, ip);
  }

  /** In any run, a learned address stays through 1208 scans without ARP traffic; the next frees it. */
  lemma LearnedLasts1209(before: seq<Op>, ip: Ip, hw: Hw, force: bool, ops: seq<Op>)
    requires Used(After(Start, before).c, DoLearn(ip, hw, force)) != []
    requires LeftAlone(Step(After(Start, before), DoLearn(ip, hw, force)), ops, ip) && Scans(ops) < 1209
    ensures var t := After(Step(After(Start, before), DoLearn(ip, hw, force)), ops);
      && Lookup(t.c.list, ip).Some?
      && (Lookup(Apply(t.c, DoScan).c.list, ip).None? <==> Scans(ops) == 1208)
  {
    var s := After(Start, before);
    var t := Step(s, DoLearn(ip, hw, force));
    EveryRun(before);
    StepOk(s, DoLearn(ip, hw, force));
    hide After, LeftAlone, Scans, Lookup, Life, Learn, AgeAll, ByRecency, Held, EntryOk, Used;
    LearnGives1209(s.c, ip, hw, force);
    LifeInRun(t, ops, ip);
    FreedExactly(t, ops, ip);
  }

  /** What is left of an entry's life tells its state. */
  lemma LifeTellsState(e: Entry)
    requires EntryOk(e)
    ensures e.state.Resolved? <==> Life(e) > PENDING_SCANS * RETRIES
  {
  }

  /** In any run, a packet for a learned address goes out at once, and alone, until 1200 scans have
      passed without ARP traffic. */
  lemma ResolvedSends(before: seq<Op>, ip: Ip, hw: Hw, force: bool, ops: seq<Op>, pkt: Pkt, asked: bool)
    requires Used(After(Start, before).c, DoLearn(ip, hw, force)) != []
    requires LeftAlone(Step(After(Start, before), DoLearn(ip, hw, force)), ops, ip) && Scans(ops) < STABLE_SCANS
    ensures var r := Resolve(After(Step(After(Start, before), DoLearn(ip, hw, force)), ops).c, ip, pkt, asked);
      r.sent == [pkt] && r.dropped == []
  {
    var s := After(Start, before);
    var t := Step(s, DoLearn(ip, hw, force));
    EveryRun(before);
    StepOk(s, DoLearn(ip, hw, force));
    hide After, LeftAlone, Scans, Lookup, Life, Learn, Resolve, AgeAll, ByRecency, Held, EntryOk, Used;
    LearnGives1209(s.c, ip, hw, force);
    LifeInRun(t, ops, ip);
    AfterOk(t, ops);
    LivelySends(After(t, ops).c, ip, pkt, asked);
  }

  /** An entry with more than the life of a waiting one answers at once. */
  lemma LivelySends(c: Cache, ip: Ip, pkt: Pkt, asked: bool)
    requires CacheOk(c) && Lookup(c.list, ip).Some? && Life(Lookup(c.list, ip).value) > PENDING_SCANS * RETRIES
    ensures Resolve(c, ip, pkt, asked).sent == [pkt] && Resolve(c, ip, pkt, asked).dropped == []
  {
    hide Life, Index, Touch, Place, EntryOk;
    LifeTellsState(Lookup(c.list, ip).value);
  }

  // ---------------------------------------------------------------- the cache in place

  lemma {:induction false} AgeAllConcat(a: seq<Entry>, b: seq<Entry>)
    ensures AgeAll(a + b) == AgeAll(a) + AgeAll(b) && Expired(a + b) == Expired(a) + Expired(b)
  {
    hide Age;
    if a == [] {
      assert a + b == b;
    } else {
      assert (a + b)[1..] == a[1..] + b;
      AgeAllConcat(a[1..], b);
    }
  }

  lemma AgeAllSnoc(list: seq<Entry>, k: nat)
    requires k < |list|
    ensures match Age(list[k])
      case Some(e) => AgeAll(list[..k + 1]) == AgeAll(list[..k]) + [e] && Expired(list[..k + 1]) == Expired(list[..k])
      case None =>
        && AgeAll(list[..k + 1]) == AgeAll(list[..k])
        && |Expired(list[..k + 1])| == |Expired(list[..k])| + 1
        && Packets(Expired(list[..k + 1])) == Packets(Expired(list[..k])) + list[k].pending
  {
    var e := list[k];
    assert list[..k + 1] == list[..k] + [e];
    AgeAllConcat(list[..k], [e]);
    assert [e][1..] == [];
    if Age(e).None? {
      assert Expired([e]) == [e];
      FreedPackets(Expired(list[..k]), e);
    }
  }

  class ArpTable {
    var list: seq<Entry>
    var free: nat

    ghost function View(): Cache
      reads this
    {
      Cache(list, free)
    }

    constructor ()
      ensures View() == Start.c
    {
      list, free := [], ARP_CACHE_SIZE;
    }

    /** cache_find: the entry found is moved to the front. */
    method CacheFind(ip: Ip) returns (found: bool)
      modifies this`list
      ensures View() == Find(old(View()), ip)
      ensures found <==> Index(old(list), ip) < |old(list)|
      ensures found ==> list == Touch(old(list), Index(old(list), ip)) && list[0].ip == ip
    {
      var i := 0;
      while i < |list| && list[i].ip != ip
        invariant i <= |list| && list == old(list)
        invariant forall j :: 0 <= j < i ==> list[j].ip != ip
      {
        i := i + 1;
      }
      assert i == Index(list, ip);
      found := i < |list|;
      if found {
        var e := list[i];
        list := list[..i] + list[i + 1..];
        list := [e] + list;
      }
    }

    /** cache_alloc: an entry is taken from the pool, or, by force, off the end of the list. */
    method CacheAlloc(force: bool) returns (ok: bool, dropped: seq<Pkt>)
      modifies this
      ensures ok <==> old(free) > 0 || (force && old(list) != [])
      ensures old(free) > 0 ==> free == old(free) - 1 && list == old(list) && dropped == []
      ensures old(free) == 0 ==> free == 0
      ensures !ok ==> list == old(list) && dropped == []
      ensures old(free) == 0 && ok ==>
        list == old(list)[..|old(list)| - 1] && dropped == old(list)[|old(list)| - 1].pending
    {
      ok, dropped := free > 0, [];
      if ok {
        free := free - 1;
      } else if force && list != [] {
        var n := |list| - 1;
        dropped := list[n].pending;
        list := list[..n];
        ok := true;
      }
    }

    /** cache_insert */
    method CacheInsert(ip: Ip, hw: Hw, force: bool) returns (sent: seq<Pkt>, dropped: seq<Pkt>)
      modifies this
      ensures Res(View(), sent, dropped) == Learn(old(View()), ip, hw, force)
    {
      hide Index, Touch;
      sent, dropped := [], [];
      var e := Entry(ip, hw, Resolved, STABLE_SCANS, RETRIES, []);
      var found := CacheFind(ip);
      if found {
        sent := list[0].pending;
        list := list[0 := e];
      } else {
        var ok;
        ok, dropped := CacheAlloc(force);
        if ok { list := [e] + list; }
      }
    }

    /** arp_resolve; the caller releases the packet whenever an error is returned. */
    method ArpResolve(ip: Ip, pkt: Pkt, asked: bool) returns (sent: seq<Pkt>, dropped: seq<Pkt>)
      modifies this
      ensures Res(View(), sent, dropped) == Resolve(old(View()), ip, pkt, asked)
    {
      hide Index, Touch;
      sent, dropped := [], [];
      var found := CacheFind(ip);
      if found {
        if list[0].state.Resolved? {
          sent := [pkt];
        } else if |list[0].pending| <= ARP_MAX_PKT_WAIT {
          list := list[0 := list[0].(pending := [pkt] + list[0].pending)];
        } else {
          dropped := [pkt];
        }
      } else {
        var ok;
        ok, dropped := CacheAlloc(true);
        if ok {
          list := [Entry(ip, 0, Waiting, PENDING_SCANS, RETRIES, [pkt])] + list;
          if !asked { dropped := dropped + [pkt]; }
        } else {
          dropped := [pkt];
        }
      }
    }

    /** The body of the scan for the entry at `i`. */
    method TmoEntry(i: nat) returns (freed: bool, dropped: seq<Pkt>)
      requires i < |list|
      modifies this
      ensures freed <==> Age(old(list)[i]).None?
      ensures freed ==>
        list == old(list)[..i] + old(list)[i + 1..] && free == old(free) + 1 && dropped == old(list)[i].pending
      ensures !freed ==> list == old(list)[i := Age(old(list)[i]).value] && free == old(free) && dropped == []
    {
      freed, dropped := false, [];
      list := list[i := list[i].(tmo := list[i].tmo - 1)];
      if list[i].tmo > 0 {
        return;
      }
      if list[i].state.Resolved? {
        list := list[i := list[i].(state := Waiting, tmo := PENDING_SCANS, retry := RETRIES)];
      } else {
        list := list[i := list[i].(retry := list[i].retry - 1)];
        if list[i].retry == 0 {
          freed, dropped := true, list[i].pending;
          list := list[..i] + list[i + 1..];
          free := free + 1;
        } else {
          list := list[i := list[i].(tmo := PENDING_SCANS)];
        }
      }
    }

    /** arp_cache_tmo: one pass over the list, freeing entries on the way. */
    method CacheTmo() returns (dropped: seq<Pkt>)
      modifies this
      ensures Res(View(), [], dropped) == Scan(old(View()))
    {
      hide AgeAll, Expired, Packets, Age;
      dropped := [];
      var i := 0;
      ghost var was, k := list, 0;
      assert was[..0] == [];
      ScanNone();
      while i < |list|
        invariant i <= |list| && k <= |was|
        invariant i == |AgeAll(was[..k])| && list == AgeAll(was[..k]) + was[k..]
        invariant free == old(free) + |Expired(was[..k])| && dropped == Packets(Expired(was[..k]))
        decreases |was| - k
      {
        ghost var done := AgeAll(was[..k]);
        assert list[i] == was[k] && list[..i] == done && list[i + 1..] == was[k + 1..];
        AgeAllSnoc(was, k);
        var freed, d := TmoEntry(i);
        dropped := dropped + d;
        if !freed {
          assert list == done + [Age(was[k]).value] + was[k + 1..];
          i := i + 1;
        }
        k := k + 1;
      }
      assert was[..k] == was;
    }
  }

  lemma ScanNone()
    ensures AgeAll([]) == [] && Expired([]) == [] && Packets([]) == []
  {
  }

  lemma FreedPackets(list: seq<Entry>, e: Entry)
    ensures Packets(list + [e]) == Packets(list) + e.pending
  {
    PacketsConcat(list, [e]);
    assert Packets([e]) == e.pending + Packets([]);
  }
}
