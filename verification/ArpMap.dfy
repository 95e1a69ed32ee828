/** The ARP cache against a plain map with a history of uses, over every run, and the order in
    which waiting packets leave. */
module ArpMap {
  import opened Common
  import opened ArpCache

  // ---------------------------------------------------------------- the reference

  /** Entries by address, and the addresses in the order they were used. There is no list. */
  datatype Ref = Ref(m: map<Ip, Entry>, uses: seq<Ip>)

  /** `x` is the address whose last use lies furthest back. */
  ghost predicate Oldest(m: map<Ip, Entry>, uses: seq<Ip>, x: Ip) {
    x in m && forall y :: y in m && y != x ==> LastUse(uses, x) < LastUse(uses, y)
  }

  /** Room for one more: a full cache forgets its oldest address. */
  ghost function Room(r: Ref): map<Ip, Entry> {
    if |r.m| < ARP_CACHE_SIZE || !(exists x :: Oldest(r.m, r.uses, x)) then r.m
    else
      var x :| Oldest(r.m, r.uses, x);
      r.m - {x}
  }

  function Queued(e: Entry, pkt: Pkt): Entry {
    if e.state.Waiting? && |e.pending| <= ARP_MAX_PKT_WAIT then e.(pending := [pkt] + e.pending) else e
  }

  ghost function RefStep(r: Ref, op: Op): Ref {
    match op
    case DoFind(ip) => if ip in r.m then r.(uses := r.uses + [ip]) else r
    case DoLearn(ip, hw, force) =>
      if ip !in r.m && |r.m| == ARP_CACHE_SIZE && !force then r
      else Ref((if ip in r.m then r.m else Room(r))[ip := Entry(ip, hw, Resolved, STABLE_SCANS, RETRIES, [])],
        r.uses + [ip])
    case DoResolve(ip, pkt, _) =>
      if ip in r.m then Ref(r.m[ip := Queued(r.m[ip], pkt)], r.uses + [ip])
      else Ref(Room(r)[ip := Entry(ip, 0, Waiting, PENDING_SCANS, RETRIES, [pkt])], r.uses + [ip])
    case DoScan => r.(m := map x | x in r.m && Age(r.m[x]).Some? :: Age(r.m[x]).value)
  }

  ghost function RefAfter(ops: seq<Op>): Ref {
    if ops == [] then Ref(map[], []) else RefStep(RefAfter(ops[..|ops| - 1]), ops[|ops| - 1])
  }

  // ---------------------------------------------------------------- the list as a map

  function MapOf(list: seq<Entry>): map<Ip, Entry> {
    if list == [] then map[] else MapOf(list[1..])[list[0].ip := list[0]]
  }

  lemma {:induction false} MapOfLookup(list: seq<Entry>, x: Ip)
    ensures Lookup(list, x) == if x in MapOf(list) then Some(MapOf(list)[x]) else None
  {
    if list != [] { MapOfLookup(list[1..], x); }
  }

  lemma {:induction false} MapOfSize(list: seq<Entry>)
    requires Distinct(list)
    ensures |MapOf(list)| == |list|
  {
    if list != [] {
      MapOfSize(list[1..]);
      HasTail(list);
      MapOfLookup(list[1..], list[0].ip);
      LookupHas(list[1..], list[0].ip);
      AddSize(MapOf(list[1..]), list[0].ip, list[0]);
    }
  }

  lemma AddSize(m: map<Ip, Entry>, k: Ip, e: Entry)
    requires k !in m
    ensures |m[k := e]| == |m| + 1
  {
    assert m[k := e].Keys == m.Keys + {k};
    assert |m[k := e]| == |m[k := e].Keys| && |m| == |m.Keys|;
  }

  /** The last of the list is the oldest address, and the only one that is. */
  lemma OldestIsLast(list: seq<Entry>, uses: seq<Ip>, x: Ip)
    requires Distinct(list) && ByRecency(list, uses) && list != []
    ensures Oldest(MapOf(list), uses, x) <==> x == list[|list| - 1].ip
  {
    hide LastUse, MapOf, Lookup;
    var n := |list| - 1;
    var last := list[n].ip;
    LastBefore(list, uses);
    forall y ensures y in MapOf(list) <==> Has(list, y) {
      MapOfLookup(list, y);
      LookupHas(list, y);
    }
    assert Has(list, last);
  }

  lemma LastBefore(list: seq<Entry>, uses: seq<Ip>)
    requires Distinct(list) && ByRecency(list, uses) && list != []
    ensures var last := list[|list| - 1].ip;
      forall y :: Has(list, y) && y != last ==> LastUse(uses, last) < LastUse(uses, y)
  {
    hide LastUse;
    var last := list[|list| - 1].ip;
    forall y | Has(list, y) && y != last ensures LastUse(uses, last) < LastUse(uses, y) {
      var i :| 0 <= i < |list| && list[i].ip == y;
      assert i < |list| - 1;
    }
  }

  lemma RoomIs(list: seq<Entry>, uses: seq<Ip>)
    requires Distinct(list) && ByRecency(list, uses) && |list| <= ARP_CACHE_SIZE
    ensures Room(Ref(MapOf(list), uses)) == if |list| < ARP_CACHE_SIZE then MapOf(list)
      else MapOf(list) - {list[|list| - 1].ip}
  {
    hide Oldest, MapOf, ByRecency, Distinct;
    MapOfSize(list);
    if |list| == ARP_CACHE_SIZE {
      var last := list[|list| - 1].ip;
      forall x ensures Oldest(MapOf(list), uses, x) <==> x == last { OldestIsLast(list, uses, x); }
      assert Oldest(MapOf(list), uses, last);
    }
  }

  // ---------------------------------------------------------------- one step, every run

  predicate Matches(s: Sys, r: Ref) {
    MapOf(s.c.list) == r.m && s.uses == r.uses
  }

  lemma IndexIn(list: seq<Entry>, ip: Ip)
    ensures ip in MapOf(list) <==> Index(list, ip) < |list|
  {
    MapOfLookup(list, ip);
  }

  lemma UsesAgree(s: Sys, r: Ref, op: Op)
    requires CacheOk(s.c) && Matches(s, r)
    ensures s.uses + Used(s.c, op) == RefStep(r, op).uses
  {
    hide Index, MapOf, Room, Age, EntryOk;
    assert s.uses + [] == s.uses;
    if !op.DoScan? { IndexIn(s.c.list, op.ip); }
    MapOfSize(s.c.list);
  }

  /** The reference answers for `x` as one step of the cache does. */
  lemma AnswerAgrees(s: Sys, r: Ref, op: Op, x: Ip)
    requires SysOk(s) && Matches(s, r)
    ensures MapStep(s.c, op, x) == if x in RefStep(r, op).m then Some(RefStep(r, op).m[x]) else None
  {
    hide Index, MapOf, Room, Age, EntryOk, ByRecency, Held, Lookup;
    var list := s.c.list;
    MapOfLookup(list, x);
    MapOfSize(list);
    RoomIs(list, s.uses);
    if !op.DoScan? {
      IndexIn(list, op.ip);
      MapOfLookup(list, op.ip);
    }
  }

  lemma StepAgrees(s: Sys, r: Ref, op: Op)
    requires SysOk(s) && Matches(s, r)
    ensures Matches(Step(s, op), RefStep(r, op))
  {
    hide Apply, RefStep, MapOf, SysOk, Used, MapStep, CacheOk, Lookup;
    assert CacheOk(s.c) by { OkCache(s); }
    UsesAgree(s, r, op);
    var l, m := Step(s, op).c.list, RefStep(r, op).m;
    forall x ensures (x in MapOf(l) <==> x in m) && (x in m ==> MapOf(l)[x] == m[x]) {
      MapOfLookup(l, x);
      ApplyIsMapStep(s.c, op, x);
      AnswerAgrees(s, r, op, x);
    }
    assert MapOf(l) == m;
  }

  lemma OkCache(s: Sys)
    requires SysOk(s)
    ensures CacheOk(s.c)
  {
  }

  /** After any run the cache holds exactly the entries of the map that forgets its least recently
      used address when it is full, and has the same history of uses. */
  lemma {:induction false} RunIsMap(ops: seq<Op>)
    ensures Matches(After(Start, ops), RefAfter(ops))
  {
    hide Step, RefStep, SysOk;
    if ops != [] {
      var n := |ops| - 1;
      RunIsMap(ops[..n]);
      EveryRun(ops[..n]);
      StepAgrees(After(Start, ops[..n]), RefAfter(ops[..n]), ops[n]);
    }
  }

  // ---------------------------------------------------------------- newest first

  /** The packets given for `x` in a run, the last one first. */
  function Newest(ops: seq<Op>, x: Ip): seq<Pkt> {
    if ops == [] then []
    else
      var n := |ops| - 1;
      (if ops[n].DoResolve? && ops[n].ip == x then [ops[n].pkt] else []) + Newest(ops[..n], x)
  }

  predicate Waits(list: seq<Entry>, x: Ip, pending: seq<Pkt>) {
    var e := Lookup(list, x);
    e.Some? && e.value.state.Waiting? && e.value.pending == pending
  }

  lemma WaitsStep(c: Cache, op: Op, x: Ip, pending: seq<Pkt>)
    requires CacheOk(c) && Waits(c.list, x, pending) && (op.DoScan? ==> Life(Lookup(c.list, x).value) > 1)
    requires !(op.DoLearn? && op.ip == x) && !(Evicts(c, op) && c.list[|c.list| - 1].ip == x)
    requires op.DoResolve? && op.ip == x ==> |pending| <= ARP_MAX_PKT_WAIT
    ensures Waits(Apply(c, op).c.list, x, if op.DoResolve? && op.ip == x then [op.pkt] + pending else pending)
  {
    hide Apply, Index, Evicts, EntryOk;
    ApplyIsMapStep(c, op, x);
  }

  /** While an entry waits, the packets given for it are put in front of those already there. */
  lemma {:induction false} PendingInRun(s: Sys, ops: seq<Op>, x: Ip, pending: seq<Pkt>)
    requires SysOk(s) && Waits(s.c.list, x, pending) && LeftAlone(s, ops, x)
    requires Scans(ops) < Life(Lookup(s.c.list, x).value) && |pending| + |Newest(ops, x)| <= ARP_MAX_PKT_WAIT + 1
    ensures Waits(After(s, ops).c.list, x, Newest(ops, x) + pending)
  {
    hide Apply, Lookup, Life, MapStep, Waits, Evicts, SysOk, CacheOk;
    if ops == [] {
      assert Newest(ops, x) + pending == pending;
    } else {
      var n := |ops| - 1;
      WaitsListed(s.c.list, x, pending);
      PendingInRun(s, ops[..n], x, pending);
      LifeInRun(s, ops[..n], x);
      AfterOk(s, ops[..n]);
      var t := After(s, ops[..n]);
      OkCache(t);
      WaitsStep(t.c, ops[n], x, Newest(ops[..n], x) + pending);
      Regroup(ops, x, pending);
    }
  }

  lemma WaitsListed(list: seq<Entry>, x: Ip, pending: seq<Pkt>)
    requires Waits(list, x, pending)
    ensures Lookup(list, x).Some?
  {
  }

  lemma Regroup(ops: seq<Op>, x: Ip, pending: seq<Pkt>)
    requires ops != []
    ensures var n := |ops| - 1; var older := Newest(ops[..n], x) + pending;
      Newest(ops, x) + pending == if ops[n].DoResolve? && ops[n].ip == x then [ops[n].pkt] + older else older
  {
  }

  lemma LearnSends(c: Cache, ip: Ip, hw: Hw, force: bool)
    requires Lookup(c.list, ip).Some?
    ensures Learn(c, ip, hw, force).sent == Lookup(c.list, ip).value.pending
  {
  }

  /** Packets that waited go out newest first: the answer to a request that waited for `first` and
      what came after it sends them in reverse order. */
  lemma NewestFirst(before: seq<Op>, ip: Ip, first: Pkt, asked: bool, ops: seq<Op>, hw: Hw, force: bool)
    requires Lookup(After(Start, before).c.list, ip).None?
    requires LeftAlone(Step(After(Start, before), DoResolve(ip, first, asked)), ops, ip) && Scans(ops) < 9
    requires |Newest(ops, ip)| <= ARP_MAX_PKT_WAIT
    ensures var t := After(Step(After(Start, before), DoResolve(ip, first, asked)), ops);
      Learn(t.c, ip, hw, force).sent == Newest(ops, ip) + [first]
  {
    var s := After(Start, before);
    var t := Step(s, DoResolve(ip, first, asked));
    EveryRun(before);
    StepOk(s, DoResolve(ip, first, asked));
    hide After, LeftAlone, Scans, Lookup, Life, Resolve, Learn, Held, ByRecency, EntryOk, Newest;
    ResolveGives9(s.c, ip, first, asked);
    PendingInRun(t, ops, ip, [first]);
    LearnSends(After(t, ops).c, ip, hw, force);
  }
}
