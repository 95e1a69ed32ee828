/** The timer list. Each timer stores the difference to the deadline before it; the list stands
    for a map from timer to remaining time. */
module TimerList {

  datatype Timer = Timer(id: nat, curr: nat, reload: nat, periodic: bool)

  /** What a timer means: its remaining time and how it is re-armed. */
  datatype Armed = Armed(left: nat, reload: nat, periodic: bool)

  // ---------------------------------------------------------------- meaning

  predicate Distinct(ts: seq<Timer>) {
    forall i, j :: 0 <= i < j < |ts| ==> ts[i].id != ts[j].id
  }

  predicate Listed(ts: seq<Timer>, id: nat) {
    exists i :: 0 <= i < |ts| && ts[i].id == id
  }

  /** The map a list stands for, when `base` ms lie before its first timer. */
  function Meaning(ts: seq<Timer>, base: nat): (m: map<nat, Armed>)
    ensures forall id :: id in m <==> Listed(ts, id)
  {
    if ts == [] then map[]
    else
      var rest := Meaning(ts[1..], base + ts[0].curr);
      assert forall id :: Listed(ts, id) <==> id == ts[0].id || Listed(ts[1..], id) by { ListedCons(ts); }
      rest[ts[0].id := Armed(base + ts[0].curr, ts[0].reload, ts[0].periodic)]
  }

  lemma ListedCons(ts: seq<Timer>)
    requires ts != []
    ensures forall id :: Listed(ts, id) <==> id == ts[0].id || Listed(ts[1..], id)
  {
    forall id | Listed(ts[1..], id) ensures Listed(ts, id) {
      var i :| 0 <= i < |ts[1..]| && ts[1..][i].id == id;
      assert ts[i + 1].id == id;
    }
    forall id | Listed(ts, id) && id != ts[0].id ensures Listed(ts[1..], id) {
      var i :| 0 <= i < |ts| && ts[i].id == id;
      assert ts[1..][i - 1].id == id;
    }
  }

  lemma DistinctCons(t: Timer, ts: seq<Timer>)
    ensures forall id :: Listed([t] + ts, id) <==> id == t.id || Listed(ts, id)
    ensures Distinct([t] + ts) <==> Distinct(ts) && !Listed(ts, t.id)
  {
    assert ([t] + ts)[1..] == ts;
    ListedCons([t] + ts);
    if Distinct([t] + ts) {
      forall i, j | 0 <= i < j < |ts|
        ensures ts[i].id != ts[j].id
      {
        assert ([t] + ts)[i + 1].id != ([t] + ts)[j + 1].id;
      }
      forall i | 0 <= i < |ts| ensures ts[i].id != t.id { assert ([t] + ts)[0].id != ([t] + ts)[i + 1].id; }
    }
  }

  lemma MeaningCons(t: Timer, ts: seq<Timer>, base: nat)
    ensures Meaning([t] + ts, base) == Meaning(ts, base + t.curr)[t.id := Armed(base + t.curr, t.reload, t.periodic)]
    ensures forall id :: Listed([t] + ts, id) <==> id == t.id || Listed(ts, id)
    ensures Distinct([t] + ts) <==> Distinct(ts) && !Listed(ts, t.id)
  {
    assert ([t] + ts)[1..] == ts;
    DistinctCons(t, ts);
  }

  // ---------------------------------------------------------------- operations

  /** insert_timer: walk past every shorter difference, take it off, and settle. */
  function Insert(ts: seq<Timer>, t: Timer): seq<Timer> {
    if ts == [] then [t]
    else if t.curr > ts[0].curr then [ts[0]] + Insert(ts[1..], t.(curr := t.curr - ts[0].curr))
    else if t.curr == ts[0].curr then [ts[0]] + ([t.(curr := 0)] + ts[1..])
    else [t] + ([ts[0].(curr := ts[0].curr - t.curr)] + ts[1..])
  }

  /** net_timer_remove: the next timer inherits the difference. */
  function Remove(ts: seq<Timer>, id: nat): seq<Timer> {
    if ts == [] then []
    else if ts[0].id != id then [ts[0]] + Remove(ts[1..], id)
    else if |ts| == 1 then []
    else [ts[1].(curr := ts[1].curr + ts[0].curr)] + ts[2..]
  }

  datatype Scan = Scan(fired: seq<Timer>, rest: seq<Timer>)

  /** First loop of net_timer_check_tmo. */
  function Expire(ts: seq<Timer>, d: nat): Scan {
    if ts == [] then Scan([], [])
    else if ts[0].curr > d then Scan([], [ts[0].(curr := ts[0].curr - d)] + ts[1..])
    else
      var r := Expire(ts[1..], d - ts[0].curr);
      Scan([ts[0].(curr := 0)] + r.fired, r.rest)
  }

  /** Second loop: reload timers go back in with their period. */
  function Rearm(ts: seq<Timer>, fired: seq<Timer>): seq<Timer>
    decreases |fired|
  {
    if fired == [] then ts
    else Rearm(if fired[0].periodic then Insert(ts, fired[0].(curr := fired[0].reload)) else ts, fired[1..])
  }

  function Check(ts: seq<Timer>, d: nat): seq<Timer> {
    var r := Expire(ts, d);
    Rearm(r.rest, r.fired)
  }

  // ---------------------------------------------------------------- insertion and removal

  lemma InsertPast(h: Timer, rest: seq<Timer>, rest': seq<Timer>, t: Timer, base: nat)
    requires Distinct([h] + rest) && t.id != h.id && Distinct(rest')
    requires Meaning(rest', base + h.curr) ==
      Meaning(rest, base + h.curr)[t.id := Armed(base + h.curr + t.curr, t.reload, t.periodic)]
    ensures Distinct([h] + rest')
    ensures Meaning([h] + rest', base) ==
      Meaning([h] + rest, base)[t.id := Armed(base + h.curr + t.curr, t.reload, t.periodic)]
  {
    hide Meaning, Listed, Distinct;
    MeaningCons(h, rest, base);
    MeaningCons(h, rest', base);
    SameKeys(rest', base + h.curr);
    SameKeys(rest, base + h.curr);
  }

  /** Insertion adds one deadline and leaves every other unchanged. */
  lemma {:induction false} InsertMeans(ts: seq<Timer>, t: Timer, base: nat)
    requires Distinct(ts) && !Listed(ts, t.id)
    ensures Distinct(Insert(ts, t))
    ensures Meaning(Insert(ts, t), base) == Meaning(ts, base)[t.id := Armed(base + t.curr, t.reload, t.periodic)]
    decreases |ts|
  {
    hide Meaning, Listed, Distinct;
    if ts == [] {
      MeaningCons(t, [], base);
      assert [t] + [] == [t];
      MeaningNil(base);
    } else {
      var h, rest := ts[0], ts[1..];
      assert ts == [h] + rest;
      MeaningCons(h, rest, base);
      if t.curr > h.curr {
        var t' := t.(curr := t.curr - h.curr);
        InsertMeans(rest, t', base + h.curr);
        InsertPast(h, rest, Insert(rest, t'), t', base);
      } else if t.curr == h.curr {
        MeaningCons(t.(curr := 0), rest, base + h.curr);
        MeaningCons(h, [t.(curr := 0)] + rest, base);
      } else {
        var h' := h.(curr := h.curr - t.curr);
        MeaningCons(h', rest, base + t.curr);
        MeaningCons(t, [h'] + rest, base);
      }
    }
  }

  lemma MeaningNil(base: nat)
    ensures Meaning([], base) == map[] && Distinct([]) && forall id :: !Listed([], id)
  {
  }

  lemma SameKeys(ts: seq<Timer>, base: nat)
    ensures forall id :: id in Meaning(ts, base) <==> Listed(ts, id)
  {
  }

  /** Removal drops one deadline and leaves every other unchanged. */
  lemma {:induction false} RemoveMeans(ts: seq<Timer>, id: nat, base: nat)
    requires Distinct(ts)
    ensures Distinct(Remove(ts, id))
    ensures Meaning(Remove(ts, id), base) == Meaning(ts, base) - {id}
    decreases |ts|
  {
    hide Meaning, Listed, Distinct;
    MeaningNil(base);
    if ts != [] {
      var h, rest := ts[0], ts[1..];
      assert ts == [h] + rest;
      MeaningCons(h, rest, base);
      SameKeys(rest, base + h.curr);
      if h.id != id {
        RemoveMeans(rest, id, base + h.curr);
        MeaningCons(h, Remove(rest, id), base);
        SameKeys(Remove(rest, id), base + h.curr);
      } else if |ts| == 1 {
        MeaningNil(base + h.curr);
      } else {
        var n, tail := ts[1], ts[2..];
        assert rest == [n] + tail;
        MeaningCons(n, tail, base + h.curr);
        MeaningCons(n.(curr := n.curr + h.curr), tail, base);
      }
    }
  }

  // ---------------------------------------------------------------- expiry

  /** What a check of `d` ms does to the map. */
  function Elapse(m: map<nat, Armed>, d: nat): map<nat, Armed> {
    map id | id in m && (m[id].left > d || m[id].periodic) ::
      if m[id].left > d then m[id].(left := m[id].left - d) else m[id].(left := m[id].reload)
  }

  function Later(m: map<nat, Armed>, d: nat): map<nat, Armed> {
    map id | id in m && m[id].left > d :: m[id].(left := m[id].left - d)
  }

  /** The deadlines of `m'` are those of `m` and `e` more; none of `m` lies before `base`. */
  ghost predicate Shifted(m: map<nat, Armed>, m': map<nat, Armed>, base: nat, e: nat) {
    && m'.Keys == m.Keys
    && forall id :: id in m ==> base <= m[id].left && m'[id] == m[id].(left := m[id].left + e)
  }

  lemma ShiftedUpdate(m: map<nat, Armed>, m': map<nat, Armed>, base: nat, e: nat, id: nat, a: Armed, lower: nat)
    requires Shifted(m, m', base, e) && lower <= base && lower <= a.left
    ensures Shifted(m[id := a], m'[id := a.(left := a.left + e)], lower, e)
  {
  }

  lemma ShiftedNil(base: nat, e: nat)
    ensures Shifted(Meaning([], base), Meaning([], base + e), base, e)
  {
  }

  /** A later base moves every deadline by the same time, and none lies before its base. */
  lemma {:induction false} MeaningShift(ts: seq<Timer>, base: nat, e: nat)
    ensures Shifted(Meaning(ts, base), Meaning(ts, base + e), base, e)
    decreases |ts|
  {
    hide Meaning, Listed, Distinct, Shifted;
    if ts == [] {
      ShiftedNil(base, e);
    } else {
      var t, rest, b := ts[0], ts[1..], base + ts[0].curr;
      assert ts == [t] + rest;
      MeaningShift(rest, b, e);
      assert base + e + t.curr == b + e;
      MeaningCons(t, rest, base);
      MeaningCons(t, rest, base + e);
      ShiftedUpdate(Meaning(rest, b), Meaning(rest, b + e), b, e, t.id, Armed(b, t.reload, t.periodic), base);
    }
  }

  lemma LaterNil(d: nat)
    ensures Later(map[], d) == map[]
  {
  }

  lemma LaterUpdate(m: map<nat, Armed>, id: nat, a: Armed, d: nat)
    requires id !in m
    ensures Later(m[id := a], d) == if a.left > d then Later(m, d)[id := a.(left := a.left - d)] else Later(m, d)
  {
  }

  lemma LaterShift(ts: seq<Timer>, base: nat, e: nat)
    requires base > 0
    ensures Later(Meaning(ts, base + e), e) == Meaning(ts, base)
  {
    hide Meaning;
    MeaningShift(ts, base, e);
  }

  /** The list kept after `d` more ms: those left, that much closer. */
  lemma {:induction false} ExpireRest(ts: seq<Timer>, d: nat, base: nat)
    requires Distinct(ts)
    ensures Distinct(Expire(ts, d).rest)
    ensures Meaning(Expire(ts, d).rest, 0) == Later(Meaning(ts, base), base + d)
    decreases |ts|
  {
    hide Meaning, Listed, Distinct, Later;
    MeaningNil(0);
    MeaningNil(base);
    LaterNil(base + d);
    if ts != [] {
      var h, rest := ts[0], ts[1..];
      assert ts == [h] + rest;
      MeaningCons(h, rest, base);
      SameKeys(rest, base + h.curr);
      if h.curr > d {
        var h' := h.(curr := h.curr - d);
        MeaningCons(h', rest, 0);
        LaterShift(rest, h'.curr, base + d);
        assert base + h.curr == h'.curr + (base + d);
      } else {
        ExpireRest(rest, d - h.curr, base + h.curr);
      }
      LaterUpdate(Meaning(rest, base + h.curr), h.id, Armed(base + h.curr, h.reload, h.periodic), base + d);
    }
  }

  /** The timers that fire: exactly those due within `d` ms. */
  lemma {:induction false} ExpireFired(ts: seq<Timer>, d: nat, base: nat)
    requires Distinct(ts)
    ensures var f, m := Expire(ts, d).fired, Meaning(ts, base);
      && Distinct(f)
      && (forall id :: Listed(f, id) <==> id in m && m[id].left <= base + d)
      && (forall i :: 0 <= i < |f| ==>
        f[i].id in m && f[i].reload == m[f[i].id].reload && f[i].periodic == m[f[i].id].periodic)
    decreases |ts|
  {
    hide Meaning, Listed, Distinct;
    MeaningNil(base);
    if ts != [] {
      var h, rest := ts[0], ts[1..];
      assert ts == [h] + rest;
      MeaningCons(h, rest, base);
      SameKeys(rest, base + h.curr);
      if h.curr > d {
        MeaningShift(rest, base + h.curr, 0);
      } else {
        ExpireFired(rest, d - h.curr, base + h.curr);
        DistinctCons(h.(curr := 0), Expire(rest, d - h.curr).fired);
        ListedIds(Expire(rest, d - h.curr).fired);
      }
    }
  }

  lemma ListedIds(ts: seq<Timer>)
    ensures forall i :: 0 <= i < |ts| ==> Listed(ts, ts[i].id)
  {
  }

  /** They fire in the order of their deadlines. */
  lemma {:induction false} FiredInOrder(ts: seq<Timer>, d: nat, base: nat, i: nat, j: nat)
    requires Distinct(ts) && i <= j < |Expire(ts, d).fired|
    ensures var f, m := Expire(ts, d).fired, Meaning(ts, base);
      f[i].id in m && f[j].id in m && base <= m[f[i].id].left <= m[f[j].id].left
    decreases |ts|
  {
    hide Meaning, Listed, Distinct;
    ExpireFired(ts, d, base);
    var h, rest := ts[0], ts[1..];
    assert ts == [h] + rest;
    MeaningCons(h, rest, base);
    SameKeys(rest, base + h.curr);
    ExpireFired(rest, d - h.curr, base + h.curr);
    if i > 0 {
      FiredInOrder(rest, d - h.curr, base + h.curr, i - 1, j - 1);
    } else if j > 0 {
      FiredInOrder(rest, d - h.curr, base + h.curr, j - 1, j - 1);
    }
  }

  /** The deadlines that re-arming adds. */
  function Again(fired: seq<Timer>): (m: map<nat, Armed>)
    ensures forall id :: id in m ==> exists i :: 0 <= i < |fired| && fired[i].id == id
  {
    if fired == [] then map[]
    else
      var t, rest := fired[0], Again(fired[1..]);
      assert forall i :: 0 <= i < |fired[1..]| ==> fired[1..][i] == fired[i + 1];
      if t.periodic then rest[t.id := Armed(t.reload, t.reload, true)] else rest
  }

  lemma {:induction false} AgainAt(fired: seq<Timer>, i: nat)
    requires Distinct(fired) && i < |fired|
    ensures fired[i].id in Again(fired) <==> fired[i].periodic
    ensures fired[i].periodic ==> Again(fired)[fired[i].id] == Armed(fired[i].reload, fired[i].reload, true)
    decreases |fired|
  {
    if i > 0 { AgainAt(fired[1..], i - 1); }
  }

  /** Re-arming puts every reload timer at its period and leaves the others unchanged. */
  lemma {:induction false} RearmMeans(ts: seq<Timer>, fired: seq<Timer>)
    requires Distinct(ts) && Distinct(fired) && forall id :: Listed(fired, id) ==> !Listed(ts, id)
    ensures Distinct(Rearm(ts, fired))
    ensures Meaning(Rearm(ts, fired), 0) == Meaning(ts, 0) + Again(fired)
    decreases |fired|
  {
    hide Meaning, Listed, Distinct, Insert;
    if fired != [] {
      var t, rest := fired[0], fired[1..];
      assert fired == [t] + rest;
      DistinctCons(t, rest);
      var ts' := if t.periodic then Insert(ts, t.(curr := t.reload)) else ts;
      if t.periodic {
        InsertMeans(ts, t.(curr := t.reload), 0);
      }
      SameKeys(ts', 0);
      SameKeys(ts, 0);
      RearmMeans(ts', rest);
      AgainKeys(rest);
      assert t.id !in Again(rest);
    }
  }

  lemma AgainKeys(fired: seq<Timer>)
    ensures forall id :: id in Again(fired) ==> Listed(fired, id)
  {
  }

  /** A check refines the map: timers due within `d` fire once, reload timers among them are
      re-armed at their period, the others disappear, and all remaining ones come `d` closer. */
  lemma CheckMeans(ts: seq<Timer>, d: nat)
    requires Distinct(ts)
    ensures Distinct(Check(ts, d)) && Meaning(Check(ts, d), 0) == Elapse(Meaning(ts, 0), d)
  {
    hide Meaning, Listed, Distinct, Expire, Rearm;
    var r, m := Expire(ts, d), Meaning(ts, 0);
    ExpireRest(ts, d, 0);
    ExpireFired(ts, d, 0);
    SameKeys(r.rest, 0);
    RearmMeans(r.rest, r.fired);
    AgainKeys(r.fired);
    var now, want := Meaning(r.rest, 0) + Again(r.fired), Elapse(m, d);
    forall id | id in now || id in want ensures id in now && id in want && now[id] == want[id] {
      if id in m && m[id].left <= d {
        var i := FiredAt(r.fired, id);
        AgainAt(r.fired, i);
      }
    }
    assert now == want;
  }

  lemma FiredAt(ts: seq<Timer>, id: nat) returns (i: nat)
    requires Listed(ts, id)
    ensures i < |ts| && ts[i].id == id
  {
    i :| 0 <= i < |ts| && ts[i].id == id;
  }

  /** The first timer is the next one due. */
  lemma FirstIsNext(ts: seq<Timer>)
    requires ts != [] && Distinct(ts)
    ensures ts[0].id in Meaning(ts, 0) && Meaning(ts, 0)[ts[0].id].left == ts[0].curr
    ensures forall id :: id in Meaning(ts, 0) ==> ts[0].curr <= Meaning(ts, 0)[id].left
  {
    MeaningShift(ts[1..], ts[0].curr, 0);
  }

  // ---------------------------------------------------------------- every run

  datatype Op = Add(id: nat, ms: nat, periodic: bool) | Del(id: nat) | Tick(ms: nat)

  function Do(ts: seq<Timer>, op: Op): seq<Timer> {
    match op
    case Add(id, ms, periodic) => Insert(ts, Timer(id, ms, ms, periodic))
    case Del(id) => Remove(ts, id)
    case Tick(ms) => Check(ts, ms)
  }

  /** The same operations on the plain map. */
  function Want(m: map<nat, Armed>, op: Op): map<nat, Armed> {
    match op
    case Add(id, ms, periodic) => m[id := Armed(ms, ms, periodic)]
    case Del(id) => m - {id}
    case Tick(ms) => Elapse(m, ms)
  }

  function DoAll(ts: seq<Timer>, ops: seq<Op>): seq<Timer> {
    if ops == [] then ts else Do(DoAll(ts, ops[..|ops| - 1]), ops[|ops| - 1])
  }

  function WantAll(m: map<nat, Armed>, ops: seq<Op>): map<nat, Armed> {
    if ops == [] then m else Want(WantAll(m, ops[..|ops| - 1]), ops[|ops| - 1])
  }

  /** A timer is added only while it is not running. */
  predicate Proper(m: map<nat, Armed>, ops: seq<Op>) {
    forall k :: 0 <= k < |ops| && ops[k].Add? ==> ops[k].id !in WantAll(m, ops[..k])
  }

  /** The delta list refines the map over every run of additions, removals and checks. */
  lemma {:induction false} RunMeans(ts: seq<Timer>, ops: seq<Op>)
    requires Distinct(ts) && Proper(Meaning(ts, 0), ops)
    ensures Distinct(DoAll(ts, ops)) && Meaning(DoAll(ts, ops), 0) == WantAll(Meaning(ts, 0), ops)
    decreases |ops|
  {
    hide Meaning, Listed, Distinct, Insert, Remove, Check, Elapse;
    if ops != [] {
      var n := |ops| - 1;
      var m, init, op := Meaning(ts, 0), ops[..n], ops[n];
      forall k | 0 <= k < n && init[k].Add? ensures init[k].id !in WantAll(m, init[..k]) {
        assert init[..k] == ops[..k];
      }
      RunMeans(ts, init);
      var ts' := DoAll(ts, init);
      SameKeys(ts', 0);
      match op
      case Add(id, ms, periodic) => InsertMeans(ts', Timer(id, ms, ms, periodic), 0);
      case Del(id) => RemoveMeans(ts', id, 0);
      case Tick(ms) => CheckMeans(ts', ms);
    }
  }

  // ---------------------------------------------------------------- the code

  lemma WalkStart(ts: seq<Timer>, t: Timer)
    ensures Insert(ts, t) == ts[..0] + Insert(ts[0..], t)
  {
    assert ts[0..] == ts;
  }

  lemma WalkStep(ts: seq<Timer>, i: nat, t: Timer)
    requires i < |ts|
    ensures var h := ts[i]; var rest := ts[i + 1..];
      ts[..i] + Insert(ts[i..], t) ==
      if t.curr > h.curr then ts[..i + 1] + Insert(rest, t.(curr := t.curr - h.curr))
      else if t.curr == h.curr then ts[..i + 1] + ([t.(curr := 0)] + rest)
      else ts[..i] + ([t] + ([h.(curr := h.curr - t.curr)] + rest))
  {
    assert ts[i..][1..] == ts[i + 1..] && ts[..i + 1] == ts[..i] + [ts[i]];
  }

  lemma WalkEnd(ts: seq<Timer>, t: Timer)
    ensures ts[..|ts|] + Insert(ts[|ts|..], t) == ts + [t]
  {
    assert ts[..|ts|] == ts && ts[|ts|..] == [];
  }

  /** The walk of insert_timer: past every timer due earlier, then in front of the first due later. */
  method Inserted(list: seq<Timer>, t: Timer) returns (r: seq<Timer>)
    ensures r == Insert(list, t)
  {
    hide Insert;
    var i, curr := 0, t.curr;
    WalkStart(list, t);
    while i < |list|
      invariant 0 <= i <= |list| && 0 <= curr
      invariant Insert(list, t) == list[..i] + Insert(list[i..], t.(curr := curr))
    {
      var h := list[i];
      WalkStep(list, i, t.(curr := curr));
      if curr > h.curr {
        curr := curr - h.curr;
      } else if curr == h.curr {
        return list[..i + 1] + ([t.(curr := 0)] + list[i + 1..]);
      } else {
        return list[..i] + ([t.(curr := curr)] + ([h.(curr := h.curr - curr)] + list[i + 1..]));
      }
      i := i + 1;
    }
    WalkEnd(list, t.(curr := curr));
    r := list + [t.(curr := curr)];
  }

  // ---------------------------------------------------------------- callbacks that use the timers

  /** What the callback of each timer does: it may add and remove timers. */
  type Callbacks = nat -> seq<Op>

  /** The expired timers are called in turn, and each reload timer starts again after its call. */
  function RunMap(m: map<nat, Armed>, fired: seq<Timer>, cb: Callbacks): map<nat, Armed>
    decreases |fired|
  {
    if fired == [] then m
    else
      var f := fired[0];
      var m1 := WantAll(m, cb(f.id));
      RunMap(if f.periodic then m1[f.id := Armed(f.reload, f.reload, true)] else m1, fired[1..], cb)
  }

  /** What the code demands of a callback: it does not check the timers, and it adds no timer that
      runs or still waits to be called. A timer without reload may add itself again. */
  predicate Polite(m: map<nat, Armed>, fired: seq<Timer>, cb: Callbacks)
    decreases |fired|
  {
    fired == [] ||
    (var f := fired[0];
     var m1 := WantAll(m, cb(f.id));
     && Proper(m, cb(f.id))
     && (forall k :: 0 <= k < |cb(f.id)| ==>
       !cb(f.id)[k].Tick? && (cb(f.id)[k].Add? ==> !Listed(fired[1..], cb(f.id)[k].id)))
     && (f.periodic ==> f.id !in m1)
     && Polite(if f.periodic then m1[f.id := Armed(f.reload, f.reload, true)] else m1, fired[1..], cb))
  }

  predicate Spares(ops: seq<Op>, id: nat) {
    forall k :: 0 <= k < |ops| ==> !ops[k].Tick? && ops[k] != Del(id)
  }

  lemma {:induction false} WantAllKeeps(m: map<nat, Armed>, ops: seq<Op>, id: nat)
    requires id in m && Spares(ops, id)
    ensures id in WantAll(m, ops)
  {
    if ops != [] { WantAllKeeps(m, ops[..|ops| - 1], id); }
  }

  lemma {:induction false} RunMapKeeps(m: map<nat, Armed>, fired: seq<Timer>, cb: Callbacks, id: nat)
    requires id in m && forall k :: 0 <= k < |fired| ==> Spares(cb(fired[k].id), id)
    ensures id in RunMap(m, fired, cb)
    decreases |fired|
  {
    hide WantAll, Spares;
    if fired != [] {
      var f := fired[0];
      WantAllKeeps(m, cb(f.id), id);
      var m1 := WantAll(m, cb(f.id));
      RunMapKeeps(if f.periodic then m1[f.id := Armed(f.reload, f.reload, true)] else m1, fired[1..], cb, id);
    }
  }

  /** Removal comes too late for a timer that has expired: whatever the callbacks called before its
      own do, a reload timer runs again after the check, unless one called later removes it. */
  lemma {:induction false} RemovalTooLate(m: map<nat, Armed>, fired: seq<Timer>, cb: Callbacks, j: nat)
    requires j < |fired| && fired[j].periodic
    requires forall k :: j < k < |fired| ==> Spares(cb(fired[k].id), fired[j].id)
    ensures fired[j].id in RunMap(m, fired, cb)
    decreases |fired|
  {
    hide WantAll, Spares;
    var f := fired[0];
    var m1 := WantAll(m, cb(f.id));
    if j == 0 {
      RunMapKeeps(m1[f.id := Armed(f.reload, f.reload, true)], fired[1..], cb, f.id);
    } else {
      RemovalTooLate(if f.periodic then m1[f.id := Armed(f.reload, f.reload, true)] else m1, fired[1..], cb, j - 1);
    }
  }

  class Timers {
    var list: seq<Timer>

    ghost predicate Valid()
      reads this
    {
      Distinct(list)
    }

    /** Remaining time and mode of every running timer. */
    ghost function Running(): map<nat, Armed>
      reads this
    {
      Meaning(list, 0)
    }

    constructor ()
      ensures Valid() && Running() == map[]
    {
      list := [];
    }

    /** insert_timer */
    method InsertTimer(t: Timer)
      modifies this
      ensures list == Insert(old(list), t)
    {
      list := Inserted(list, t);
    }

    /** net_timer_add */
    method Add(id: nat, ms: nat, periodic: bool)
      requires Valid() && id !in Running()
      modifies this
      ensures Valid() && Running() == old(Running())[id := Armed(ms, ms, periodic)]
      ensures list == Insert(old(list), Timer(id, ms, ms, periodic))
    {
      hide Meaning, Insert, Listed, Distinct;
      SameKeys(list, 0);
      InsertMeans(list, Timer(id, ms, ms, periodic), 0);
      InsertTimer(Timer(id, ms, ms, periodic));
    }

    /** net_timer_remove */
    method Del(id: nat)
      requires Valid()
      modifies this
      ensures Valid() && Running() == old(Running()) - {id}
    {
      hide Meaning, Listed, Distinct;
      RemoveMeans(list, id, 0);
      var i := 0;
      assert list[0..] == list;
      assert list[..0] + Remove(list, id) == Remove(list, id);
      while i < |list|
        invariant 0 <= i <= |list| && list == old(list)
        invariant Remove(list, id) == list[..i] + Remove(list[i..], id)
      {
        var h := list[i];
        assert list[i..][1..] == list[i + 1..];
        if h.id == id {
          if i + 1 < |list| {
            var n := list[i + 1];
            assert list[i..][2..] == list[i + 2..];
            list := list[..i] + ([n.(curr := n.curr + h.curr)] + list[i + 2..]);
          } else {
            assert list[..i] + [] == list[..i];
            list := list[..i];
          }
          return;
        }
        assert list[..i] + ([h] + Remove(list[i + 1..], id)) == list[..i + 1] + Remove(list[i + 1..], id);
        i := i + 1;
      }
      assert list[..i] == list && list[i..] == [] && list + [] == list;
    }

    /** The first half of net_timer_check_tmo: expired timers leave the list. */
    method TakeExpired(ms: nat) returns (fired: seq<Timer>)
      modifies this
      ensures Expire(old(list), ms) == Scan(fired, list)
    {
      ghost var before := list;
      var d := ms;
      fired := [];
      assert [] + Expire(list, ms).fired == Expire(list, ms).fired;
      while list != [] && list[0].curr <= d
        invariant 0 <= d
        invariant Expire(before, ms) == Scan(fired + Expire(list, d).fired, Expire(list, d).rest)
        decreases |list|
      {
        var t := list[0];
        assert fired + ([t.(curr := 0)] + Expire(list[1..], d - t.curr).fired)
            == (fired + [t.(curr := 0)]) + Expire(list[1..], d - t.curr).fired;
        d := d - t.curr;
        fired := fired + [t.(curr := 0)];
        list := list[1..];
      }
      if list != [] { list := [list[0].(curr := list[0].curr - d)] + list[1..]; }
      assert fired + [] == fired;
    }

    /** net_timer_check_tmo with callbacks that leave the timers alone; `fired` is the order in
        which they are called. */
    method CheckTmo(ms: nat) returns (fired: seq<Timer>)
      requires Valid()
      modifies this
      ensures Valid() && Running() == Elapse(old(Running()), ms)
      ensures fired == Expire(old(list), ms).fired
    {
      hide Meaning, Listed, Distinct, Insert, Expire;
      CheckMeans(list, ms);
      ghost var before := list;
      fired := TakeExpired(ms);
      var i := 0;
      assert fired[0..] == fired;
      while i < |fired|
        invariant 0 <= i <= |fired| && Check(before, ms) == Rearm(list, fired[i..])
      {
        assert fired[i..][1..] == fired[i + 1..];
        if fired[i].periodic { InsertTimer(fired[i].(curr := fired[i].reload)); }
        i := i + 1;
      }
    }

    /** A callback adds and removes timers. */
    method Callback(ops: seq<Op>)
      requires Valid() && Proper(Running(), ops) && forall k :: 0 <= k < |ops| ==> !ops[k].Tick?
      modifies this
      ensures Valid() && Running() == WantAll(old(Running()), ops)
    {
      hide Meaning, Listed, Distinct, Insert;
      var i := 0;
      while i < |ops|
        invariant i <= |ops| && Valid() && Running() == WantAll(old(Running()), ops[..i])
      {
        assert ops[..i + 1][..i] == ops[..i];
        match ops[i] {
          case Add(id, ms, periodic) => Add(id, ms, periodic);
          case Del(id) => Del(id);
        }
        i := i + 1;
      }
      assert ops[..i] == ops;
    }

    /** net_timer_check_tmo with callbacks that use the timers. All expired timers are called, in
        the order of their deadlines, whatever the callbacks do. */
    method CheckTmoWith(ms: nat, cb: Callbacks) returns (fired: seq<Timer>)
      requires Valid() && Polite(Later(Running(), ms), Expire(list, ms).fired, cb)
      modifies this
      ensures Valid() && fired == Expire(old(list), ms).fired
      ensures Running() == RunMap(Later(old(Running()), ms), fired, cb)
    {
      hide Meaning, Listed, Distinct, Insert, Expire, WantAll, Proper;
      ExpireRest(list, ms, 0);
      fired := TakeExpired(ms);
      ghost var m := Running();
      var i := 0;
      assert fired[0..] == fired;
      while i < |fired|
        invariant i <= |fired| && Valid() && Polite(Running(), fired[i..], cb)
        invariant RunMap(m, fired, cb) == RunMap(Running(), fired[i..], cb)
      {
        var f := fired[i];
        assert fired[i..][1..] == fired[i + 1..] && fired[i..][0] == f;
        Callback(cb(f.id));
        if f.periodic {
          SameKeys(list, 0);
          InsertMeans(list, f.(curr := f.reload), 0);
          InsertTimer(f.(curr := f.reload));
        }
        i := i + 1;
      }
    }

    /** net_timer_first_tmo */
    method FirstTmo() returns (ms: nat)
      requires Valid()
      ensures list == [] ==> ms == 0
      ensures list != [] ==> (exists id :: id in Running() && Running()[id].left == ms)
      ensures forall id :: id in Running() ==> ms <= Running()[id].left
    {
      ms := 0;
      if list != [] {
        FirstIsNext(list);
        ms := list[0].curr;
        assert list[0].id in Running() && Running()[list[0].id].left == ms;
      }
    }
  }
}
