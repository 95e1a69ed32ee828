/** The message handler: threads that take a block from a semaphore-guarded pool, send it
    through the queue, and a worker that receives it and gives it back. Pool and queue have the
    same size. Any number of threads interleave, and every queue step is a step of FixedQueue. */
module MsgHandler {
  import opened FixedQueue

  /** What a thread is doing outside, or with, the queue. */
  datatype Role =
    | Rest
    | AllocWait            // memory_pool_alloc, before the wait on alloc_sem
    | AllocTake            // past it, about to take the first free block
    | Own(block: Msg)      // holding a block, before fixed_queue_send
    | Sending              // inside fixed_queue_send
    | Receiving            // inside fixed_queue_recv
    | Processing(block: Msg) // holding a received block, before memory_pool_free
    | FreeNotify           // block back in the list, before the notify of alloc_sem

  datatype Handler = Handler(q: Queue, free: seq<Msg>, allocSem: nat, roles: map<Tid, Role>)

  datatype HStep =
    | CallAlloc(ms: int) | PassAlloc | TakeBlock
    | StartSend(tmo: int) | StartRecv(tmo: int) | InQueue(st: QStep)
    | FreeBlock | NotifyAlloc

  predicate SendMove(st: QStep) {
    st in {PassSend, DoPut, NotifyRecv}
  }

  predicate RecvMove(st: QStep) {
    st in {PassRecv, TimeoutRecv, DoTake, NotifySend}
  }

  /** Waits on the send side have no time limit; only the worker's receive may time out. */
  predicate CanDo(h: Handler, t: Tid, st: HStep) {
    && t in h.roles
    && match st
       case CallAlloc(_) => h.roles[t].Rest?
       case PassAlloc => h.roles[t].AllocWait? && h.allocSem > 0
       case TakeBlock => h.roles[t].AllocTake?
       case StartSend(tmo) => h.roles[t].Own? && Enabled(h.q, t, CallSend(h.roles[t].block, tmo))
       case StartRecv(tmo) => h.roles[t].Rest? && Enabled(h.q, t, CallRecv(tmo))
       case InQueue(s) =>
         && Enabled(h.q, t, s)
         && ((h.roles[t].Sending? && SendMove(s)) || (h.roles[t].Receiving? && RecvMove(s)))
       case FreeBlock => h.roles[t].Processing?
       case NotifyAlloc => h.roles[t].FreeNotify?
  }

  function Be(h: Handler, t: Tid, r: Role): Handler {
    h.(roles := h.roles[t := r])
  }

  function Do(h: Handler, t: Tid, st: HStep): Handler
    requires CanDo(h, t, st)
  {
    match st
    case CallAlloc(ms) => if ms < 0 && h.free == [] then h else Be(h, t, AllocWait)
    case PassAlloc => Be(h, t, AllocTake).(allocSem := h.allocSem - 1)
    case TakeBlock => if h.free == [] then Be(h, t, Rest) else Be(h, t, Own(h.free[0])).(free := h.free[1..])
    case StartSend(tmo) =>
      var b := h.roles[t].block;
      if ReportsFull(h.q, tmo) then Be(h, t, Processing(b))
      else Be(h, t, Sending).(q := Apply(h.q, t, CallSend(b, tmo)))
    case StartRecv(tmo) =>
      var q := Apply(h.q, t, CallRecv(tmo));
      Be(h, t, if q.pcs[t].Out? then Rest else Receiving).(q := q)
    case InQueue(s) =>
      var q := Apply(h.q, t, s);
      var r := if s.NotifyRecv? || s.TimeoutRecv? then Rest
               else if s.NotifySend? then Processing(h.q.pcs[t].msg)
               else h.roles[t];
      Be(h, t, r).(q := q)
    case FreeBlock => Be(h, t, FreeNotify).(free := h.free + [h.roles[t].block])
    case NotifyAlloc => Be(h, t, Rest).(allocSem := h.allocSem + 1)
  }

  predicate Start(h: Handler) {
    && Init(h.q) && |h.free| == h.allocSem == h.q.size
    && h.roles.Keys == h.q.pcs.Keys && forall t :: t in h.roles ==> h.roles[t].Rest?
  }

  // ---------------------------------------------------------------- refinement

  /** Every step is a step of the queue or leaves the queue alone. */
  lemma QueueRefined(h: Handler, t: Tid, st: HStep)
    requires CanDo(h, t, st)
    ensures Do(h, t, st).q == h.q || exists s :: FixedQueue.Next(h.q, Do(h, t, st).q, t, s)
  {
    var q := Do(h, t, st).q;
    match st
    case StartSend(tmo) =>
      if !ReportsFull(h.q, tmo) { assert FixedQueue.Next(h.q, q, t, CallSend(h.roles[t].block, tmo)); }
    case StartRecv(tmo) => assert FixedQueue.Next(h.q, q, t, CallRecv(tmo));
    case InQueue(s) => assert FixedQueue.Next(h.q, q, t, s);
    case _ =>
  }

  // ---------------------------------------------------------------- the invariant

  function OwnKind(): Role -> bool { (r: Role) => r.Own? }
  function ProcessingKind(): Role -> bool { (r: Role) => r.Processing? }
  function AllocTakeKind(): Role -> bool { (r: Role) => r.AllocTake? }
  function FreeNotifyKind(): Role -> bool { (r: Role) => r.FreeNotify? }

  /** Role and queue position of a thread agree. */
  predicate Agree(r: Role, pc: Pc) {
    if r.Sending? then pc.SendWait? || pc.SendPut? || pc.SendNotify?
    else if r.Receiving? then pc.RecvWait? || pc.RecvTake? || pc.RecvNotify?
    else pc.Out?
  }

  predicate Coupled(h: Handler) {
    h.roles.Keys == h.q.pcs.Keys && forall t :: t in h.roles ==> Agree(h.roles[t], h.q.pcs[t])
  }

  /** The free blocks are the tokens, the tokens in hand and the notifies still due. */
  predicate PoolOk(h: Handler) {
    |h.free| == h.allocSem + Count(h.roles, AllocTakeKind()) + Count(h.roles, FreeNotifyKind())
  }

  /** Blocks outside the pool list and the queue, by who holds them. */
  function Held(h: Handler): nat {
    Count(h.roles, OwnKind()) + Count(h.roles, ProcessingKind()) +
    Count(h.q.pcs, WaitKind()) + Count(h.q.pcs, PutKind()) + Count(h.q.pcs, NotifySendKind())
  }

  /** Every block is free, in the queue or held. */
  predicate BlocksOk(h: Handler) {
    |h.free| + h.q.cnt + Held(h) == h.q.size
  }

  predicate HInv(h: Handler) {
    FixedQueue.Inv(h.q) && Coupled(h) && PoolOk(h) && BlocksOk(h)
  }

  lemma StartInv(h: Handler)
    requires Start(h)
    ensures HInv(h)
  {
    FixedQueue.InitInv(h.q);
    assert Who(h.roles, OwnKind()) == {} && Who(h.roles, ProcessingKind()) == {};
    assert Who(h.roles, AllocTakeKind()) == {} && Who(h.roles, FreeNotifyKind()) == {};
    assert Who(h.q.pcs, WaitKind()) == {} && Who(h.q.pcs, PutKind()) == {} && Who(h.q.pcs, NotifySendKind()) == {};
  }

  lemma CoupledKept(h: Handler, t: Tid, st: HStep)
    requires Coupled(h) && CanDo(h, t, st)
    ensures Coupled(Do(h, t, st))
  {
    var h' := Do(h, t, st);
    assert Agree(h.roles[t], h.q.pcs[t]);
    assert Agree(h'.roles[t], h'.q.pcs[t]);
  }

  lemma PoolKept(h: Handler, t: Tid, st: HStep)
    requires PoolOk(h) && CanDo(h, t, st)
    ensures PoolOk(Do(h, t, st))
  {
    hide Count, Apply;
    var r := Do(h, t, st).roles[t];
    assert h.roles[t := h.roles[t]] == h.roles;
    CountMove(h.roles, t, r, AllocTakeKind());
    CountMove(h.roles, t, r, FreeNotifyKind());
    if st.TakeBlock? { CountPositive(h.roles, t, AllocTakeKind()); }
  }

  /** Blocks in the hands of one thread. */
  function InHand(r: Role, pc: Pc): nat {
    One(r.Own?) + One(r.Processing?) + One(pc.SendWait?) + One(pc.SendPut?) + One(pc.RecvNotify?)
  }

  lemma HeldMove(h: Handler, h': Handler, t: Tid)
    requires t in h.roles && t in h.q.pcs && t in h'.roles && t in h'.q.pcs
    requires h'.roles == h.roles[t := h'.roles[t]] && h'.q.pcs == h.q.pcs[t := h'.q.pcs[t]]
    ensures Held(h') + InHand(h.roles[t], h.q.pcs[t]) == Held(h) + InHand(h'.roles[t], h'.q.pcs[t])
  {
    hide Count;
    var r, pc := h'.roles[t], h'.q.pcs[t];
    assert h.roles[t := h.roles[t]] == h.roles && h.q.pcs[t := h.q.pcs[t]] == h.q.pcs;
    CountMove(h.roles, t, r, OwnKind());
    CountMove(h.roles, t, r, ProcessingKind());
    CountMove(h.q.pcs, t, pc, WaitKind());
    CountMove(h.q.pcs, t, pc, PutKind());
    CountMove(h.q.pcs, t, pc, NotifySendKind());
  }

  /** A step moves one thread. */
  lemma OneMoves(h: Handler, t: Tid, st: HStep)
    requires Coupled(h) && CanDo(h, t, st)
    ensures var h' := Do(h, t, st);
      && h'.q.size == h.q.size && t in h.roles && t in h.q.pcs && t in h'.q.pcs && t in h'.roles
      && h'.roles == h.roles[t := h'.roles[t]] && h'.q.pcs == h.q.pcs[t := h'.q.pcs[t]]
  {
    assert h.roles[t := h.roles[t]] == h.roles && h.q.pcs[t := h.q.pcs[t]] == h.q.pcs;
  }

  /** A block that leaves the list, the queue or a hand turns up in another. */
  lemma HandOver(h: Handler, t: Tid, st: HStep)
    requires PoolOk(h) && Coupled(h) && CanDo(h, t, st)
    ensures var h' := Do(h, t, st);
      && t in h.q.pcs && t in h'.roles && t in h'.q.pcs
      && |h'.free| + h'.q.cnt + InHand(h'.roles[t], h'.q.pcs[t]) == |h.free| + h.q.cnt + InHand(h.roles[t], h.q.pcs[t])
  {
    hide Count;
    assert Agree(h.roles[t], h.q.pcs[t]);
    if st.TakeBlock? { CountPositive(h.roles, t, AllocTakeKind()); }
  }

  lemma BlocksKept(h: Handler, t: Tid, st: HStep)
    requires PoolOk(h) && Coupled(h) && BlocksOk(h) && CanDo(h, t, st)
    ensures BlocksOk(Do(h, t, st))
  {
    hide Do, CanDo, InHand, Held, PoolOk, Coupled;
    OneMoves(h, t, st);
    HandOver(h, t, st);
    HeldMove(h, Do(h, t, st), t);
  }

  lemma StepKeepsInv(h: Handler, t: Tid, st: HStep)
    requires HInv(h) && CanDo(h, t, st)
    ensures HInv(Do(h, t, st))
  {
    hide CanDo, Do, Inv, Coupled, PoolOk, BlocksOk, Next;
    CoupledKept(h, t, st);
    PoolKept(h, t, st);
    BlocksKept(h, t, st);
    QueueRefined(h, t, st);
    var q := Do(h, t, st).q;
    if q != h.q {
      var s :| FixedQueue.Next(h.q, q, t, s);
      FixedQueue.NextKeepsInv(h.q, q, t, s);
    }
  }

  predicate HRun(hs: seq<Handler>, ts: seq<Tid>, sts: seq<HStep>) {
    && |hs| == |sts| + 1 == |ts| + 1 && Start(hs[0])
    && forall i :: 0 <= i < |sts| ==> CanDo(hs[i], ts[i], sts[i]) && hs[i + 1] == Do(hs[i], ts[i], sts[i])
  }

  lemma {:induction false} HRunInv(hs: seq<Handler>, ts: seq<Tid>, sts: seq<HStep>, k: nat)
    requires HRun(hs, ts, sts) && k < |hs|
    ensures HInv(hs[k])
  {
    hide HInv, Do;
    if k == 0 {
      StartInv(hs[0]);
    } else {
      HRunInv(hs, ts, sts, k - 1);
      StepKeepsInv(hs[k - 1], ts[k - 1], sts[k - 1]);
    }
  }

  // ---------------------------------------------------------------- what it guarantees

  /** A thread that holds a block always finds room: in every reachable state its send neither
      reports full nor blocks, and an allocation that passed its semaphore gets a block. */
  lemma HolderFindsRoom(hs: seq<Handler>, ts: seq<Tid>, sts: seq<HStep>, k: nat, t: Tid, tmo: int)
    requires HRun(hs, ts, sts) && k < |hs| && t in hs[k].roles
    ensures hs[k].roles[t].Own? ==> !ReportsFull(hs[k].q, tmo) && hs[k].q.sendSem > 0
    ensures t in hs[k].q.pcs && hs[k].q.pcs[t].SendWait? ==> hs[k].q.sendSem > 0
    ensures hs[k].roles[t].AllocTake? ==> hs[k].free != []
  {
    hide Do, Ring, Count;
    HRunInv(hs, ts, sts, k);
    var h := hs[k];
    if h.roles[t].Own? { CountPositive(h.roles, t, OwnKind()); }
    if t in h.q.pcs && h.q.pcs[t].SendWait? { CountPositive(h.q.pcs, t, WaitKind()); }
    if h.roles[t].AllocTake? { CountPositive(h.roles, t, AllocTakeKind()); }
  }

  /** Messages are handled in the order they were queued. */
  lemma HandledInOrder(hs: seq<Handler>, ts: seq<Tid>, sts: seq<HStep>, k: nat)
    requires HRun(hs, ts, sts) && k < |hs|
    ensures hs[k].q.taken <= hs[k].q.put && hs[k].q.cnt == |hs[k].q.put| - |hs[k].q.taken| <= hs[k].q.size
  {
    hide Do;
    HRunInv(hs, ts, sts, k);
  }

  // ---------------------------------------------------------------- one place per block

  function OwnOf(b: Msg): Role -> bool { (r: Role) => (r.Own? || r.Processing?) && r.block == b }
  function InCallOf(b: Msg): Pc -> bool { (p: Pc) => (p.SendWait? || p.SendPut? || p.RecvNotify?) && p.msg == b }

  function Queued(q: Queue): seq<Msg>
    requires |q.taken| <= |q.put|
  {
    q.put[|q.taken|..]
  }

  /** In how many places block `b` is: in the pool list, in the queue, in a thread's hands. */
  function Places(h: Handler, b: Msg): nat
    requires |h.q.taken| <= |h.q.put|
  {
    multiset(h.free)[b] + multiset(Queued(h.q))[b] + Count(h.roles, OwnOf(b)) + Count(h.q.pcs, InCallOf(b))
  }

  lemma QueuedMoves(q: Queue, t: Tid, st: QStep, b: Msg)
    requires FixedQueue.Inv(q) && Enabled(q, t, st)
    ensures var q' := Apply(q, t, st);
      && |q'.taken| <= |q'.put|
      && multiset(Queued(q'))[b] + One(st.DoTake? && q'.pcs[t] == RecvNotify(b))
         == multiset(Queued(q))[b] + One(st.DoPut? && q.pcs[t] == SendPut(b))
  {
    hide Balanced, Ring, Count, Queued;
    RingSizes(q);
    if st.DoPut? { QueuedPut(q, t); } else if st.DoTake? { QueuedTake(q, t); } else { QueuedKept(q, t, st); }
  }

  lemma QueuedPut(q: Queue, t: Tid)
    requires |q.taken| <= |q.put| && Enabled(q, t, DoPut)
    ensures var q' := Apply(q, t, DoPut); |q'.taken| <= |q'.put| && Queued(q') == Queued(q) + [q.pcs[t].msg]
  {
  }

  lemma QueuedTake(q: Queue, t: Tid)
    requires FixedQueue.Inv(q) && Enabled(q, t, DoTake)
    ensures var q' := Apply(q, t, DoTake);
      |q.taken| < |q'.taken| <= |q'.put| && Queued(q) == [q.buffer[q.outp]] + Queued(q')
  {
    hide Ring, Count;
    RoomAndFood(q, t);
    RingSizes(q);
    RingTake(q.size, q.buffer, q.inp, q.outp, q.cnt, q.put, q.taken);
  }

  lemma QueuedKept(q: Queue, t: Tid, st: QStep)
    requires |q.taken| <= |q.put| && Enabled(q, t, st) && !st.DoPut? && !st.DoTake?
    ensures var q' := Apply(q, t, st); q'.taken == q.taken && q'.put == q.put && Queued(q') == Queued(q)
  {
  }

  lemma RingSizes(q: Queue)
    requires RingOk(q)
    ensures |q.taken| <= |q.put| && q.cnt == |q.put| - |q.taken|
  {
  }

  /** A step inside the queue moves a block between thread and ring. */
  lemma QueuePlaces(h: Handler, t: Tid, st: HStep, s: QStep, b: Msg)
    requires FixedQueue.Inv(h.q) && Coupled(h) && CanDo(h, t, st) && |h.q.taken| <= |h.q.put|
    requires st == InQueue(s)
    ensures |Do(h, t, st).q.taken| <= |Do(h, t, st).q.put| && Places(Do(h, t, st), b) == Places(h, b)
  {
    hide Count, FixedQueue.Inv, Queued;
    var h' := Do(h, t, st);
    assert Agree(h.roles[t], h.q.pcs[t]);
    QueuedMoves(h.q, t, s, b);
    assert h'.q.pcs == h.q.pcs[t := h'.q.pcs[t]];
    CountMove(h.roles, t, h'.roles[t], OwnOf(b));
    CountMove(h.q.pcs, t, h'.q.pcs[t], InCallOf(b));
  }

  /** Entering the queue hands a block over; entering a receive moves none. */
  lemma CallPlaces(h: Handler, t: Tid, st: HStep, b: Msg)
    requires Coupled(h) && CanDo(h, t, st) && |h.q.taken| <= |h.q.put| && (st.StartSend? || st.StartRecv?)
    ensures |Do(h, t, st).q.taken| <= |Do(h, t, st).q.put| && Places(Do(h, t, st), b) == Places(h, b)
  {
    hide Count, Queued;
    var h' := Do(h, t, st);
    assert Agree(h.roles[t], h.q.pcs[t]);
    assert h.q.pcs[t := h.q.pcs[t]] == h.q.pcs;
    assert h'.q.pcs == h.q.pcs[t := h'.q.pcs[t]];
    CountMove(h.roles, t, h'.roles[t], OwnOf(b));
    CountMove(h.q.pcs, t, h'.q.pcs[t], InCallOf(b));
    QueuedSame(h.q, h'.q);
  }

  /** Taking and returning a block. */
  lemma PoolPlaces(h: Handler, t: Tid, st: HStep, b: Msg)
    requires PoolOk(h) && CanDo(h, t, st) && |h.q.taken| <= |h.q.put|
    requires !st.InQueue? && !st.StartSend? && !st.StartRecv?
    ensures Do(h, t, st).q == h.q && Places(Do(h, t, st), b) == Places(h, b)
  {
    hide Count, Queued, Enabled, Apply;
    var h' := Do(h, t, st);
    assert h.roles[t := h.roles[t]] == h.roles;
    CountMove(h.roles, t, h'.roles[t], OwnOf(b));
    if st.TakeBlock? {
      CountPositive(h.roles, t, AllocTakeKind());
      assert h.free == [h.free[0]] + h.free[1..];
    }
  }

  lemma QueuedSame(q: Queue, q': Queue)
    requires |q.taken| <= |q.put| && q'.put == q.put && q'.taken == q.taken
    ensures Queued(q') == Queued(q)
  {
  }

  lemma {:induction false} PlacesConserved(hs: seq<Handler>, ts: seq<Tid>, sts: seq<HStep>, k: nat, b: Msg)
    requires HRun(hs, ts, sts) && k < |hs|
    ensures |hs[k].q.taken| <= |hs[k].q.put| && Places(hs[k], b) == multiset(hs[0].free)[b]
  {
    hide Do, CanDo, HInv, Places;
    HRunInv(hs, ts, sts, k);
    if k == 0 {
      StartPlaces(hs[0], b);
    } else {
      var h, t, st := hs[k - 1], ts[k - 1], sts[k - 1];
      PlacesConserved(hs, ts, sts, k - 1, b);
      HRunInv(hs, ts, sts, k - 1);
      OneStepPlaces(h, t, st, b);
    }
  }

  lemma OneStepPlaces(h: Handler, t: Tid, st: HStep, b: Msg)
    requires HInv(h) && CanDo(h, t, st) && |h.q.taken| <= |h.q.put|
    ensures |Do(h, t, st).q.taken| <= |Do(h, t, st).q.put| && Places(Do(h, t, st), b) == Places(h, b)
  {
    hide Do, CanDo, Places, Inv, Coupled, PoolOk, BlocksOk;
    if st.InQueue? { QueuePlaces(h, t, st, st.st, b); }
    else if st.StartSend? || st.StartRecv? { CallPlaces(h, t, st, b); }
    else { PoolPlaces(h, t, st, b); }
  }

  lemma StartPlaces(h: Handler, b: Msg)
    requires Start(h)
    ensures |h.q.taken| <= |h.q.put| && Places(h, b) == multiset(h.free)[b]
  {
    assert Who(h.roles, OwnOf(b)) == {} && Who(h.q.pcs, InCallOf(b)) == {};
  }

  /** No block is ever in two hands: two threads that hold the same block are the same thread,
      and a block in a thread's hands is neither free nor queued. */
  lemma NoBlockTwice(hs: seq<Handler>, ts: seq<Tid>, sts: seq<HStep>, k: nat, b: Msg, t: Tid, u: Tid)
    requires HRun(hs, ts, sts) && k < |hs| && multiset(hs[0].free)[b] <= 1
    requires t in hs[k].roles && OwnOf(b)(hs[k].roles[t])
    ensures |hs[k].q.taken| <= |hs[k].q.put| && b !in hs[k].free && b !in Queued(hs[k].q)
    ensures u in hs[k].roles && OwnOf(b)(hs[k].roles[u]) ==> u == t
    ensures u in hs[k].q.pcs ==> !InCallOf(b)(hs[k].q.pcs[u])
  {
    hide Do, CanDo, Start;
    var h := hs[k];
    PlacesConserved(hs, ts, sts, k, b);
    CountPositive(h.roles, t, OwnOf(b));
    if u in h.roles && OwnOf(b)(h.roles[u]) && u != t {
      assert {t, u} <= Who(h.roles, OwnOf(b));
      SubsetCount({t, u}, Who(h.roles, OwnOf(b)));
    }
    if u in h.q.pcs && InCallOf(b)(h.q.pcs[u]) { CountPositive(h.q.pcs, u, InCallOf(b)); }
  }

  lemma SubsetCount(a: set<Tid>, b: set<Tid>)
    requires a <= b
    ensures |a| <= |b|
  {
    assert b == a + (b - a);
  }

  // ---------------------------------------------------------------- the order of the pool

  /** The blocks the first `k` steps took out of the pool, and those they put back. */
  function TakenOut(hs: seq<Handler>, ts: seq<Tid>, sts: seq<HStep>, k: nat): seq<Msg>
    requires HRun(hs, ts, sts) && k < |hs|
  {
    if k == 0 then []
    else
      var h, t := hs[k - 1], ts[k - 1];
      TakenOut(hs, ts, sts, k - 1) + if sts[k - 1].TakeBlock? && h.free != [] then [hs[k].roles[t].block] else []
  }

  function PutBack(hs: seq<Handler>, ts: seq<Tid>, sts: seq<HStep>, k: nat): seq<Msg>
    requires HRun(hs, ts, sts) && k < |hs|
  {
    if k == 0 then []
    else PutBack(hs, ts, sts, k - 1) + if sts[k - 1].FreeBlock? then [hs[k - 1].roles[ts[k - 1]].block] else []
  }

  /** Blocks leave the pool in the order in which they came into it. */
  lemma {:induction false} PoolInOrder(hs: seq<Handler>, ts: seq<Tid>, sts: seq<HStep>, k: nat)
    requires HRun(hs, ts, sts) && k < |hs|
    ensures TakenOut(hs, ts, sts, k) + hs[k].free == hs[0].free + PutBack(hs, ts, sts, k)
  {
    hide Start, Do;
    if k > 0 {
      PoolInOrder(hs, ts, sts, k - 1);
      var h, t, start := hs[k - 1], ts[k - 1], hs[0].free;
      var out, back := TakenOut(hs, ts, sts, k - 1), PutBack(hs, ts, sts, k - 1);
      PoolStep(h, t, sts[k - 1], out, start + back);
      assert hs[k] == Do(h, t, sts[k - 1]) && out + [] == out && back + [] == back;
      if sts[k - 1].FreeBlock? { assert (start + back) + [h.roles[t].block] == start + (back + [h.roles[t].block]); }
    }
  }

  lemma PoolStep(h: Handler, t: Tid, st: HStep, out: seq<Msg>, ever: seq<Msg>)
    requires CanDo(h, t, st) && out + h.free == ever
    ensures var h' := Do(h, t, st); t in h'.roles
    ensures var h' := Do(h, t, st);
      if st.TakeBlock? && h.free != [] then h'.roles[t].Own? && (out + [h'.roles[t].block]) + h'.free == ever
      else if st.FreeBlock? then out + h'.free == ever + [h.roles[t].block]
      else h'.free == h.free
  {
    hide Apply, Enabled;
    if st.TakeBlock? && h.free != [] { assert h.free == [h.free[0]] + h.free[1..]; }
  }

  // ---------------------------------------------------------------- progress

  /** An allocation waits unless it must not and every block is in use; past its semaphore it gets
      a block that was free. A receive waits unless it must not and nothing is queued. */
  lemma CallsProceed(hs: seq<Handler>, ts: seq<Tid>, sts: seq<HStep>, k: nat)
    requires HRun(hs, ts, sts) && k < |sts|
    ensures var h, h', t := hs[k], hs[k + 1], ts[k]; t in h'.roles && t in h'.q.pcs && match sts[k]
      case CallAlloc(ms) => h'.roles[t] == if ms < 0 && h.free == [] then Rest else AllocWait
      case TakeBlock => h'.roles[t].Own? && h'.roles[t].block in h.free
      case StartRecv(tmo) => if tmo < 0 && h.q.put == h.q.taken then h' == h else h'.q.pcs[t].RecvWait?
      case _ => true
  {
    hide Start, Count, Balanced;
    HRunInv(hs, ts, sts, k);
    HRunInv(hs, ts, sts, k + 1);
    HolderFindsRoom(hs, ts, sts, k, ts[k], 0);
    if sts[k].StartRecv? { RestCall(hs[k], ts[k], sts[k].tmo); }
  }

  lemma RestCall(h: Handler, t: Tid, tmo: int)
    requires RingOk(h.q) && Coupled(h) && CanDo(h, t, StartRecv(tmo))
    ensures var h' := Do(h, t, StartRecv(tmo));
      if tmo < 0 && h.q.put == h.q.taken then h' == h else h'.q.pcs[t].RecvWait?
  {
    assert Agree(h.roles[t], h.q.pcs[t]);
    if |h.q.put| == |h.q.taken| { assert h.q.put == h.q.taken; }
    if tmo < 0 && h.q.cnt == 0 { assert h.roles[t := Rest] == h.roles; }
  }

  /** A step other than a new call or a timeout. */
  predicate Moves(st: HStep) {
    !st.CallAlloc? && !st.StartRecv? && st != InQueue(TimeoutRecv)
  }

  /** The step a thread can take next, unless it rests or waits at a semaphore. */
  function NextMove(r: Role, pc: Pc): HStep {
    match r
    case AllocTake => TakeBlock
    case Own(_) => StartSend(0)
    case Sending => InQueue(if pc.SendWait? then PassSend else if pc.SendPut? then DoPut else NotifyRecv)
    case Receiving => InQueue(if pc.RecvWait? then PassRecv else if pc.RecvTake? then DoTake else NotifySend)
    case Processing(_) => FreeBlock
    case FreeNotify => NotifyAlloc
    case _ => PassAlloc
  }

  lemma CanMove(h: Handler, t: Tid)
    requires HInv(h) && t in h.roles && !h.roles[t].Rest? && (h.roles[t].AllocWait? ==> h.allocSem > 0)
    requires t in h.q.pcs && (h.q.pcs[t].RecvWait? ==> h.q.recvSem > 0) && (h.q.pcs[t].SendWait? ==> h.q.sendSem > 0)
    ensures CanDo(h, t, NextMove(h.roles[t], h.q.pcs[t])) && Moves(NextMove(h.roles[t], h.q.pcs[t]))
  {
    hide Count;
    assert Agree(h.roles[t], h.q.pcs[t]);
  }

  /** At rest, or before one of the two semaphores that can make a thread wait for others. */
  predicate Parked(h: Handler, t: Tid) {
    t in h.roles && t in h.q.pcs && (h.roles[t].Rest? || h.roles[t].AllocWait? || h.q.pcs[t].RecvWait?)
  }

  /** When nobody can move, nobody holds a block, and all of them are in the queue. */
  lemma AllQueued(h: Handler)
    requires HInv(h) && h.allocSem == 0
    requires forall t :: t in h.roles ==> Parked(h, t)
    ensures h.q.recvSem == h.q.cnt == h.q.size
  {
    hide Ring, Count, Parked;
    ParkedRoles(h);
    ParkedPositions(h);
  }

  lemma ParkedRoles(h: Handler)
    requires Coupled(h) && forall t :: t in h.roles ==> Parked(h, t)
    ensures Count(h.roles, OwnKind()) == Count(h.roles, ProcessingKind()) == 0
    ensures Count(h.roles, AllocTakeKind()) == Count(h.roles, FreeNotifyKind()) == 0
  {
    assert forall t :: t in h.roles ==> Agree(h.roles[t], h.q.pcs[t]);
    assert Who(h.roles, OwnKind()) == {} && Who(h.roles, ProcessingKind()) == {};
    assert Who(h.roles, AllocTakeKind()) == {} && Who(h.roles, FreeNotifyKind()) == {};
  }

  lemma ParkedPositions(h: Handler)
    requires Coupled(h) && forall t :: t in h.roles ==> Parked(h, t)
    ensures Count(h.q.pcs, WaitKind()) == Count(h.q.pcs, PutKind()) == Count(h.q.pcs, NotifySendKind()) == 0
    ensures Count(h.q.pcs, TakeKind()) == Count(h.q.pcs, NotifyRecvKind()) == 0
  {
    assert forall t :: t in h.roles ==> Agree(h.roles[t], h.q.pcs[t]);
    assert Who(h.q.pcs, WaitKind()) == {} && Who(h.q.pcs, PutKind()) == {} && Who(h.q.pcs, NotifySendKind()) == {};
    assert Who(h.q.pcs, TakeKind()) == {} && Who(h.q.pcs, NotifyRecvKind()) == {};
  }

  /** No deadlock: in every reachable state, while a thread waits for a block and another one is in a
      receive, some thread can move. */
  lemma NoDeadlock(hs: seq<Handler>, ts: seq<Tid>, sts: seq<HStep>, k: nat, t: Tid, u: Tid)
    requires HRun(hs, ts, sts) && k < |hs| && t in hs[k].roles && u in hs[k].roles
    requires hs[k].roles[t].AllocWait? && hs[k].roles[u].Receiving?
    ensures exists x, st :: CanDo(hs[k], x, st) && Moves(st)
  {
    hide Do, CanDo, Ring, Count, Moves;
    HRunInv(hs, ts, sts, k);
    SizePositive(hs, ts, sts, k);
    var h := hs[k];
    assert Agree(h.roles[u], h.q.pcs[u]);
    if h.allocSem > 0 {
      assert Agree(h.roles[t], h.q.pcs[t]);
      CanMove(h, t);
    } else if x :| x in h.roles && !Parked(h, x) {
      HolderFindsRoom(hs, ts, sts, k, x, 0);
      assert Agree(h.roles[x], h.q.pcs[x]);
      CanMove(h, x);
    } else {
      AllQueued(h);
      CanMove(h, u);
    }
  }

  lemma {:induction false} SizePositive(hs: seq<Handler>, ts: seq<Tid>, sts: seq<HStep>, k: nat)
    requires HRun(hs, ts, sts) && k < |hs|
    ensures hs[k].q.size > 0
  {
    if k > 0 { SizePositive(hs, ts, sts, k - 1); }
  }

  // ---------------------------------------------------------------- every block held is queued

  /** A thread that holds a block and starts a send, with whatever timeout, is then in the queue
      with that block. */
  lemma SendStarts(hs: seq<Handler>, ts: seq<Tid>, sts: seq<HStep>, k: nat, t: Tid, tmo: int)
    requires HRun(hs, ts, sts) && k < |hs| && t in hs[k].roles && hs[k].roles[t].Own?
    ensures CanDo(hs[k], t, StartSend(tmo))
    ensures var h := Do(hs[k], t, StartSend(tmo));
      t in h.roles && t in h.q.pcs && h.roles[t].Sending? && h.q.pcs[t] == SendWait(hs[k].roles[t].block)
  {
    hide HRun, PoolOk, BlocksOk;
    HRunInv(hs, ts, sts, k);
    HolderFindsRoom(hs, ts, sts, k, t, tmo);
    assert Agree(hs[k].roles[t], hs[k].q.pcs[t]);
  }

  /** Thread `t` puts `b` behind all other messages in step `j`. */
  predicate PutsIn(hs: seq<Handler>, ts: seq<Tid>, sts: seq<HStep>, j: nat, t: Tid, b: Msg)
    requires |hs| == |sts| + 1 == |ts| + 1 && j < |sts|
  {
    ts[j] == t && sts[j] == InQueue(DoPut) && hs[j + 1].q.put == hs[j].q.put + [b]
  }

  ghost predicate PutBetween(hs: seq<Handler>, ts: seq<Tid>, sts: seq<HStep>, k: nat, m: nat, t: Tid, b: Msg)
    requires |hs| == |sts| + 1 == |ts| + 1 && m < |hs|
  {
    exists j :: k <= j < m && PutsIn(hs, ts, sts, j, t, b)
  }

  predicate Sends(h: Handler, t: Tid, b: Msg) {
    t in h.roles && t in h.q.pcs && h.roles[t].Sending? && (h.q.pcs[t] == SendWait(b) || h.q.pcs[t] == SendPut(b))
  }

  lemma OthersStay(h: Handler, t: Tid, st: HStep, u: Tid)
    requires Coupled(h) && CanDo(h, t, st) && u != t && u in h.roles
    ensures var h' := Do(h, t, st);
      && u in h'.roles && u in h'.q.pcs && u in h.q.pcs
      && h'.roles[u] == h.roles[u] && h'.q.pcs[u] == h.q.pcs[u]
  {
    hide Do, CanDo, Agree;
    OneMoves(h, t, st);
    assert u in h.roles[t := Do(h, t, st).roles[t]] && u in h.q.pcs[t := Do(h, t, st).q.pcs[t]];
  }

  lemma SendMoves(h: Handler, t: Tid, st: HStep, b: Msg)
    requires CanDo(h, t, st) && Sends(h, t, b)
    ensures Sends(Do(h, t, st), t, b) || (st == InQueue(DoPut) && Do(h, t, st).q.put == h.q.put + [b])
  {
  }

  /** A send ends only after its block was put into the queue: from the start of the wait on, the
      thread either still sends that block or has put it behind all other messages. */
  lemma {:induction false} EndsWithPut(hs: seq<Handler>, ts: seq<Tid>, sts: seq<HStep>, k: nat, m: nat, t: Tid, b: Msg)
    requires HRun(hs, ts, sts) && k <= m < |hs| && Sends(hs[k], t, b)
    ensures Sends(hs[m], t, b) || PutBetween(hs, ts, sts, k, m, t, b)
  {
    hide Do, CanDo, Sends, Start;
    if k < m {
      EndsWithPut(hs, ts, sts, k, m - 1, t, b);
      HRunInv(hs, ts, sts, m - 1);
      var h, u, st := hs[m - 1], ts[m - 1], sts[m - 1];
      assert CanDo(h, u, st) && hs[m] == Do(h, u, st);
      if PutBetween(hs, ts, sts, k, m - 1, t, b) {
        var j :| k <= j < m - 1 && PutsIn(hs, ts, sts, j, t, b);
      } else if u == t {
        SendMoves(h, t, st, b);
        if !Sends(hs[m], t, b) { assert PutsIn(hs, ts, sts, m - 1, t, b); }
      } else {
        SendsRole(h, t, b);
        OthersStay(h, u, st, t);
        SendsSame(h, hs[m], t, b);
      }
    }
  }

  lemma SendsRole(h: Handler, t: Tid, b: Msg)
    requires Sends(h, t, b)
    ensures t in h.roles
  {
  }

  lemma SendsSame(h: Handler, h': Handler, t: Tid, b: Msg)
    requires Sends(h, t, b) && t in h'.roles && t in h'.q.pcs
    requires h'.roles[t] == h.roles[t] && h'.q.pcs[t] == h.q.pcs[t]
    ensures Sends(h', t, b)
  {
  }

  // ---------------------------------------------------------------- every block handled was taken

  predicate TakesIn(hs: seq<Handler>, ts: seq<Tid>, sts: seq<HStep>, j: nat, t: Tid, b: Msg)
    requires |hs| == |sts| + 1 == |ts| + 1 && j < |sts|
  {
    ts[j] == t && sts[j] == InQueue(DoTake) && hs[j + 1].q.taken == hs[j].q.taken + [b]
  }

  ghost predicate TakenBefore(hs: seq<Handler>, ts: seq<Tid>, sts: seq<HStep>, m: nat, t: Tid, b: Msg)
    requires |hs| == |sts| + 1 == |ts| + 1 && m < |hs|
  {
    exists j :: 0 <= j < m && TakesIn(hs, ts, sts, j, t, b)
  }

  /** Thread `t` has received `b`. */
  predicate Received(h: Handler, t: Tid, b: Msg) {
    t in h.roles && t in h.q.pcs && (h.q.pcs[t] == RecvNotify(b) || h.roles[t] == Processing(b))
  }

  lemma ReceiveMoves(h: Handler, t: Tid, st: HStep, b: Msg)
    requires Coupled(h) && CanDo(h, t, st) && Received(Do(h, t, st), t, b)
    requires st.StartSend? ==> !ReportsFull(h.q, st.tmo)
    ensures Received(h, t, b) || (st == InQueue(DoTake) && Do(h, t, st).q.taken == h.q.taken + [b])
  {
    assert Agree(h.roles[t], h.q.pcs[t]);
  }

  /** A thread handles a block only after it took that block, as the next message, off the queue. */
  lemma {:induction false} HandledWasTaken(hs: seq<Handler>, ts: seq<Tid>, sts: seq<HStep>, m: nat, t: Tid, b: Msg)
    requires HRun(hs, ts, sts) && m < |hs| && Received(hs[m], t, b)
    ensures TakenBefore(hs, ts, sts, m, t, b)
  {
    hide Do, CanDo;
    if m == 0 {
      NobodyReceived(hs[0], t, b);
    } else {
      HRunInv(hs, ts, sts, m - 1);
      var h, u, st := hs[m - 1], ts[m - 1], sts[m - 1];
      assert CanDo(h, u, st) && hs[m] == Do(h, u, st);
      if u == t {
        if st.StartSend? { NotFull(hs, ts, sts, m - 1, t, st.tmo); }
        ReceiveMoves(h, t, st, b);
        if !Received(h, t, b) { assert TakesIn(hs, ts, sts, m - 1, t, b); }
      } else {
        SameThreads(h, u, st, t);
        OthersStay(h, u, st, t);
      }
      if Received(h, t, b) {
        HandledWasTaken(hs, ts, sts, m - 1, t, b);
        var j :| 0 <= j < m - 1 && TakesIn(hs, ts, sts, j, t, b);
      }
    }
  }

  lemma NobodyReceived(h: Handler, t: Tid, b: Msg)
    requires Start(h)
    ensures !Received(h, t, b)
  {
  }

  lemma NotFull(hs: seq<Handler>, ts: seq<Tid>, sts: seq<HStep>, k: nat, t: Tid, tmo: int)
    requires HRun(hs, ts, sts) && k < |hs| && CanDo(hs[k], t, StartSend(tmo))
    ensures !ReportsFull(hs[k].q, tmo)
  {
    hide HRun;
    HolderFindsRoom(hs, ts, sts, k, t, tmo);
  }

  lemma SameThreads(h: Handler, t: Tid, st: HStep, u: Tid)
    requires Coupled(h) && CanDo(h, t, st) && u in Do(h, t, st).roles
    ensures u in h.roles
  {
    hide Do, CanDo, Agree;
    OneMoves(h, t, st);
  }
}
