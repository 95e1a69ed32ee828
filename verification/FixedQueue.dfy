/** The bounded queue between threads: a ring under a lock and two counting semaphores, as a
    state machine in which any number of threads interleave. A step is one critical section or
    one semaphore operation. */
module FixedQueue {

  type Msg = nat
  type Tid = nat

  /** Where a thread is inside fixed_queue_send or fixed_queue_recv. */
  datatype Pc =
    | Out                 // not in a call
    | SendWait(msg: Msg)  // before the wait on send_sem
    | SendPut(msg: Msg)   // past it, about to lock and store
    | SendNotify          // stored, about to notify recv_sem
    | RecvWait            // before the wait on recv_sem
    | RecvTake            // past it, about to lock and take
    | RecvNotify(msg: Msg) // taken, about to notify send_sem

  /** The queue with its threads, and the messages ever put and taken. */
  datatype Queue = Queue(
    size: nat, buffer: seq<Msg>, inp: nat, outp: nat, cnt: int,
    sendSem: nat, recvSem: nat, pcs: map<Tid, Pc>,
    put: seq<Msg>, taken: seq<Msg>)

  datatype QStep =
    | CallSend(msg: Msg, tmo: int) | PassSend | TimeoutSend | DoPut | NotifyRecv
    | CallRecv(tmo: int) | PassRecv | TimeoutRecv | DoTake | NotifySend

  function Bump(i: nat, size: nat): nat {
    if i + 1 >= size then 0 else i + 1
  }

  /** Can thread `t` take step `st`? A wait passes only on a positive semaphore. */
  predicate Enabled(q: Queue, t: Tid, st: QStep) {
    && t in q.pcs
    && match st
       case CallSend(_, _) => q.pcs[t].Out?
       case PassSend => q.pcs[t].SendWait? && q.sendSem > 0
       case TimeoutSend => q.pcs[t].SendWait?
       case DoPut => q.pcs[t].SendPut? && q.inp < |q.buffer|
       case NotifyRecv => q.pcs[t].SendNotify?
       case CallRecv(_) => q.pcs[t].Out?
       case PassRecv => q.pcs[t].RecvWait? && q.recvSem > 0
       case TimeoutRecv => q.pcs[t].RecvWait?
       case DoTake => q.pcs[t].RecvTake? && q.outp < |q.buffer|
       case NotifySend => q.pcs[t].RecvNotify?
  }

  /** A send with a negative timeout returns at once when the queue is full. */
  predicate ReportsFull(q: Queue, tmo: int) {
    q.cnt >= q.size && tmo < 0
  }

  function At(q: Queue, t: Tid, pc: Pc): Queue {
    q.(pcs := q.pcs[t := pc])
  }

  function Apply(q: Queue, t: Tid, st: QStep): Queue
    requires Enabled(q, t, st)
  {
    match st
    case CallSend(msg, tmo) => if ReportsFull(q, tmo) then q else At(q, t, SendWait(msg))
    case PassSend => At(q, t, SendPut(q.pcs[t].msg)).(sendSem := q.sendSem - 1)
    case TimeoutSend => At(q, t, Out)
    case DoPut =>
      At(q, t, SendNotify).(buffer := q.buffer[q.inp := q.pcs[t].msg], inp := Bump(q.inp, q.size),
                            cnt := q.cnt + 1, put := q.put + [q.pcs[t].msg])
    case NotifyRecv => At(q, t, Out).(recvSem := q.recvSem + 1)
    case CallRecv(tmo) => if q.cnt == 0 && tmo < 0 then q else At(q, t, RecvWait)
    case PassRecv => At(q, t, RecvTake).(recvSem := q.recvSem - 1)
    case TimeoutRecv => At(q, t, Out)
    case DoTake =>
      At(q, t, RecvNotify(q.buffer[q.outp])).(outp := Bump(q.outp, q.size), cnt := q.cnt - 1,
                                              taken := q.taken + [q.buffer[q.outp]])
    case NotifySend => At(q, t, Out).(sendSem := q.sendSem + 1)
  }

  predicate Next(q: Queue, q': Queue, t: Tid, st: QStep) {
    Enabled(q, t, st) && q' == Apply(q, t, st)
  }

  predicate Init(q: Queue) {
    && q.size > 0 && |q.buffer| == q.size && q.inp == q.outp == 0 && q.cnt == 0
    && q.sendSem == q.size && q.recvSem == 0 && q.put == [] && q.taken == []
    && forall t :: t in q.pcs ==> q.pcs[t].Out?
  }

  // ---------------------------------------------------------------- counting threads

  function Who<T>(pcs: map<Tid, T>, at: T -> bool): set<Tid> {
    set t | t in pcs && at(pcs[t])
  }

  function Count<T>(pcs: map<Tid, T>, at: T -> bool): nat {
    |Who(pcs, at)|
  }

  function One(b: bool): nat {
    if b then 1 else 0
  }

  /** Moving one thread changes a count by whether it was there and is there. */
  lemma CountMove<T>(pcs: map<Tid, T>, t: Tid, pc: T, at: T -> bool)
    requires t in pcs
    ensures Count(pcs[t := pc], at) + One(at(pcs[t])) == Count(pcs, at) + One(at(pc))
  {
    hide Who;
    var a, b := Who(pcs, at), Who(pcs[t := pc], at);
    WhoMove(pcs, t, pc, at);
    Without(a, t);
    Without(b, t);
  }

  lemma WhoMove<T>(pcs: map<Tid, T>, t: Tid, pc: T, at: T -> bool)
    requires t in pcs
    ensures var a, b := Who(pcs, at), Who(pcs[t := pc], at);
      (t in a <==> at(pcs[t])) && (t in b <==> at(pc)) && a - {t} == b - {t}
  {
    var a, b := Who(pcs, at), Who(pcs[t := pc], at);
    forall x | x != t ensures x in a <==> x in b {}
  }

  lemma Without(s: set<Tid>, t: Tid)
    ensures |s| == |s - {t}| + One(t in s)
  {
    if t !in s { assert s - {t} == s; }
  }

  lemma CountPositive<T>(pcs: map<Tid, T>, t: Tid, at: T -> bool)
    requires t in pcs && at(pcs[t])
    ensures Count(pcs, at) >= 1
  {
    assert t in Who(pcs, at);
  }

  function PutKind(): Pc -> bool { (p: Pc) => p.SendPut? }
  function NotifyRecvKind(): Pc -> bool { (p: Pc) => p.SendNotify? }
  function TakeKind(): Pc -> bool { (p: Pc) => p.RecvTake? }
  function NotifySendKind(): Pc -> bool { (p: Pc) => p.RecvNotify? }
  function WaitKind(): Pc -> bool { (p: Pc) => p.SendWait? }

  // ---------------------------------------------------------------- the invariant

  /** Both semaphores account for the free and the filled slots together with the threads
      between a wait and the matching notify. */
  predicate Balanced(q: Queue) {
    && q.sendSem + Count(q.pcs, PutKind()) + q.cnt + Count(q.pcs, NotifySendKind()) == q.size
    && q.recvSem + Count(q.pcs, TakeKind()) + Count(q.pcs, NotifyRecvKind()) == q.cnt
  }

  /** Cell of the ring that is `i` behind `outp`. */
  function Cell(outp: nat, size: nat, i: nat): int {
    if outp + i >= size then outp + i - size else outp + i
  }

  /** The ring holds exactly the messages put and not yet taken, oldest first. */
  predicate Ring(size: nat, buffer: seq<Msg>, inp: nat, outp: nat, cnt: int, put: seq<Msg>, taken: seq<Msg>) {
    && |buffer| == size && inp < size && outp < size && 0 <= cnt <= size
    && inp == Cell(outp, size, cnt)
    && taken <= put && |put| == |taken| + cnt
    && forall i :: 0 <= i < cnt ==> buffer[Cell(outp, size, i)] == put[|taken| + i]
  }

  predicate RingOk(q: Queue) {
    Ring(q.size, q.buffer, q.inp, q.outp, q.cnt, q.put, q.taken)
  }

  predicate Inv(q: Queue) {
    Balanced(q) && RingOk(q)
  }

  lemma InitInv(q: Queue)
    requires Init(q)
    ensures Inv(q)
  {
    assert Who(q.pcs, PutKind()) == {} && Who(q.pcs, NotifySendKind()) == {};
    assert Who(q.pcs, TakeKind()) == {} && Who(q.pcs, NotifyRecvKind()) == {};
  }

  lemma BalancedKept(q: Queue, t: Tid, st: QStep)
    requires Balanced(q) && Enabled(q, t, st)
    ensures Balanced(Apply(q, t, st))
  {
    hide Count;
    var pc := Apply(q, t, st).pcs[t];
    CountMove(q.pcs, t, pc, PutKind());
    CountMove(q.pcs, t, pc, NotifySendKind());
    CountMove(q.pcs, t, pc, TakeKind());
    CountMove(q.pcs, t, pc, NotifyRecvKind());
    assert q.pcs[t := q.pcs[t]] == q.pcs;
  }

  /** A thread past the wait on send_sem finds a free slot, one past recv_sem a filled one. */
  lemma RoomAndFood(q: Queue, t: Tid)
    requires Balanced(q) && t in q.pcs
    ensures q.pcs[t].SendPut? ==> q.cnt < q.size
    ensures q.pcs[t].RecvTake? ==> q.cnt > 0
  {
    hide Count;
    if q.pcs[t].SendPut? { CountPositive(q.pcs, t, PutKind()); }
    if q.pcs[t].RecvTake? { CountPositive(q.pcs, t, TakeKind()); }
  }

  lemma RingPut(size: nat, buffer: seq<Msg>, inp: nat, outp: nat, cnt: int, put: seq<Msg>, taken: seq<Msg>, msg: Msg)
    requires Ring(size, buffer, inp, outp, cnt, put, taken) && cnt < size
    ensures Ring(size, buffer[inp := msg], Bump(inp, size), outp, cnt + 1, put + [msg], taken)
  {
  }

  lemma RingTake(size: nat, buffer: seq<Msg>, inp: nat, outp: nat, cnt: int, put: seq<Msg>, taken: seq<Msg>)
    requires Ring(size, buffer, inp, outp, cnt, put, taken) && cnt > 0
    ensures buffer[outp] == put[|taken|]
    ensures Ring(size, buffer, inp, Bump(outp, size), cnt - 1, put, taken + [buffer[outp]])
  {
    assert buffer[Cell(outp, size, 0)] == put[|taken| + 0];
    forall i | 0 <= i < cnt - 1 ensures buffer[Cell(Bump(outp, size), size, i)] == put[|taken| + 1 + i] {
      assert buffer[Cell(outp, size, i + 1)] == put[|taken| + (i + 1)];
    }
  }

  lemma RingKept(q: Queue, t: Tid, st: QStep)
    requires Inv(q) && Enabled(q, t, st)
    ensures RingOk(Apply(q, t, st))
  {
    hide Balanced, Count, Ring;
    RoomAndFood(q, t);
    if st.DoPut? { RingPut(q.size, q.buffer, q.inp, q.outp, q.cnt, q.put, q.taken, q.pcs[t].msg); }
    if st.DoTake? { RingTake(q.size, q.buffer, q.inp, q.outp, q.cnt, q.put, q.taken); }
  }

  lemma NextKeepsInv(q: Queue, q': Queue, t: Tid, st: QStep)
    requires Inv(q) && Next(q, q', t, st)
    ensures Inv(q')
  {
    BalancedKept(q, t, st);
    RingKept(q, t, st);
  }

  predicate Run(qs: seq<Queue>, ts: seq<Tid>, sts: seq<QStep>) {
    && |qs| == |sts| + 1 == |ts| + 1 && Init(qs[0])
    && forall i :: 0 <= i < |sts| ==> Next(qs[i], qs[i + 1], ts[i], sts[i])
  }

  lemma {:induction false} RunInv(qs: seq<Queue>, ts: seq<Tid>, sts: seq<QStep>, k: nat)
    requires Run(qs, ts, sts) && k < |qs|
    ensures Inv(qs[k])
  {
    hide Inv, Next;
    if k == 0 {
      InitInv(qs[0]);
    } else {
      RunInv(qs, ts, sts, k - 1);
      NextKeepsInv(qs[k - 1], qs[k], ts[k - 1], sts[k - 1]);
    }
  }

  /** For any number of threads and any interleaving: the semaphores balance, no slot is
      overwritten or read empty, and messages are taken in the order they were put. */
  lemma QueueSafety(qs: seq<Queue>, ts: seq<Tid>, sts: seq<QStep>, k: nat)
    requires Run(qs, ts, sts) && k < |qs|
    ensures Balanced(qs[k]) && qs[k].taken <= qs[k].put
    ensures k < |sts| && sts[k].DoPut? ==> qs[k].cnt < qs[k].size
    ensures k < |sts| && sts[k].DoTake? ==>
      && qs[k].cnt > 0 && |qs[k].taken| < |qs[k].put|
      && qs[k + 1].pcs[ts[k]] == RecvNotify(qs[k].put[|qs[k].taken|])
  {
    hide Balanced;
    RunInv(qs, ts, sts, k);
    if k < |sts| {
      assert Next(qs[k], qs[k + 1], ts[k], sts[k]);
      RoomAndFood(qs[k], ts[k]);
      var q := qs[k];
      if sts[k].DoTake? { RingTake(q.size, q.buffer, q.inp, q.outp, q.cnt, q.put, q.taken); }
    }
  }

  /** A call with a negative timeout comes back at once exactly when all slots hold messages not yet
      taken, or none does; every other call goes on to its semaphore. */
  lemma CallOutcome(qs: seq<Queue>, ts: seq<Tid>, sts: seq<QStep>, k: nat)
    requires Run(qs, ts, sts) && k < |sts|
    ensures var waiting := |qs[k].put| - |qs[k].taken|; ts[k] in qs[k + 1].pcs && var pc := qs[k + 1].pcs[ts[k]];
      && (sts[k].CallSend? ==> pc == if sts[k].tmo < 0 && waiting == qs[k].size then Out else SendWait(sts[k].msg))
      && (sts[k].CallRecv? ==> pc == if sts[k].tmo < 0 && waiting == 0 then Out else RecvWait)
  {
    hide Balanced;
    RunInv(qs, ts, sts, k);
    assert Next(qs[k], qs[k + 1], ts[k], sts[k]);
  }

  // ---------------------------------------------------------------- the critical sections

  /** The part of fixed_queue_t that the lock protects, with the messages put and taken so far. */
  class Slots {
    const buffer: array<Msg>
    var inp: nat
    var outp: nat
    var cnt: int
    ghost var put: seq<Msg>
    ghost var taken: seq<Msg>

    /** The array holds exactly the messages put and not yet taken, oldest first. */
    ghost predicate Valid()
      reads this, buffer
    {
      Ring(buffer.Length, buffer[..], inp, outp, cnt, put, taken)
    }

    /** These are the locked fields of the queue state `q`. */
    ghost predicate Shows(q: Queue)
      reads this, buffer
    {
      && q.size == buffer.Length && q.buffer == buffer[..] && q.inp == inp && q.outp == outp && q.cnt == cnt
      && q.put == put && q.taken == taken
    }

    constructor (size: nat)
      requires size > 0
      ensures Valid() && buffer.Length == size && cnt == 0 && put == taken == [] && fresh(buffer)
      ensures forall q :: Init(q) && q.size == size && q.buffer == buffer[..] ==> Shows(q)
    {
      buffer := new Msg[size](_ => 0);
      inp, outp, cnt := 0, 0, 0;
      put, taken := [], [];
    }

    /** The locked section of fixed_queue_send. No waiting message is overwritten, and it does
        to the fields what the step DoPut of the thread that holds `msg` does to the queue. */
    method Put(msg: Msg)
      requires Valid() && cnt < buffer.Length
      modifies this, buffer
      ensures Valid() && put == old(put) + [msg] && taken == old(taken) && cnt == old(cnt) + 1
      ensures forall q, t :: old(Shows(q)) && Enabled(q, t, DoPut) && q.pcs[t] == SendPut(msg) ==>
        Shows(Apply(q, t, DoPut))
    {
      hide Ring;
      RingPut(buffer.Length, buffer[..], inp, outp, cnt, put, taken, msg);
      InBounds(buffer.Length, buffer[..], inp, outp, cnt, put, taken);
      ghost var was := buffer[..];
      buffer[inp] := msg;
      assert buffer[..] == was[inp := msg];
      inp := inp + 1;
      if inp >= buffer.Length { inp := 0; }
      cnt := cnt + 1;
      put := put + [msg];
    }

    /** The locked section of fixed_queue_recv: the oldest message not yet taken, as the step
        DoTake has it. */
    method Take() returns (msg: Msg)
      requires Valid() && cnt > 0
      modifies this
      ensures Valid() && put == old(put) && taken == old(taken) + [msg] && cnt == old(cnt) - 1
      ensures |old(taken)| < |put| && msg == put[|old(taken)|]
      ensures forall q, t :: old(Shows(q)) && Enabled(q, t, DoTake) ==>
        Shows(Apply(q, t, DoTake)) && Apply(q, t, DoTake).pcs[t] == RecvNotify(msg)
    {
      hide Ring;
      RingTake(buffer.Length, buffer[..], inp, outp, cnt, put, taken);
      InBounds(buffer.Length, buffer[..], inp, outp, cnt, put, taken);
      msg := buffer[outp];
      outp := outp + 1;
      if outp >= buffer.Length { outp := 0; }
      cnt := cnt - 1;
      taken := taken + [msg];
    }
  }

  lemma InBounds(size: nat, buffer: seq<Msg>, inp: nat, outp: nat, cnt: int, put: seq<Msg>, taken: seq<Msg>)
    requires Ring(size, buffer, inp, outp, cnt, put, taken)
    ensures inp < size && outp < size && |put| == |taken| + cnt
  {
  }
}
