/** Runs built step by step: the opening handshake, a close, and a peer whose acknowledgement is
    duplicated for ever. They show that the retransmission timeout has no bound, and that a FIN can
    lead to CLOSE_WAIT without being accepted. */
module TcpRuns {
  import opened Common
  import opened SeqNum
  import opened TcpModel
  import opened TcpSafety
  import opened TcpTheorems
  import TcpFuture

  // ---------------------------------------------------------------- extending a run

  function StepTo(v: World, e: Event): World {
    var r := Apply(End(v, e.atA), e.st);
    if e.atA then v.(a := r.e, ab := v.ab + ToSet(r.sent)) else v.(b := r.e, ba := v.ba + ToSet(r.sent))
  }

  function Last(vs: seq<World>): World
    requires vs != []
  {
    vs[|vs| - 1]
  }

  lemma Extend(vs: seq<World>, es: seq<Event>, e: Event) returns (vs': seq<World>, es': seq<Event>)
    requires Run(vs, es) && Enabled(End(Last(vs), e.atA), SentBy(Last(vs), !e.atA), e.st)
    ensures Run(vs', es') && Last(vs') == StepTo(Last(vs), e)
  {
    hide Apply, Enabled, Init;
    vs', es' := vs + [StepTo(Last(vs), e)], es + [e];
    forall i | 0 <= i < |es'| ensures Next(vs'[i], vs'[i + 1], es'[i].atA, es'[i].st) {
      if i < |es| { assert Next(vs[i], vs[i + 1], es[i].atA, es[i].st); }
    }
  }

  // ---------------------------------------------------------------- the records on the way

  const Syn := Segment(0, 0, true, false, false, false, TCP_RBUF_SIZE, Some(TCP_MSS), [])
  const SynAck := Segment(0, 1, true, false, false, true, TCP_RBUF_SIZE, Some(TCP_MSS), [])
  const Ack := Segment(1, 1, false, false, false, true, TCP_RBUF_SIZE, None, [])

  /** The client after connect, and the server after its SYN: both wait for an answer. */
  function Opening(state: State, irsValid: bool, rcvNxt: Seq): Tcb {
    Tcb(state, true, false, irsValid, false, 0, 0, 1, [], 0, rcvNxt, [], TCP_MSS,
        Sending, 0, TCP_INT_RETRIES, TCP_INIT_RTO, Some(TCP_INIT_RTO), false)
  }

  const Ready := Tcb(Established, false, false, true, false, 0, 1, 1, [], 0, 1, [], TCP_MSS,
                     Idle, 0, TCP_INT_RETRIES, TCP_INIT_RTO, None, false)

  /** Closed by the application, the FIN sent and not acknowledged. */
  function FinSent(ostate: OState, cnt: nat, rto: nat): Tcb {
    Tcb(FinWait1, false, true, true, false, 0, 1, 2, [], 0, 1, [], TCP_MSS,
        ostate, cnt, TCP_INT_RETRIES, rto, Some(rto), false)
  }

  lemma Connecting()
    ensures Connect(Fresh(Closed), 0, Sent) == Out(Opening(SynSent, false, 0), [Syn])
  {
    hide TcbOk;
  }

  lemma Listening()
    ensures Inbound(Fresh(Listen), Syn, 0, Sent) == Out(Opening(SynRecvd, true, 1), [SynAck])
  {
    hide TcbOk;
  }

  lemma Answered()
    ensures Inbound(Opening(SynSent, false, 0), SynAck, 0, Sent) == Out(Ready, [Ack])
  {
    hide TcbOk;
  }

  lemma Accepting()
    ensures Inbound(Opening(SynRecvd, true, 1), Ack, 0, Sent) == Out(Ready, [])
  {
    hide TcbOk;
  }

  lemma ClosingNow()
    ensures Close(Ready, Sent).t == FinSent(Sending, 0, TCP_INIT_RTO)
  {
    hide TcbOk;
  }

  lemma Expiring(cnt: nat, rto: nat)
    ensures TimerTmo(FinSent(Sending, cnt, rto), Sent).t == FinSent(Rexmit, 1, 2 * rto)
  {
    hide TcbOk;
  }

  /** The old acknowledgement says nothing new, but it puts the sender back into SENDING. */
  lemma Duplicate(rto: nat)
    ensures Inbound(FinSent(Rexmit, 1, rto), Ack, 0, Sent).t == FinSent(Sending, 1, rto)
  {
    hide TcbOk;
  }

  // ---------------------------------------------------------------- the run

  /** Side b connects, side a accepts. */
  lemma Opened() returns (vs: seq<World>, es: seq<Event>)
    ensures Run(vs, es) && Last(vs).a == Last(vs).b == Endpoint(Ready, [], [], false, true) && Ack in Last(vs).ba
  {
    hide Connect, Inbound, TcbOk;
    var a, b := Endpoint(Fresh(Listen), [], [], false, false), Endpoint(Fresh(Closed), [], [], false, false);
    vs, es := [World(a, b, {}, {})], [];
    Connecting();
    vs, es := Extend(vs, es, Event(false, DoConnect(0, Sent)));
    Listening();
    vs, es := Extend(vs, es, Event(true, DoDeliver(Syn, 0, Sent)));
    Answered();
    vs, es := Extend(vs, es, Event(false, DoDeliver(SynAck, 0, Sent)));
    Accepting();
    vs, es := Extend(vs, es, Event(true, DoDeliver(Ack, 0, Sent)));
  }

  /** Side b connects, side a accepts and closes. The acknowledgement of the handshake is then in
      the channel towards a, and a waits for that of its FIN. */
  lemma OpenAndClose() returns (vs: seq<World>, es: seq<Event>)
    ensures Run(vs, es) && Last(vs).a.t == FinSent(Sending, 0, TCP_INIT_RTO) && Ack in Last(vs).ba
  {
    hide Close, TcbOk, Run;
    vs, es := Opened();
    ClosingNow();
    vs, es := Extend(vs, es, Event(true, DoClose(Sent)));
  }

  // ---------------------------------------------------------------- CLOSE_WAIT without fin_in

  const EarlyFin := Segment(1, 1, false, true, false, true, TCP_RBUF_SIZE, None, [])

  lemma ClientCloses()
    ensures Close(Ready, Sent) == Out(FinSent(Sending, 0, TCP_INIT_RTO), [EarlyFin])
  {
    hide TcbOk;
  }

  lemma EarlyFinArrives()
    ensures Inbound(Opening(SynRecvd, true, 1), EarlyFin, 0, Sent) == Out(Ready.(state := CloseWait), [])
  {
    hide TcbOk;
  }

  /** Side b connects and closes at once. Its FIN overtakes the acknowledgement of the handshake and
      reaches a in SYN_RECVD, which enters CLOSE_WAIT without fin_in. */
  lemma CloseWaitWithoutFin() returns (vs: seq<World>, es: seq<Event>)
    ensures Run(vs, es) && Last(vs).a.t.state.CloseWait? && !Last(vs).a.t.finIn
    ensures Last(vs).b.closed && Last(vs).b.t.finOut
  {
    hide Connect, Inbound, Close, TcbOk;
    var a, b := Endpoint(Fresh(Listen), [], [], false, false), Endpoint(Fresh(Closed), [], [], false, false);
    vs, es := [World(a, b, {}, {})], [];
    Connecting();
    vs, es := Extend(vs, es, Event(false, DoConnect(0, Sent)));
    Listening();
    vs, es := Extend(vs, es, Event(true, DoDeliver(Syn, 0, Sent)));
    Answered();
    vs, es := Extend(vs, es, Event(false, DoDeliver(SynAck, 0, Sent)));
    ClientCloses();
    vs, es := Extend(vs, es, Event(false, DoClose(Sent)));
    EarlyFinArrives();
    vs, es := Extend(vs, es, Event(true, DoDeliver(EarlyFin, 0, Sent)));
  }

  // ---------------------------------------------------------------- a FIN that nxt never counts

  /** Side a after the peer's FIN, with its own send state. */
  function PeerGone(state: State, fin: bool, una: Seq, nxt: Seq, sbuf: seq<Byte>,
                    ostate: OState, cnt: nat, rto: nat): Tcb
  {
    Tcb(state, false, fin, true, true, 0, una, nxt, sbuf, 0, 2, [], TCP_MSS,
        ostate, cnt, TCP_INT_RETRIES, rto, Some(rto), false)
  }

  /** Side b once its FIN is acknowledged and the byte is in. */
  const HalfClosed := Tcb(FinWait2, false, false, true, false, 0, 2, 2, [], 0, 2, [7], TCP_MSS,
                          Idle, 0, TCP_INT_RETRIES, TCP_INIT_RTO, None, false)

  const LastByte := Segment(1, 2, false, false, false, true, TCP_RBUF_SIZE, None, [7])
  const ByteAck := Segment(2, 2, false, false, false, true, TCP_RBUF_SIZE - 1, None, [])
  const LateFin := Segment(2, 2, false, true, false, true, TCP_RBUF_SIZE, None, [])
  const FinAck := Segment(2, 3, false, false, false, true, TCP_RBUF_SIZE - 1, None, [])

  lemma PeerFinArrives()
    ensures Inbound(Ready, EarlyFin, 0, Sent).t
         == PeerGone(CloseWait, false, 1, 1, [], Sending, 0, TCP_INIT_RTO)
  {
    hide TcbOk;
  }

  lemma ByteGoesOut()
    ensures Send(PeerGone(CloseWait, false, 1, 1, [], Sending, 0, TCP_INIT_RTO), [7], Sent)
         == Out(PeerGone(CloseWait, false, 1, 2, [7], Sending, 0, TCP_INIT_RTO), [LastByte])
  {
    hide TcbOk;
    assert [] + [7][..1] == [7] && Slice([7], 0, 1) == [7];
  }

  lemma ClosesWithByteOut()
    ensures Close(PeerGone(CloseWait, false, 1, 2, [7], Sending, 0, TCP_INIT_RTO), Sent)
         == Out(PeerGone(LastAck, true, 1, 2, [7], Sending, 0, TCP_INIT_RTO), [])
  {
    hide TcbOk;
  }

  lemma ByteArrives()
    ensures Inbound(FinSent(Sending, 0, TCP_INIT_RTO), LastByte, 0, Sent)
         == Out(HalfClosed, [ByteAck])
  {
    hide TcbOk;
  }

  /** LAST_ACK raises no send event, so the FIN does not go out here. */
  lemma ByteAcknowledged()
    ensures Inbound(PeerGone(LastAck, true, 1, 2, [7], Sending, 0, TCP_INIT_RTO), ByteAck, 0, Sent)
         == Out(PeerGone(LastAck, true, 2, 2, [], Sending, 0, TCP_INIT_RTO), [])
  {
    hide TcbOk;
  }

  /** The timer sends it, and leaves nxt where it is. */
  lemma FinByTimer()
    ensures TimerTmo(PeerGone(LastAck, true, 2, 2, [], Sending, 0, TCP_INIT_RTO), Sent)
         == Out(PeerGone(LastAck, true, 2, 2, [], Rexmit, 1, 2 * TCP_INIT_RTO), [LateFin])
  {
    hide TcbOk;
  }

  lemma LateFinArrives()
    ensures var o := Inbound(HalfClosed, LateFin, 0, Sent); o.t.state.TimeWait? && o.t.finIn && o.sent == [FinAck]
  {
    hide TcbOk;
  }

  lemma FinAckIgnored()
    ensures Inbound(PeerGone(LastAck, true, 2, 2, [], Rexmit, 1, 2 * TCP_INIT_RTO), FinAck, 0, Sent)
         == Out(PeerGone(LastAck, true, 2, 2, [], Rexmit, 1, 2 * TCP_INIT_RTO), [])
  {
    hide TcbOk;
  }

  /** Side b connects and closes; a takes the FIN, writes a byte and closes. */
  lemma ClosedWithByteOut() returns (vs: seq<World>, es: seq<Event>)
    ensures Run(vs, es) && LastByte in Last(vs).ab
    ensures Last(vs).a.t == PeerGone(LastAck, true, 1, 2, [7], Sending, 0, TCP_INIT_RTO)
    ensures Last(vs).b.t == FinSent(Sending, 0, TCP_INIT_RTO)
  {
    hide Inbound, Send, Close, TcbOk, Run;
    vs, es := Opened();
    ClientCloses();
    vs, es := Extend(vs, es, Event(false, DoClose(Sent)));
    PeerFinArrives();
    vs, es := Extend(vs, es, Event(true, DoDeliver(EarlyFin, 0, Sent)));
    ByteGoesOut();
    vs, es := Extend(vs, es, Event(true, DoSend([7], Sent)));
    ClosesWithByteOut();
    vs, es := Extend(vs, es, Event(true, DoClose(Sent)));
  }

  /** Side b connects and closes; a writes a byte and closes before the byte is acknowledged. Its FIN
      then only goes out by the timer: b takes it and is in TIME_WAIT, and its acknowledgement is
      refused, as one of the future. */
  lemma FinAckRefused() returns (vs: seq<World>, es: seq<Event>)
    ensures Run(vs, es) && TcpFuture.Stuck(Last(vs).a.t) && Last(vs).b.t.state.TimeWait? && Last(vs).b.t.finIn
    ensures FinAck in Last(vs).ba && Apply(Last(vs).a, DoDeliver(FinAck, 0, Sent)) == Act(Last(vs).a, [])
  {
    hide Inbound, TimerTmo, TcbOk, Run;
    vs, es := ClosedWithByteOut();
    ByteArrives();
    vs, es := Extend(vs, es, Event(false, DoDeliver(LastByte, 0, Sent)));
    ByteAcknowledged();
    vs, es := Extend(vs, es, Event(true, DoDeliver(ByteAck, 0, Sent)));
    FinByTimer();
    vs, es := Extend(vs, es, Event(true, DoTimeout(Sent)));
    LateFinArrives();
    vs, es := Extend(vs, es, Event(false, DoDeliver(LateFin, 0, Sent)));
    FinAckIgnored();
  }

  // ---------------------------------------------------------------- the timeout doubles

  function Doubled(n: nat): nat {
    if n == 0 then TCP_INIT_RTO else 2 * Doubled(n - 1)
  }

  lemma {:induction false} DoubledGrows(n: nat)
    ensures Doubled(n) > n
  {
    if n > 0 { DoubledGrows(n - 1); }
  }

  /** The field of the C record is an int: the round with which it leaves that range. */
  lemma LeavesInt()
    ensures Doubled(21) < 0x8000_0000 <= Doubled(22)
  {
    Sevenfold(0);
    Sevenfold(7);
    Sevenfold(14);
  }

  lemma Sevenfold(n: nat)
    ensures Doubled(n + 7) == 128 * Doubled(n)
  {
    assert Doubled(n + 4) == 16 * Doubled(n) by {
      assert Doubled(n + 2) == 2 * Doubled(n + 1);
      assert Doubled(n + 4) == 2 * Doubled(n + 3);
    }
    assert Doubled(n + 6) == 2 * Doubled(n + 5);
  }

  /** Each round of a timeout and a duplicate doubles the timeout. */
  lemma {:induction false} Rounds(n: nat) returns (vs: seq<World>, es: seq<Event>, cnt: nat)
    ensures Run(vs, es) && Last(vs).a.t == FinSent(Sending, cnt, Doubled(n)) && Ack in Last(vs).ba
  {
    hide Inbound, TimerTmo, Run, TcbOk;
    if n == 0 {
      vs, es := OpenAndClose();
      cnt := 0;
    } else {
      vs, es, cnt := Rounds(n - 1);
      Expiring(cnt, Doubled(n - 1));
      vs, es := Extend(vs, es, Event(true, DoTimeout(Sent)));
      Duplicate(Doubled(n));
      vs, es := Extend(vs, es, Event(true, DoDeliver(Ack, 0, Sent)));
      cnt := 1;
    }
  }

  /** There is no bound on the retransmission timeout: for every bound some run exceeds it. */
  lemma RtoUnbounded(bound: nat) returns (vs: seq<World>, es: seq<Event>)
    ensures Run(vs, es) && Last(vs).a.t.timer.Some? && Last(vs).a.t.rto > bound
  {
    hide Run;
    var cnt;
    vs, es, cnt := Rounds(bound);
    DoubledGrows(bound);
  }

  /** Exactly which expiry arms a timer above the maximum: one in SENDING with more than half of
      it whose retransmission is not refused. An expiry in REXMIT never does. */
  lemma AboveMaximum(t: Tcb, x: Xmit)
    ensures var o := TimerTmo(t, x).t;
      o.timer.Some? && o.rto > TCP_RTO_MAX <==>
        t.ostate.Sending? && 2 * t.rto > TCP_RTO_MAX && !RetransmitFails(t, x)
  {
    hide SendingTmo, RexmitTmo, RetransmitFails, TcbOk;
    FailsAlike(t, x);
    if t.ostate.Sending? { SendingAbove(t.(timer := None), x); }
    if t.ostate.Rexmit? { RexmitBelow(t.(timer := None), x); }
  }

  lemma SendingAbove(t: Tcb, x: Xmit)
    requires t.timer.None?
    ensures var o := SendingTmo(t, x).t;
      && o.timer.Some? == !RetransmitFails(t, x)
      && (o.timer.Some? ==> o.rto == 2 * t.rto)
  {
    hide Retransmit, RetransmitFails, TcbOk;
  }

  lemma RexmitBelow(t: Tcb, x: Xmit)
    requires t.timer.None?
    ensures var o := RexmitTmo(t, x).t; o.timer.Some? ==> o.rto <= TCP_RTO_MAX
  {
    hide Retransmit, RetransmitFails, TcbOk;
    var c := t.(rexmitCnt := t.rexmitCnt + 1);
    assert Retransmit(c, x).t.timer == c.timer;
  }

  lemma FailsAlike(t: Tcb, x: Xmit)
    ensures RetransmitFails(t.(timer := None), x) == RetransmitFails(t, x)
  {
  }
}
