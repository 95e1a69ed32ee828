/** What comes in: data and a FIN at the next slot are taken, what is taken is acknowledged at once,
    every segment acknowledges exactly what has been accepted, and a lossless exchange leaves nothing
    outstanding. */
module TcpTaken {
  import opened Common
  import opened SeqNum
  import opened TcpModel
  import opened TcpSafety
  import opened TcpTheorems
  import opened TcpSent

  // ---------------------------------------------------------------- acknowledgements are fresh

  /** Every segment sent acknowledges all that the record has received, and advertises the room
      that is left; before the peer's number is known it acknowledges nothing. */
  predicate UpToDate(t: Tcb, g: Segment) {
    g.rst || (g.win == RcvWindow(t) && if t.irsValid then g.isAck && g.ack == t.rcvNxt else !g.isAck)
  }

  predicate FreshOut(o: Out) {
    forall g :: g in o.sent ==> UpToDate(o.t, g)
  }

  /** The fields it depends on. */
  predicate SameReceive(t: Tcb, t': Tcb) {
    t.irsValid == t'.irsValid && t.rcvNxt == t'.rcvNxt && t.rbuf == t'.rbuf
  }

  lemma SameFresh(o: Out, o': Out)
    requires FreshOut(o) && o'.sent == o.sent && SameReceive(o.t, o'.t)
    ensures FreshOut(o')
  {
  }

  lemma QuietFresh(t: Tcb)
    ensures FreshOut(Out(t, []))
  {
  }

  lemma ResetFresh(t: Tcb, s: Segment)
    ensures FreshOut(Out(t, SendReset(s)))
  {
  }

  lemma TransmitFresh(t: Tcb, x: Xmit)
    ensures FreshOut(Transmit(t, x)) && FreshOut(Retransmit(t, x))
  {
  }

  lemma OutEventFresh(t: Tcb, x: Xmit)
    ensures FreshOut(OutEvent(t, x)) && SameReceive(t, OutEvent(t, x).t)
  {
    hide TcbOk, Transmit, Retransmit;
    TransmitFresh(t, x);
    TransmitFresh(SetOState(t, Rexmit), x);
  }

  lemma DataInFresh(t: Tcb, s: Segment)
    requires t.irsValid
    ensures FreshOut(DataIn(t, s)) && DataIn(t, s).t.irsValid
  {
  }

  lemma JoinFresh(t: Tcb, a: seq<Segment>, b: seq<Segment>)
    requires FreshOut(Out(t, a)) && FreshOut(Out(t, b))
    ensures FreshOut(Out(t, a + b))
  {
  }

  lemma AckDataOutFresh(t: Tcb, s: Segment, x: Xmit)
    requires t.irsValid
    ensures var r := AckDataOut(t, s, x); r.Go? ==> FreshOut(r.o)
  {
    hide TcbOk, OutEvent, DataIn, AckProcess, FreshOut;
    var a := AckProcess(t, s.ack);
    var d := DataIn(a.t, s);
    var o := OutEvent(d.t, x);
    DataInFresh(a.t, s);
    OutEventFresh(d.t, x);
    SameFresh(d, Out(o.t, d.sent));
    JoinFresh(o.t, d.sent, o.sent);
  }

  lemma AckOutFresh(t: Tcb, s: Segment, x: Xmit)
    ensures var r := AckOut(t, s, x); r.Go? ==> FreshOut(r.o)
  {
    hide TcbOk, OutEvent, AckProcess, FreshOut;
    OutEventFresh(AckProcess(t, s.ack).t, x);
  }

  lemma DataStatesFresh(t: Tcb, s: Segment, x: Xmit)
    requires t.irsValid && t.state in {Established, FinWait1, FinWait2}
    ensures FreshOut(Handle(t, s, x))
  {
    hide TcbOk, AckDataOut, FreshOut;
    QuietFresh(t);
    AckDataOutFresh(t, s, x);
    if AckDataOut(t, s, x).Go? { SameFresh(AckDataOut(t, s, x).o, Handle(t, s, x)); }
  }

  lemma AckStatesFresh(t: Tcb, s: Segment, x: Xmit)
    requires t.state in {SynRecvd, Closing, CloseWait}
    ensures FreshOut(Handle(t, s, x))
  {
    hide TcbOk, AckOut, FreshOut;
    QuietFresh(t);
    AckOutFresh(t, s, x);
    if AckOut(t, s, x).Go? { SameFresh(AckOut(t, s, x).o, Handle(t, s, x)); }
  }

  lemma LastStatesFresh(t: Tcb, s: Segment, x: Xmit)
    requires t.irsValid && t.state in {TimeWait, LastAck}
    ensures FreshOut(Handle(t, s, x))
  {
    hide TcbOk, AckProcess, DataIn;
    DataInFresh(AckProcess(t, s.ack).t, s);
  }

  lemma AnswerFresh(t: Tcb, s: Segment, x: Xmit)
    requires t.irsValid
    ensures FreshOut(AnswerSyn(t, s, x))
  {
    hide TcbOk, OutEvent;
    OutEventFresh(t, x);
    OutEventFresh(t.(state := SynRecvd, synOut := true), x);
  }

  lemma SynSentFresh(t: Tcb, s: Segment, x: Xmit)
    ensures FreshOut(SynSentIn(t, s, x))
  {
    hide TcbOk, AnswerSyn, SendReset, AckProcess, Plus, FreshOut;
    ResetFresh(t, s);
    QuietFresh(t);
    QuietFresh(Abort(t));
    var t1 := ReadOptions(t, s).(irs := s.seq_, rcvNxt := Plus(s.seq_, 1), irsValid := true);
    AnswerFresh(if s.isAck then AckProcess(t1, s.ack).t else t1, s, x);
  }

  lemma ListenFresh(t: Tcb, s: Segment, iss: Seq, x: Xmit)
    ensures FreshOut(ListenIn(t, s, iss, x))
  {
    hide TcbOk, OutEvent, SendReset, FreshOut;
    ResetFresh(t, s);
    QuietFresh(t);
    if !s.rst && !s.isAck && s.syn {
      var child := ReadOptions(TcpModel.Fresh(Closed), s).(
        iss := iss, una := iss, nxt := iss,
        irsValid := true, irs := s.seq_, rcvNxt := Plus(s.seq_, 1));
      OutEventFresh(child.(synOut := true), x);
      SameFresh(OutEvent(child.(synOut := true), x), ListenIn(t, s, iss, x));
    }
  }

  lemma InboundFresh(e: Endpoint, s: Segment, iss: Seq, x: Xmit)
    requires StateFlags(e)
    ensures FreshOut(Inbound(e.t, s, iss, x))
  {
    hide TcbOk, Handle, SynSentIn, ListenIn, SeqAcceptable, SendReset, FreshOut;
    var t := e.t;
    ResetFresh(t, s);
    ResetFresh(Abort(t), s);
    QuietFresh(t);
    QuietFresh(Abort(t));
    if t.state.Listen? {
      ListenFresh(t, s, iss, x);
    } else if t.state.SynSent? {
      SynSentFresh(t, s, x);
    } else if t.state in {Established, FinWait1, FinWait2} {
      DataStatesFresh(t, s, x);
    } else if t.state in {SynRecvd, Closing, CloseWait} {
      AckStatesFresh(t, s, x);
    } else if t.state in {TimeWait, LastAck} {
      LastStatesFresh(t, s, x);
    }
  }

  lemma TimerFresh(t: Tcb, x: Xmit)
    ensures FreshOut(TimerTmo(t, x))
  {
    hide TcbOk, SendingTmo, RexmitTmo, FreshOut;
    QuietFresh(t.(timer := None));
    SendingFresh(t.(timer := None), x);
    RexmitFresh(t.(timer := None), x);
  }

  lemma SendingFresh(t: Tcb, x: Xmit)
    ensures FreshOut(SendingTmo(t, x))
  {
    hide TcbOk, Transmit, Retransmit, RetransmitFails, FreshOut;
    TransmitFresh(t, x);
    SameFresh(Retransmit(t, x), SendingTmo(t, x));
  }

  lemma RexmitFresh(t: Tcb, x: Xmit)
    ensures FreshOut(RexmitTmo(t, x))
  {
    hide TcbOk, Transmit, Retransmit, RexmitTmo, FreshOut;
    RexmitEither(t, x);
    var c := t.(rexmitCnt := t.rexmitCnt + 1);
    if c.rexmitCnt > c.rexmitMax {
      QuietFresh(Abort(c));
    } else {
      TransmitFresh(c, x);
      SameFresh(Retransmit(c, x), RexmitTmo(t, x));
    }
  }

  lemma ConnectFresh(t: Tcb, iss: Seq, x: Xmit)
    ensures FreshOut(Connect(t, iss, x))
  {
    hide TcbOk, OutEvent, FreshOut;
    var t1 := t.(
      iss := iss, una := iss, nxt := iss, sbuf := [], rbuf := [], rcvNxt := 0, mss := TCP_MSS, synOut := true);
    OutEventFresh(t1, x);
    SameFresh(OutEvent(t1, x), Connect(t, iss, x));
  }

  lemma SendFresh(t: Tcb, bytes: seq<Byte>, x: Xmit)
    ensures FreshOut(Send(t, bytes, x))
  {
    hide TcbOk, OutEvent, FreshOut;
    QuietFresh(t);
    OutEventFresh(t.(sbuf := t.sbuf + bytes[..Taken(t, |bytes|)]), x);
  }

  lemma CloseFresh(t: Tcb, x: Xmit)
    ensures FreshOut(Close(t, x))
  {
    hide TcbOk, OutEvent, Close, FreshOut;
    CloseEither(t, x);
    QuietFresh(Close(t, x).t);
    OutEventFresh(t.(finOut := true), x);
    if CanSend(t) { SameFresh(OutEvent(t.(finOut := true), x), Close(t, x)); }
  }

  lemma ApplyFresh(e: Endpoint, st: Step)
    requires StateFlags(e)
    ensures FreshOut(Out(Apply(e, st).e.t, Apply(e, st).sent))
  {
    hide Connect, Send, Recv, Close, Inbound, TimerTmo, Destroy, FreshOut, StateFlags;
    match st
    case DoConnect(iss, x) => ConnectFresh(e.t, iss, x);
    case DoSend(bytes, x) => SendFresh(e.t, bytes, x);
    case DoClose(x) => CloseFresh(e.t, x);
    case DoDeliver(s, iss, x) => InboundFresh(e, s, iss, x);
    case DoTimeout(x) => TimerFresh(e.t, x);
    case _ => QuietFresh(Apply(e, st).e.t);
  }

  /** What a segment says about the end that sends it: it acknowledges the SYN, every accepted byte
      and an accepted FIN, and advertises the free part of the receive buffer. */
  predicate TellsAll(e: Endpoint, g: Segment) {
    g.rst ||
    (&& g.win == TCP_RBUF_SIZE - |e.t.rbuf|
     && if e.t.irsValid then g.isAck && g.ack == Plus(e.t.irs, 1 + |Accepted(e)| + Bit(e.t.finIn)) else !g.isAck)
  }

  /** In every run, every segment an event sends acknowledges exactly what its end has accepted by
      then, and advertises exactly the room it has left. */
  lemma SegmentsTellAll(vs: seq<World>, es: seq<Event>, k: nat, g: Segment)
    requires Run(vs, es) && k < |es|
    requires g in Apply(End(vs[k], es[k].atA), es[k].st).sent
    ensures TellsAll(End(vs[k + 1], es[k].atA), g)
  {
    hide Apply, StateFlags, Window, Prefix, Slot, Enabled;
    var e := es[k];
    RunInv(vs, es, k);
    RunInv(vs, es, k + 1);
    assert Next(vs[k], vs[k + 1], e.atA, e.st);
    ApplyFresh(End(vs[k], e.atA), e.st);
    var e' := End(vs[k + 1], e.atA);
    if e'.t.irsValid { ReceiveAccounting(e'); }
  }

  // ---------------------------------------------------------------- what is accepted is acknowledged

  predicate SendsAck(sent: seq<Segment>) {
    exists g :: g in sent && !g.rst && g.isAck
  }

  lemma PureAckIn(t: Tcb, s: Segment, sent: seq<Segment>)
    requires !s.rst && forall g :: g in SendAck(t, s) ==> g in sent
    ensures SendsAck(sent)
  {
    assert SendAck(t, s)[0] == PureAck(t);
    assert PureAck(t) in SendAck(t, s);
  }

  lemma DataInAcks(t: Tcb, s: Segment)
    requires !s.rst && (DataIn(t, s).t.rbuf != t.rbuf || DataIn(t, s).t.finIn != t.finIn)
    ensures SendsAck(DataIn(t, s).sent)
  {
    var size := if s.data != [] && s.seq_ == t.rcvNxt then Min(|s.data|, RcvWindow(t)) else 0;
    if size == 0 { assert t.rbuf + s.data[..size] == t.rbuf; }
    PureAckIn(DataIn(t, s).t, s, DataIn(t, s).sent);
  }

  lemma MoreAcks(a: seq<Segment>, b: seq<Segment>)
    requires SendsAck(a)
    ensures SendsAck(a + b)
  {
    var g :| g in a && !g.rst && g.isAck;
    assert g in a + b;
  }

  predicate Took(t: Tcb, t': Tcb) {
    t'.rbuf != t.rbuf || t'.finIn != t.finIn
  }

  lemma AckDataOutAcks(t: Tcb, s: Segment, x: Xmit)
    requires !s.rst && AckDataOut(t, s, x).Go? && Took(t, AckDataOut(t, s, x).o.t)
    ensures SendsAck(AckDataOut(t, s, x).o.sent)
  {
    hide OutEvent, DataIn, AckProcess, TcbOk, SendsAck;
    var a := AckProcess(t, s.ack);
    var d := DataIn(a.t, s);
    var o := OutEvent(d.t, x);
    DataInAcks(a.t, s);
    MoreAcks(d.sent, o.sent);
  }

  lemma HandleAcks(t: Tcb, s: Segment, x: Xmit)
    requires !s.rst && Took(t, Handle(t, s, x).t)
    ensures SendsAck(Handle(t, s, x).sent)
  {
    hide AckDataOut, AckOut, AckProcess, DataIn, TcbOk, SendsAck;
    if t.state in {Established, FinWait1, FinWait2} {
      AckDataOutAcks(t, s, x);
    } else if t.state.TimeWait? {
      TimeWaitAcks(t, s);
    } else {
      NothingTook(t, s, x);
    }
  }

  lemma TimeWaitAcks(t: Tcb, s: Segment)
    requires !s.rst && Took(t, TimeWaitIn(t, s).t)
    ensures SendsAck(TimeWaitIn(t, s).sent)
  {
    hide AckProcess, DataIn, TcbOk, SendsAck;
    var a := AckProcess(t, s.ack);
    if a.ok {
      var d := DataIn(a.t, s);
      DataInAcks(a.t, s);
      MoreAcks(d.sent, SendAck(d.t, s));
    }
  }

  lemma AckOutTook(t: Tcb, s: Segment, x: Xmit)
    ensures AckOut(t, s, x).Go? ==> !Took(t, AckOut(t, s, x).o.t)
  {
    hide AckProcess, OutEvent, TcbOk;
  }

  lemma NothingTook(t: Tcb, s: Segment, x: Xmit)
    requires t.state !in {Established, FinWait1, FinWait2, TimeWait}
    ensures !Took(t, Handle(t, s, x).t)
  {
    hide AckOut, AckProcess, TcbOk;
    AckOutTook(t, s, x);
  }

  lemma AnswerTook(t: Tcb, s: Segment, x: Xmit)
    ensures !Took(t, AnswerSyn(t, s, x).t)
  {
    hide OutEvent, TcbOk;
  }

  lemma SynSentTook(t: Tcb, s: Segment, x: Xmit)
    ensures !Took(t, SynSentIn(t, s, x).t)
  {
    hide AnswerSyn, AckProcess, Plus, TcbOk, SendReset;
    var t1 := ReadOptions(t, s).(irs := s.seq_, rcvNxt := Plus(s.seq_, 1), irsValid := true);
    AnswerTook(if s.isAck then AckProcess(t1, s.ack).t else t1, s, x);
  }

  /** A segment from which anything is taken is answered with an acknowledgement. */
  lemma InboundAcks(t: Tcb, s: Segment, iss: Seq, x: Xmit)
    requires !t.state.Listen? && Took(t, Inbound(t, s, iss, x).t)
    ensures SendsAck(Inbound(t, s, iss, x).sent)
  {
    hide Handle, SynSentIn, ListenIn, SeqAcceptable, TcbOk, SendsAck, SendReset;
    SynSentTook(t, s, x);
    if !s.rst && Took(t, Handle(t, s, x).t) { HandleAcks(t, s, x); }
  }

  /** In every run, whenever a delivery makes an end accept bytes or a FIN, that event sends a segment
      that acknowledges all of it. */
  lemma AcceptedIsAcked(vs: seq<World>, es: seq<Event>, k: nat) returns (g: Segment)
    requires Run(vs, es) && k < |es| && es[k].st.DoDeliver?
    requires var e, e' := End(vs[k], es[k].atA), End(vs[k + 1], es[k].atA);
      e.started && (Accepted(e') != Accepted(e) || e'.t.finIn != e.t.finIn)
    ensures g in SentBy(vs[k + 1], es[k].atA) && !g.rst && g.isAck && TellsAll(End(vs[k + 1], es[k].atA), g)
  {
    hide Core, Prefix, Slot, Channel, Inbound, TellsAll, SendsAck;
    var ev := es[k];
    var e := End(vs[k], ev.atA);
    RunInv(vs, es, k);
    assert Next(vs[k], vs[k + 1], ev.atA, ev.st);
    var o := Inbound(e.t, ev.st.s, ev.st.iss, ev.st.x);
    InboundAcks(e.t, ev.st.s, ev.st.iss, ev.st.x);
    g := SomeAck(o.sent);
    SegmentsTellAll(vs, es, k, g);
  }

  lemma SomeAck(sent: seq<Segment>) returns (g: Segment)
    requires SendsAck(sent)
    ensures g in sent && !g.rst && g.isAck
  {
    g :| g in sent && !g.rst && g.isAck;
  }

  // ---------------------------------------------------------------- data at the next slot is taken

  /** The acknowledgement number is not beyond what this end has sent. */
  predicate NotFuture(e: Endpoint, s: Segment) {
    Slot(e.t.iss, s.ack) <= Nxt(e)
  }

  lemma AckTaken(e: Endpoint, p: Endpoint, s: Segment)
    requires Bond(e, p) && Synced(e) && SegOk(p, s) && !s.rst && !s.syn && NotFuture(e, s)
    ensures AckProcess(e.t, s.ack).ok
  {
    hide AckProcess, Plus, Diff;
    AckInSlots(e.t, s.ack, e.t.iss);
  }

  /** A segment at the next slot starts at rcv.nxt and is acceptable while there is room. */
  lemma NextSlot(e: Endpoint, s: Segment)
    requires Receiver(e) && e.t.irsValid && !e.t.finIn && Slot(e.t.irs, s.seq_) == 1 + |Accepted(e)|
    ensures s.seq_ == e.t.rcvNxt
    ensures RcvWindow(e.t) > 0 ==> SeqAcceptable(e.t, s)
  {
    hide Plus, Diff;
    SlotInjective(e.t.irs, s.seq_, e.t.rcvNxt);
    if RcvWindow(e.t) > 0 { OwnNumber(e.t); }
  }

  lemma OwnNumber(t: Tcb)
    requires RcvWindow(t) > 0
    ensures InWindow(t, t.rcvNxt)
  {
  }

  /** What an end takes from a segment at the next slot: as much of the data as it has room for, and
      a FIN. */
  predicate TakesAll(e: Endpoint, e': Endpoint, s: Segment) {
    && Accepted(e') == Accepted(e) + s.data[..Min(|s.data|, RcvWindow(e.t))]
    && (e'.t.finIn <==> s.fin && RcvWindow(e.t) > 0)
  }

  lemma DataInTakes(e: Endpoint, p: Endpoint, s: Segment)
    requires SegOk(p, s) && !s.rst && !s.syn && Receiver(e) && e.t.irsValid && !e.t.finIn && s.seq_ == e.t.rcvNxt
    requires RcvWindow(e.t) > 0
    ensures TakesAll(e, e.(t := DataIn(e.t, s).t), s)
  {
    var size := if s.data != [] then Min(|s.data|, RcvWindow(e.t)) else 0;
    assert e.rd + (e.t.rbuf + s.data[..size]) == (e.rd + e.t.rbuf) + s.data[..size];
    if size > 0 { Moves(e.t.rcvNxt, size); } else { assert Plus(e.t.rcvNxt, 0) == e.t.rcvNxt; }
  }

  lemma Moves(x: Seq, n: nat)
    requires 0 < n < HALF
    ensures Plus(x, n) != x
  {
  }

  lemma AckDataOutTakes(e: Endpoint, p: Endpoint, s: Segment, x: Xmit)
    requires Bond(e, p) && Synced(e) && SegOk(p, s) && !s.rst && !s.syn && NotFuture(e, s) && !e.t.finIn
    requires s.seq_ == e.t.rcvNxt && RcvWindow(e.t) > 0
    ensures var r := AckDataOut(e.t, s, x); r.Go? && TakesAll(e, e.(t := r.o.t), s)
  {
    hide AckProcess, DataIn, OutEvent, TcbOk, Window, Prefix, SegOk, NotFuture, Slot;
    AckTaken(e, p, s);
    var a := AckProcess(e.t, s.ack);
    DataInTakes(e.(t := a.t), p, s);
  }

  lemma HandleTakes(e: Endpoint, p: Endpoint, s: Segment, x: Xmit)
    requires Bond(e, p) && Synced(e) && SegOk(p, s) && !s.rst && !s.syn && NotFuture(e, s) && !e.t.finIn
    requires s.seq_ == e.t.rcvNxt && RcvWindow(e.t) > 0 && e.t.state in {Established, FinWait1, FinWait2}
    ensures TakesAll(e, e.(t := Handle(e.t, s, x).t), s)
  {
    hide AckDataOut, TcbOk, Core, Prefix, SegOk, NotFuture;
    AckDataOutTakes(e, p, s, x);
  }

  /** A segment of the peer at the next slot, in a state that receives, with an acknowledgement that
      is not of the future: its data is taken as far as there is room, and so is its FIN. */
  lemma DeliveryTakes(e: Endpoint, p: Endpoint, s: Segment, iss: Seq, x: Xmit)
    requires Bond(e, p) && StateFlags(e) && SegOk(p, s) && !s.rst && !s.syn && NotFuture(e, s)
    requires e.t.state in {Established, FinWait1, FinWait2} && Slot(e.t.irs, s.seq_) == 1 + |Accepted(e)|
    ensures TakesAll(e, Apply(e, DoDeliver(s, iss, x)).e, s)
  {
    hide Handle, SeqAcceptable, TcbOk, Sender, Prefix, SegOk, NotFuture, Slot;
    NextSlot(e, s);
    if RcvWindow(e.t) > 0 {
      HandleTakes(e, p, s, x);
    } else {
      NoRoom(e, p, s, x);
    }
  }

  /** With no room only a segment without length is acceptable, and nothing is taken. */
  lemma NoRoom(e: Endpoint, p: Endpoint, s: Segment, x: Xmit)
    requires Bond(e, p) && StateFlags(e) && SegOk(p, s) && !s.rst && !s.syn && NotFuture(e, s)
    requires e.t.state in {Established, FinWait1, FinWait2} && s.seq_ == e.t.rcvNxt && RcvWindow(e.t) == 0
    ensures TakesAll(e, Apply(e, DoDeliver(s, 0, x)).e, s)
    ensures forall iss :: Apply(e, DoDeliver(s, iss, x)).e == Apply(e, DoDeliver(s, 0, x)).e
  {
    hide Handle, TcbOk, Sender, Prefix, SegOk, NotFuture, Slot, Plus;
    assert Accepted(e) + [] == Accepted(e);
    if SeqAcceptable(e.t, s) {
      assert s.data == [] && !s.fin;
      NothingIn(e.t, s, x);
    }
  }

  lemma NothingIn(t: Tcb, s: Segment, x: Xmit)
    requires s.data == [] && !s.fin && t.state in {Established, FinWait1, FinWait2}
    ensures !Took(t, Handle(t, s, x).t)
  {
    hide AckDataOut, TcbOk;
    NothingInData(t, s, x);
  }

  lemma NothingInData(t: Tcb, s: Segment, x: Xmit)
    requires s.data == [] && !s.fin
    ensures AckDataOut(t, s, x).Go? ==> !Took(t, AckDataOut(t, s, x).o.t)
  {
    hide AckProcess, OutEvent, TcbOk, SendAck;
    var a := AckProcess(t, s.ack);
    assert a.t.rbuf + s.data[..0] == a.t.rbuf;
  }

  /** The same in every run, at either end. */
  lemma TakesInEveryRun(vs: seq<World>, es: seq<Event>, k: nat)
    requires Run(vs, es) && k < |es| && es[k].st.DoDeliver? && !es[k].st.s.rst && !es[k].st.s.syn
    requires var e := End(vs[k], es[k].atA);
      && e.t.state in {Established, FinWait1, FinWait2} && NotFuture(e, es[k].st.s)
      && Slot(e.t.irs, es[k].st.s.seq_) == 1 + |Accepted(e)|
    ensures TakesAll(End(vs[k], es[k].atA), End(vs[k + 1], es[k].atA), es[k].st.s)
  {
    hide Apply, Core, Prefix, StateFlags, SegOk, NotFuture, TakesAll, Slot;
    var e := es[k];
    RunInv(vs, es, k);
    assert Next(vs[k], vs[k + 1], e.atA, e.st);
    DeliveryTakes(End(vs[k], e.atA), End(vs[k], !e.atA), e.st.s, e.st.iss, e.st.x);
  }
}
