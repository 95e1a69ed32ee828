/** What a FIN says about its sender, and what CLOSE_WAIT and LAST_ACK have received, in every run. */
module TcpClose {
  import opened Common
  import opened SeqNum
  import opened TcpModel
  import opened TcpSafety

  // ---------------------------------------------------------------- a FIN goes out last

  /** Every FIN among the segments sent left on an empty buffer that still waits for its
      acknowledgement. */
  predicate FinOnEmpty(o: Out) {
    forall g :: g in o.sent && g.fin ==> o.t.finOut && o.t.sbuf == []
  }

  lemma OutEventFin(t: Tcb, x: Xmit)
    ensures FinOnEmpty(OutEvent(t, x))
  {
    hide TcbOk;
  }

  lemma RetransmitFin(t: Tcb, x: Xmit)
    ensures FinOnEmpty(Retransmit(t, x))
  {
  }

  /** State, timers and counters do not matter to it. */
  lemma SameFin(o: Out, o': Out)
    requires FinOnEmpty(o) && o'.sent == o.sent && o'.t.finOut == o.t.finOut && o'.t.sbuf == o.t.sbuf
    ensures FinOnEmpty(o')
  {
  }

  lemma TimerFin(t: Tcb, x: Xmit)
    ensures FinOnEmpty(TimerTmo(t, x)) && TimerTmo(t, x).t.sbuf == t.sbuf
  {
    hide TcbOk, SendingTmo, RexmitTmo, FinOnEmpty;
    assert FinOnEmpty(Out(t.(timer := None), [])) by { QuietFin(t.(timer := None)); }
    SendingFin(t.(timer := None), x);
    RexmitFin(t.(timer := None), x);
  }

  lemma QuietFin(t: Tcb)
    ensures FinOnEmpty(Out(t, []))
  {
  }

  lemma SendingFin(t: Tcb, x: Xmit)
    ensures FinOnEmpty(SendingTmo(t, x)) && SendingTmo(t, x).t.sbuf == t.sbuf
  {
    hide TcbOk, Retransmit, RetransmitFails, FinOnEmpty;
    RetransmitFin(t, x);
    SameFin(Retransmit(t, x), SendingTmo(t, x));
  }

  lemma RexmitFin(t: Tcb, x: Xmit)
    ensures FinOnEmpty(RexmitTmo(t, x)) && RexmitTmo(t, x).t.sbuf == t.sbuf
  {
    hide TcbOk, Retransmit, RexmitTmo, FinOnEmpty;
    RexmitEither(t, x);
    var c := t.(rexmitCnt := t.rexmitCnt + 1);
    if c.rexmitCnt > c.rexmitMax {
      QuietFin(Abort(c));
    } else {
      RetransmitFin(c, x);
      SameFin(Retransmit(c, x), RexmitTmo(t, x));
    }
  }

  lemma DataInFin(t: Tcb, s: Segment)
    ensures forall g :: g in DataIn(t, s).sent ==> !g.fin
  {
  }

  lemma AckDataOutFin(t: Tcb, s: Segment, x: Xmit)
    ensures var r := AckDataOut(t, s, x); r.Go? ==> FinOnEmpty(r.o) && (t.sbuf == [] ==> r.o.t.sbuf == [])
  {
    hide TcbOk, OutEvent, DataIn;
    var a := AckProcess(t, s.ack);
    DataInFin(a.t, s);
    OutEventFin(DataIn(a.t, s).t, x);
  }

  lemma AckOutFin(t: Tcb, s: Segment, x: Xmit)
    ensures var r := AckOut(t, s, x); r.Go? ==> FinOnEmpty(r.o) && (t.sbuf == [] ==> r.o.t.sbuf == [])
  {
    hide TcbOk, OutEvent;
    OutEventFin(AckProcess(t, s.ack).t, x);
  }

  lemma ResetFin(s: Segment)
    ensures forall g :: g in SendReset(s) ==> !g.fin
  {
  }

  lemma SynSentFin(t: Tcb, s: Segment, x: Xmit)
    ensures FinOnEmpty(SynSentIn(t, s, x)) && (t.sbuf == [] ==> SynSentIn(t, s, x).t.sbuf == [])
  {
    hide TcbOk, AnswerSyn, SendReset, AckProcess, Plus, FinOnEmpty;
    ResetOut(t, s);
    QuietFin(t);
    QuietFin(Abort(t));
    var t1 := ReadOptions(t, s).(irs := s.seq_, rcvNxt := Plus(s.seq_, 1), irsValid := true);
    if t.sbuf == [] { AckEmpty(t1, s.ack); }
    AnswerFin(if s.isAck then AckProcess(t1, s.ack).t else t1, s, x);
  }

  lemma ResetOut(t: Tcb, s: Segment)
    ensures FinOnEmpty(Out(t, SendReset(s)))
  {
  }

  lemma AckEmpty(t: Tcb, ack: Seq)
    requires t.sbuf == []
    ensures AckProcess(t, ack).t.sbuf == []
  {
  }

  lemma AnswerFin(t: Tcb, s: Segment, x: Xmit)
    ensures FinOnEmpty(AnswerSyn(t, s, x)) && AnswerSyn(t, s, x).t.sbuf == t.sbuf
  {
    hide TcbOk, OutEvent;
    OutEventFin(t, x);
    OutEventFin(t.(state := SynRecvd, synOut := true), x);
  }

  lemma ListenFin(t: Tcb, s: Segment, iss: Seq, x: Xmit)
    ensures FinOnEmpty(ListenIn(t, s, iss, x))
  {
    hide TcbOk, OutEvent, SendReset;
    ResetFin(s);
    if !s.rst && !s.isAck && s.syn {
      var child := ReadOptions(Fresh(Closed), s).(
        iss := iss, una := iss, nxt := iss,
        irsValid := true, irs := s.seq_, rcvNxt := Plus(s.seq_, 1));
      OutEventFin(child.(synOut := true), x);
    }
  }

  predicate FinFrom(t: Tcb, o: Out) {
    FinOnEmpty(o) && (t.sbuf == [] ==> o.t.sbuf == [])
  }

  lemma DataStatesFin(t: Tcb, s: Segment, x: Xmit)
    requires t.state.Established? || t.state.FinWait1? || t.state.FinWait2?
    ensures FinFrom(t, Handle(t, s, x))
  {
    hide TcbOk, AckDataOut, FinOnEmpty;
    QuietFin(t);
    AckDataOutFin(t, s, x);
    if AckDataOut(t, s, x).Go? { SameFin(AckDataOut(t, s, x).o, Handle(t, s, x)); }
  }

  lemma AckStatesFin(t: Tcb, s: Segment, x: Xmit)
    requires t.state.SynRecvd? || t.state.Closing? || t.state.CloseWait?
    ensures FinFrom(t, Handle(t, s, x))
  {
    hide TcbOk, AckOut, FinOnEmpty;
    QuietFin(t);
    AckOutFin(t, s, x);
    if AckOut(t, s, x).Go? { SameFin(AckOut(t, s, x).o, Handle(t, s, x)); }
  }

  lemma OtherStatesFin(t: Tcb, s: Segment, x: Xmit)
    requires t.state in {Free, Closed, Listen, SynSent, TimeWait, LastAck}
    ensures FinFrom(t, Handle(t, s, x))
  {
    hide TcbOk, LastAckIn, TimeWaitIn, FinOnEmpty;
    QuietFin(t);
    LastFin(t, s);
  }

  lemma HandleFin(t: Tcb, s: Segment, x: Xmit)
    ensures FinFrom(t, Handle(t, s, x))
  {
    hide Handle, FinFrom;
    match t.state
    case Established => DataStatesFin(t, s, x);
    case FinWait1 => DataStatesFin(t, s, x);
    case FinWait2 => DataStatesFin(t, s, x);
    case SynRecvd => AckStatesFin(t, s, x);
    case Closing => AckStatesFin(t, s, x);
    case CloseWait => AckStatesFin(t, s, x);
    case _ => OtherStatesFin(t, s, x);
  }

  lemma LastFin(t: Tcb, s: Segment)
    ensures FinOnEmpty(LastAckIn(t, s)) && (t.sbuf == [] ==> LastAckIn(t, s).t.sbuf == [])
    ensures FinOnEmpty(TimeWaitIn(t, s)) && (t.sbuf == [] ==> TimeWaitIn(t, s).t.sbuf == [])
  {
    hide TcbOk, DataIn;
    DataInFin(AckProcess(t, s.ack).t, s);
  }

  lemma InboundFin(t: Tcb, s: Segment, iss: Seq, x: Xmit)
    ensures FinOnEmpty(Inbound(t, s, iss, x))
    ensures t.sbuf == [] && !t.state.Listen? ==> Inbound(t, s, iss, x).t.sbuf == []
  {
    hide TcbOk, Handle, SynSentIn, ListenIn, SeqAcceptable, SendReset;
    ResetFin(s);
    SynSentFin(t, s, x);
    ListenFin(t, s, iss, x);
    HandleFin(t, s, x);
  }

  lemma ConnectFin(t: Tcb, iss: Seq, x: Xmit)
    ensures FinOnEmpty(Connect(t, iss, x))
  {
    hide TcbOk, OutEvent, FinOnEmpty;
    var t1 := t.(iss := iss, una := iss, nxt := iss, sbuf := [], rbuf := [], rcvNxt := 0, mss := TCP_MSS,
      synOut := true);
    OutEventFin(t1, x);
    SameFin(OutEvent(t1, x), Connect(t, iss, x));
  }

  lemma WriteFin(t: Tcb, bytes: seq<Byte>, x: Xmit)
    ensures FinOnEmpty(Send(t, bytes, x))
  {
    hide TcbOk, OutEvent, FinOnEmpty;
    QuietFin(t);
    OutEventFin(t.(sbuf := t.sbuf + bytes[..Taken(t, |bytes|)]), x);
  }

  lemma CloseFin(t: Tcb, x: Xmit)
    ensures FinOnEmpty(Close(t, x)) && Close(t, x).t.sbuf == t.sbuf
  {
    hide TcbOk, OutEvent, Close, FinOnEmpty;
    CloseEither(t, x);
    QuietFin(Close(t, x).t);
    OutEventFin(t.(finOut := true), x);
    if CanSend(t) { SameFin(OutEvent(t.(finOut := true), x), Close(t, x)); }
  }

  /** All that was written is acknowledged, and nothing more will be written. */
  predicate AllAcked(e: Endpoint) {
    e.started && e.closed && !e.t.synOut && e.t.sbuf == [] && 1 + |e.w| <= Una(e)
  }

  lemma AllAckedIs(e: Endpoint)
    requires Core(e) && e.closed && e.t.sbuf == []
    ensures AllAcked(e)
  {
    hide Slot;
  }

  lemma FinMeansClosed(e: Endpoint)
    requires Core(e) && e.t.finOut
    ensures e.closed
  {
    hide Slot, Receiver;
  }

  lemma ApplyFin(e: Endpoint, st: Step)
    requires Local(e) && Core(Apply(e, st).e)
    ensures forall g :: g in Apply(e, st).sent && g.fin ==> AllAcked(Apply(e, st).e)
  {
    hide Connect, Send, Recv, Close, Inbound, TimerTmo, Destroy, AllAcked, Core, StateFlags;
    var r := Apply(e, st);
    match st {
      case DoConnect(iss, x) => ConnectFin(e.t, iss, x);
      case DoSend(bytes, x) => WriteFin(e.t, bytes, x);
      case DoClose(x) => CloseFin(e.t, x);
      case DoDeliver(s, iss, x) => InboundFin(e.t, s, iss, x);
      case DoTimeout(x) => TimerFin(e.t, x);
      case _ =>
    }
    if g :| g in r.sent && g.fin {
      FinMeansClosed(r.e);
      AllAckedIs(r.e);
    }
  }

  /** Nothing is written after close, so the buffer stays empty. */
  lemma ApplyEmpty(e: Endpoint, st: Step)
    requires Local(e) && AllAcked(e) && (st.DoConnect? ==> !e.started)
    ensures Apply(e, st).e.t.sbuf == []
  {
    hide Connect, Recv, Close, Inbound, TimerTmo, Sender, Receiver, Slot, OutEvent;
    match st {
      case DoClose(x) => CloseFin(e.t, x);
      case DoDeliver(s, iss, x) => InboundFin(e.t, s, iss, x);
      case DoTimeout(x) => TimerFin(e.t, x);
      case DoRecv(len) => assert Recv(e.t, len).sbuf == e.t.sbuf by { RecvKeeps(e.t, len); }
      case _ =>
    }
  }

  lemma RecvKeeps(t: Tcb, len: nat)
    ensures Recv(t, len).sbuf == t.sbuf && Recv(t, len).finIn == t.finIn && Recv(t, len).state == t.state
  {
  }

  /** A FIN in the channel says that its sender has closed, that its SYN and every byte it wrote
      are acknowledged, and that nothing waits in its buffer. */
  predicate FinsLast(e: Endpoint, ch: set<Segment>) {
    forall g :: g in ch && g.fin ==> AllAcked(e)
  }

  lemma StepFins(e: Endpoint, st: Step, ch: set<Segment>)
    requires Local(e) && Local(Apply(e, st).e) && Grows(e, Apply(e, st).e) && FinsLast(e, ch)
    requires st.DoConnect? ==> !e.started
    ensures FinsLast(Apply(e, st).e, ch + ToSet(Apply(e, st).sent))
  {
    hide Apply, AllAcked, StateFlags, Sender, Receiver;
    var r := Apply(e, st);
    ApplyFin(e, st);
    if g :| g in ch && g.fin {
      ApplyEmpty(e, st);
      ClosedStays(e, r.e);
      AllAckedIs(r.e);
    }
  }

  lemma ClosedStays(e: Endpoint, e': Endpoint)
    requires AllAcked(e) && Grows(e, e')
    ensures e'.closed
  {
  }

  /** In every run a FIN goes out only behind bytes that are all acknowledged. */
  lemma {:induction false} FinGoesLast(vs: seq<World>, es: seq<Event>, k: nat)
    requires Run(vs, es) && k < |vs|
    ensures FinsLast(vs[k].a, vs[k].ab) && FinsLast(vs[k].b, vs[k].ba)
  {
    hide FinsLast, Local, Apply, Prefix, Channel, Grows;
    if k == 0 {
      assert FinsLast(vs[0].a, {}) && FinsLast(vs[0].b, {}) by { NoFins(vs[0]); }
    } else {
      FinGoesLast(vs, es, k - 1);
      RunInv(vs, es, k - 1);
      RunInv(vs, es, k);
      var v, e := vs[k - 1], es[k - 1];
      assert Next(v, vs[k], e.atA, e.st);
      NextKeepsInv(v, vs[k], e.atA, e.st);
      if e.atA { StepFins(v.a, e.st, v.ab); } else { StepFins(v.b, e.st, v.ba); }
    }
  }

  lemma NoFins(v: World)
    ensures FinsLast(v.a, {}) && FinsLast(v.b, {})
  {
  }

  // ---------------------------------------------------------------- CLOSE_WAIT and LAST_ACK

  predicate PeerDone(state: State) {
    state.CloseWait? || state.LastAck?
  }

  /** The ways into these two states: they are kept, or CLOSE_WAIT is entered from ESTABLISHED with
      the FIN accepted, or from SYN_RECVD by a FIN that is not. */
  predicate Enters(t: Tcb, t': Tcb, fin: bool) {
    || (PeerDone(t.state) && (t.state.CloseWait? || t'.state.LastAck?) && t'.finIn == t.finIn)
    || (t.state.Established? && t'.state.CloseWait? && t'.finIn)
    || (t.state.SynRecvd? && t'.state.CloseWait? && fin && t'.finIn == t.finIn)
  }

  lemma DataEnters(t: Tcb, s: Segment, x: Xmit)
    requires t.state.Established? || t.state.FinWait1? || t.state.FinWait2?
    requires PeerDone(Handle(t, s, x).t.state)
    ensures Enters(t, Handle(t, s, x).t, s.fin)
  {
    hide TcbOk, AckDataOut;
  }

  lemma AckEnters(t: Tcb, s: Segment, x: Xmit)
    requires t.state.SynRecvd? || t.state.Closing? || t.state.CloseWait?
    requires PeerDone(Handle(t, s, x).t.state)
    ensures Enters(t, Handle(t, s, x).t, s.fin)
  {
    hide TcbOk, AckOut;
  }

  lemma LastEnters(t: Tcb, s: Segment, x: Xmit)
    requires t.state.TimeWait? || t.state.LastAck?
    requires PeerDone(Handle(t, s, x).t.state)
    ensures Enters(t, Handle(t, s, x).t, s.fin)
  {
    hide TcbOk, AckProcess, DataIn;
  }

  lemma HandleEnters(t: Tcb, s: Segment, x: Xmit)
    requires PeerDone(Handle(t, s, x).t.state) && t.state !in {Free, Closed, Listen, SynSent}
    ensures Enters(t, Handle(t, s, x).t, s.fin)
  {
    hide Handle, Enters, PeerDone;
    match t.state
    case Established => DataEnters(t, s, x);
    case FinWait1 => DataEnters(t, s, x);
    case FinWait2 => DataEnters(t, s, x);
    case TimeWait => LastEnters(t, s, x);
    case LastAck => LastEnters(t, s, x);
    case _ => AckEnters(t, s, x);
  }

  lemma AnswerEnters(t: Tcb, s: Segment, x: Xmit)
    ensures !PeerDone(AnswerSyn(t, s, x).t.state)
  {
    hide TcbOk, OutEvent;
  }

  lemma SynSentEnters(t: Tcb, s: Segment, x: Xmit)
    requires t.state.SynSent?
    ensures !PeerDone(SynSentIn(t, s, x).t.state)
  {
    hide TcbOk, AnswerSyn, AckProcess, Plus;
    var t1 := ReadOptions(t, s).(irs := s.seq_, rcvNxt := Plus(s.seq_, 1), irsValid := true);
    AnswerEnters(if s.isAck then AckProcess(t1, s.ack).t else t1, s, x);
  }

  lemma InboundEnters(t: Tcb, s: Segment, iss: Seq, x: Xmit)
    requires PeerDone(Inbound(t, s, iss, x).t.state)
    ensures Enters(t, Inbound(t, s, iss, x).t, s.fin)
  {
    hide TcbOk, Handle, SynSentIn, SeqAcceptable, ListenIn, SendReset;
    if t.state.Listen? {
      ListenEnters(t, s, iss, x);
    } else if t.state.SynSent? {
      SynSentEnters(t, s, x);
    } else if t.state !in {Free, Closed} && SeqAcceptable(t, s) && !s.rst && !s.syn {
      HandleEnters(t, s, x);
    }
  }

  lemma ListenEnters(t: Tcb, s: Segment, iss: Seq, x: Xmit)
    requires t.state.Listen?
    ensures !PeerDone(ListenIn(t, s, iss, x).t.state)
  {
    hide TcbOk, OutEvent, Plus;
  }

  lemma SendingKeeps(t: Tcb, x: Xmit)
    ensures SendingTmo(t, x).t.state == t.state && SendingTmo(t, x).t.finIn == t.finIn
  {
    hide TcbOk, Retransmit, RetransmitFails;
    RetransmitKeeps(t, x);
  }

  lemma RexmitKeeps(t: Tcb, x: Xmit)
    ensures var r := RexmitTmo(t, x).t; r.finIn == t.finIn && (r.state == t.state || r.state.Closed?)
  {
    hide TcbOk, Retransmit, RetransmitFails;
    var c := t.(rexmitCnt := t.rexmitCnt + 1);
    if c.rexmitCnt <= c.rexmitMax { RetransmitKeeps(c, x); }
  }

  lemma RetransmitKeeps(t: Tcb, x: Xmit)
    ensures var r := Retransmit(t, x).t; r.state == t.state && r.finIn == t.finIn && r.sbuf == t.sbuf
  {
    hide Retransmit;
  }

  lemma TimerEnters(t: Tcb, x: Xmit)
    requires PeerDone(TimerTmo(t, x).t.state)
    ensures TimerTmo(t, x).t.state == t.state && TimerTmo(t, x).t.finIn == t.finIn
  {
    hide TcbOk, SendingTmo, RexmitTmo;
    SendingKeeps(t.(timer := None), x);
    RexmitKeeps(t.(timer := None), x);
  }

  lemma ApplyEnters(e: Endpoint, st: Step)
    requires PeerDone(Apply(e, st).e.t.state)
    ensures Enters(e.t, Apply(e, st).e.t, st.DoDeliver? && st.s.fin)
  {
    hide Inbound, TimerTmo, OutEvent, TcbOk;
    match st
    case DoDeliver(s, iss, x) => InboundEnters(e.t, s, iss, x);
    case DoTimeout(x) => TimerEnters(e.t, x);
    case _ =>
  }

  /** In CLOSE_WAIT and LAST_ACK the peer has closed and every byte it wrote has been accepted. If
      its FIN has not, then it is not acknowledged either. */
  predicate Ended(e: Endpoint, p: Endpoint) {
    PeerDone(e.t.state) ==> p.closed && Accepted(e) == p.w && (!e.t.finIn ==> !FinAcked(p))
  }

  /** All acknowledged is all accepted. */
  lemma AckedIsAccepted(e: Endpoint, p: Endpoint)
    requires Receiver(e) && Prefix(p, e) && e.t.irsValid && !e.t.finIn && AllAcked(p)
    ensures p.closed && Accepted(e) == p.w
  {
    hide Slot;
  }

  lemma FinNotAcked(e: Endpoint, p: Endpoint)
    requires Core(e) && Core(p) && Prefix(p, e) && e.t.irsValid && !e.t.finIn && p.started
    ensures !FinAcked(p)
  {
    hide Slot;
  }

  lemma AcceptedStays(e: Endpoint, e': Endpoint, p: Endpoint)
    requires Receiver(e) && Receiver(e') && Grows(e, e') && Prefix(p, e')
    requires e.t.irsValid && e'.t.finIn == e.t.finIn && Accepted(e) == p.w
    ensures Accepted(e') == p.w
  {
    hide Slot;
  }

  /** A step of the end itself. */
  lemma OwnStepEnded(e: Endpoint, p: Endpoint, st: Step, ch: set<Segment>)
    requires Local(e) && Local(p) && Ended(e, p) && FinsLast(p, ch)
    requires Local(Apply(e, st).e) && Prefix(p, Apply(e, st).e) && Grows(e, Apply(e, st).e)
    requires st.DoDeliver? ==> st.s in ch
    ensures Ended(Apply(e, st).e, p)
  {
    hide Apply, Sender, Receiver, AllAcked, Grows, Prefix;
    var e' := Apply(e, st).e;
    if PeerDone(e'.t.state) {
      ApplyEnters(e, st);
      StartedPeer(e', p);
      if PeerDone(e.t.state) {
        AcceptedStays(e, e', p);
      } else if e.t.state.Established? {
        PrefixFin(e', p);
      } else {
        AckedIsAccepted(e', p);
      }
      if !e'.t.finIn { FinNotAcked(e', p); }
    }
  }

  lemma PrefixFin(e: Endpoint, p: Endpoint)
    requires Prefix(p, e) && e.t.irsValid && e.t.finIn
    ensures p.closed && Accepted(e) == p.w
  {
  }

  lemma StartedPeer(e: Endpoint, p: Endpoint)
    requires Prefix(p, e) && StateFlags(e) && PeerDone(e.t.state)
    ensures p.started && e.t.irsValid
  {
  }

  /** A step of its peer. */
  lemma PeerStepEnded(e: Endpoint, p: Endpoint, p': Endpoint)
    requires Local(e) && Local(p') && Ended(e, p) && Grows(p, p') && Prefix(p', e)
    ensures Ended(e, p')
  {
    hide Sender, Receiver, Slot;
    if PeerDone(e.t.state) && !e.t.finIn { FinNotAcked(e, p'); }
  }

  /** End of stream is never reported early: in every run, an end in CLOSE_WAIT or LAST_ACK has
      accepted every byte of a peer that has closed, whether or not it has accepted the FIN. */
  lemma {:induction false} EndedInEveryRun(vs: seq<World>, es: seq<Event>, k: nat)
    requires Run(vs, es) && k < |vs|
    ensures Ended(vs[k].a, vs[k].b) && Ended(vs[k].b, vs[k].a)
  {
    hide Apply, Local, Prefix, Channel, Grows, FinsLast, Ended, Enabled, Init;
    if k == 0 {
      NotEnded(vs[0]);
    } else {
      EndedInEveryRun(vs, es, k - 1);
      FinGoesLast(vs, es, k - 1);
      RunInv(vs, es, k - 1);
      RunInv(vs, es, k);
      var v, v', e := vs[k - 1], vs[k], es[k - 1];
      assert Next(v, v', e.atA, e.st);
      NextKeepsInv(v, v', e.atA, e.st);
      Delivered(v, v', e.atA, e.st);
      if e.atA {
        OwnStepEnded(v.a, v.b, e.st, v.ba);
        PeerStepEnded(v.b, v.a, v'.a);
      } else {
        OwnStepEnded(v.b, v.a, e.st, v.ab);
        PeerStepEnded(v.a, v.b, v'.b);
      }
    }
  }

  lemma NotEnded(v: World)
    requires Init(v)
    ensures Ended(v.a, v.b) && Ended(v.b, v.a)
  {
  }

  lemma Delivered(v: World, v': World, atA: bool, st: Step)
    requires Next(v, v', atA, st)
    ensures st.DoDeliver? ==> st.s in SentBy(v, !atA)
  {
    hide Apply;
  }

  // ---------------------------------------------------------------- when CLOSE_WAIT has fin_in

  /** The end has been in CLOSE_WAIT since event `j`, and was in another state before it. */
  predicate WaitsSince(vs: seq<World>, j: nat, k: nat, atA: bool)
    requires j < k < |vs|
  {
    && !End(vs[j], atA).t.state.CloseWait?
    && forall i :: j < i <= k ==> End(vs[i], atA).t.state.CloseWait?
  }

  /** fin_in in CLOSE_WAIT tells where it was entered from: it is set exactly when that was
      ESTABLISHED, and missing exactly when that was SYN_RECVD. */
  lemma {:induction false} FinInExactly(vs: seq<World>, es: seq<Event>, j: nat, k: nat, atA: bool)
    requires Run(vs, es) && j < k < |vs| && WaitsSince(vs, j, k, atA)
    ensures var was, e := End(vs[j], atA), End(vs[k], atA);
      && (was.t.state.Established? || was.t.state.SynRecvd?)
      && (e.t.finIn <==> was.t.state.Established?)
  {
    hide Apply, Core, Prefix, Channel, Enabled;
    RunInv(vs, es, k - 1);
    var v, e := vs[k - 1], es[k - 1];
    assert Next(v, vs[k], e.atA, e.st);
    if j < k - 1 { FinInExactly(vs, es, j, k - 1, atA); }
    if e.atA == atA { ApplyEnters(End(v, atA), e.st); }
  }
}
