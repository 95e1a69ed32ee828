/** Acknowledgements and nxt: which acknowledgements can be taken for one of the future. Bytes are
    never sent beyond nxt, so data is never acknowledged beyond it; a FIN that only ever went out by
    retransmission is. */
module TcpFuture {
  import opened Common
  import opened SeqNum
  import opened TcpModel
  import opened TcpSafety
  import opened TcpTheorems
  import opened TcpSent
  import opened TcpTaken

  // ---------------------------------------------------------------- no byte is sent beyond nxt

  predicate Below(e: Endpoint, g: Segment) {
    g.rst || Slot(e.t.iss, g.seq_) + |g.data| <= Nxt(e)
  }

  predicate AllBelow(e: Endpoint, sent: seq<Segment>) {
    forall g :: g in sent ==> Below(e, g)
  }

  /** nxt does not move back, and covers the data of what is sent. */
  predicate Forward(e: Endpoint, e': Endpoint, sent: seq<Segment>) {
    e'.t.iss == e.t.iss && Nxt(e) <= Nxt(e') && AllBelow(e', sent)
  }

  lemma Still(e: Endpoint, e': Endpoint)
    requires e'.t.iss == e.t.iss && e'.t.nxt == e.t.nxt
    ensures Forward(e, e', [])
  {
  }

  lemma SameForward(e: Endpoint, e1: Endpoint, e2: Endpoint, sent: seq<Segment>)
    requires Forward(e, e1, sent) && e2.t.iss == e1.t.iss && e2.t.nxt == e1.t.nxt
    ensures Forward(e, e2, sent)
  {
  }

  lemma BuiltLength(t: Tcb, q: Seq, doff: int, dlen: int, fin: bool, x: Xmit)
    requires 0 <= dlen
    ensures var g := Build(t, q, doff, dlen, fin, x); g.seq_ == q && |g.data| <= dlen
  {
  }

  lemma TransmitBounds(e: Endpoint)
    requires Sender(e) && e.started
    ensures Nxt(e) < HALF && SendInfo(e.t, false).1 + 2 < HALF
  {
    hide Slot, Diff;
    WindowSlots(e);
  }

  lemma TransmitForward(e: Endpoint, x: Xmit)
    requires Sender(e) && e.started
    ensures Forward(e, e.(t := Transmit(e.t, x).t), Transmit(e.t, x).sent)
  {
    hide Build, Slot, Plus, Diff, Window, SendInfo;
    TransmitBounds(e);
    var (doff, dlen) := SendInfo(e.t, false);
    var fin := e.t.finOut && e.t.sbuf == [];
    var n := dlen + Bit(e.t.synOut) + Bit(fin);
    if !(dlen < 0 || n == 0 || x.NoPacket?) {
      SlotPlus(e.t.iss, e.t.nxt, n);
      BuiltLength(e.t, e.t.nxt, doff, dlen, fin, x);
    }
  }

  lemma RetransmitBounds(e: Endpoint)
    requires Sender(e) && e.started
    ensures Nxt(e) < HALF && 0 <= SendInfo(e.t, true).1 && Una(e) + SendInfo(e.t, true).1 < HALF
  {
    hide Slot;
  }

  lemma RetransmitForward(e: Endpoint, x: Xmit)
    requires Sender(e) && e.started
    ensures Forward(e, e.(t := Retransmit(e.t, x).t), Retransmit(e.t, x).sent)
  {
    hide Build, Slot, Plus, Diff, Window, SendInfo;
    RetransmitBounds(e);
    var (doff, dlen) := SendInfo(e.t, true);
    var fin := e.t.finOut && e.t.sbuf == [];
    SlotPlus(e.t.iss, e.t.una, dlen);
    DiffIsSlotDifference(e.t.iss, Plus(e.t.una, dlen), e.t.nxt);
    SlotPlus(e.t.iss, e.t.nxt, Max(Diff(Plus(e.t.una, dlen), e.t.nxt), 0));
    BuiltLength(e.t, e.t.una, doff, dlen, fin, x);
  }

  lemma OutEventForward(e: Endpoint, x: Xmit)
    requires Sender(e) && e.started
    ensures Forward(e, e.(t := OutEvent(e.t, x).t), OutEvent(e.t, x).sent)
  {
    hide Transmit, Retransmit, Slot, TcbOk, Window, AllBelow;
    var t := e.t;
    Still(e, e.(t := OutEvent(t, x).t.(nxt := t.nxt)));
    if t.ostate.Idle? || ((t.una == t.nxt || t.finOut) && MoreToSend(t)) {
      TransmitForward(e, x);
      SameForward(e, e.(t := Transmit(t, x).t), e.(t := OutEvent(t, x).t), Transmit(t, x).sent);
    } else if t.ostate.Rexmit? && !(t.una == t.nxt || t.finOut) {
      RetransmitForward(e.(t := SetOState(t, Rexmit)), x);
    }
  }

  lemma JoinForward(e: Endpoint, e1: Endpoint, e2: Endpoint, a: seq<Segment>, b: seq<Segment>)
    requires Forward(e, e1, a) && Forward(e1, e2, b)
    ensures Forward(e, e2, a + b)
  {
    hide Slot;
    forall g | g in a + b ensures Below(e2, g) {
      if g in a { assert Below(e1, g); } else { assert g in b; }
    }
  }

  lemma DataInForward(e: Endpoint, s: Segment)
    ensures Forward(e, e.(t := DataIn(e.t, s).t), DataIn(e.t, s).sent)
  {
    hide Slot, Plus;
  }

  lemma AckDataOutForward(e: Endpoint, p: Endpoint, s: Segment, x: Xmit)
    requires Bond(e, p) && Synced(e) && SegOk(p, s) && !s.rst && !s.syn
    ensures var r := AckDataOut(e.t, s, x); r.Go? ==> Forward(e, e.(t := r.o.t), r.o.sent)
  {
    hide OutEvent, DataIn, AckProcess, Window, Receiver, Prefix, Slot, TcbOk, SegOk, Grows, AllOk, Forward;
    var a := AckProcess(e.t, s.ack);
    if a.ok {
      IsAck(p, s);
      AckStep(e, p, s);
      var d := DataIn(a.t, s);
      var o := OutEvent(d.t, x);
      var e1, e2 := e.(t := a.t), e.(t := d.t);
      Still(e, e1);
      DataInForward(e1, s);
      OutEventForward(e2, x);
      JoinForward(e, e1, e2, [], d.sent);
      JoinForward(e, e2, e.(t := o.t), [] + d.sent, o.sent);
      assert [] + d.sent == d.sent;
    }
  }

  lemma AckOutForward(e: Endpoint, p: Endpoint, s: Segment, x: Xmit)
    requires Bond(e, p) && e.started && e.t.irsValid && SegOk(p, s) && !s.rst && !s.syn
    ensures var r := AckOut(e.t, s, x); r.Go? ==> Forward(e, e.(t := r.o.t), r.o.sent)
  {
    hide OutEvent, AckProcess, Window, Receiver, Prefix, Slot, TcbOk, SegOk, Grows, AllOk, Forward;
    var a := AckProcess(e.t, s.ack);
    if a.ok {
      IsAck(p, s);
      AckStep(e, p, s);
      var o := OutEvent(a.t, x);
      Still(e, e.(t := a.t));
      OutEventForward(e.(t := a.t), x);
      JoinForward(e, e.(t := a.t), e.(t := o.t), [], o.sent);
      assert [] + o.sent == o.sent;
    }
  }

  lemma DataStatesForward(e: Endpoint, p: Endpoint, s: Segment, x: Xmit)
    requires Bond(e, p) && Synced(e) && SegOk(p, s) && !s.rst && !s.syn
    requires e.t.state in {Established, FinWait1, FinWait2}
    ensures Forward(e, e.(t := Handle(e.t, s, x).t), Handle(e.t, s, x).sent)
  {
    hide AckDataOut, Core, Prefix, TcbOk, SegOk, Forward;
    Still(e, e);
    AckDataOutForward(e, p, s, x);
    var r := AckDataOut(e.t, s, x);
    if r.Go? { SameForward(e, e.(t := r.o.t), e.(t := Handle(e.t, s, x).t), r.o.sent); }
  }

  lemma AckStatesForward(e: Endpoint, p: Endpoint, s: Segment, x: Xmit)
    requires Bond(e, p) && e.started && e.t.irsValid && SegOk(p, s) && !s.rst && !s.syn
    requires e.t.state in {SynRecvd, Closing, CloseWait}
    ensures Forward(e, e.(t := Handle(e.t, s, x).t), Handle(e.t, s, x).sent)
  {
    hide AckOut, Core, Prefix, TcbOk, SegOk, Forward;
    Still(e, e);
    AckOutForward(e, p, s, x);
    var r := AckOut(e.t, s, x);
    if r.Go? { SameForward(e, e.(t := r.o.t), e.(t := Handle(e.t, s, x).t), r.o.sent); }
  }

  lemma LastStatesForward(e: Endpoint, s: Segment, x: Xmit)
    requires e.t.state in {TimeWait, LastAck}
    ensures Forward(e, e.(t := Handle(e.t, s, x).t), Handle(e.t, s, x).sent)
  {
    hide AckProcess, DataIn, TcbOk, Slot;
    DataInForward(e.(t := AckProcess(e.t, s.ack).t), s);
  }

  lemma SynSentForward(e: Endpoint, p: Endpoint, s: Segment, x: Xmit)
    requires Bond(e, p) && StateFlags(e) && SegOk(p, s) && e.t.state.SynSent?
    ensures Forward(e, e.(t := SynSentIn(e.t, s, x).t), SynSentIn(e.t, s, x).sent)
  {
    hide AnswerSyn, AckProcess, SendReset, TcbOk, Plus, Slot, Prefix, SegOk, Receiver;
    ResetBelow(e, s);
    if !s.rst && s.syn && (s.isAck ==> s.ack != e.t.iss && s.ack == e.t.nxt) {
      var t1 := ReadOptions(e.t, s).(irs := s.seq_, rcvNxt := Plus(s.seq_, 1), irsValid := true);
      var t2 := if s.isAck then AckProcess(t1, s.ack).t else t1;
      if s.isAck { SynAckWindow(e.(t := t1), s); }
      AnswerForward(e.(t := t2), s, x);
    }
  }

  lemma ResetBelow(e: Endpoint, s: Segment)
    ensures AllBelow(e, SendReset(s))
  {
  }

  lemma SynAckWindow(e: Endpoint, s: Segment)
    requires Sender(e) && e.started && e.t.synOut && s.ack == e.t.nxt && s.ack != e.t.iss
    ensures Sender(e.(t := AckProcess(e.t, s.ack).t)) && AckProcess(e.t, s.ack).t.una != e.t.iss
  {
    hide AckProcess, Plus;
    SlotSelf(e.t.iss);
    if Slot(e.t.iss, s.ack) == 0 { SlotInjective(e.t.iss, s.ack, e.t.iss); }
    AckWindow(e, s.ack);
    AckInSlots(e.t, s.ack, e.t.iss);
  }

  lemma AnswerForward(e: Endpoint, s: Segment, x: Xmit)
    requires Sender(e) && e.started && (e.t.una == e.t.iss ==> e.t.synOut)
    ensures Forward(e, e.(t := AnswerSyn(e.t, s, x).t), AnswerSyn(e.t, s, x).sent)
  {
    hide OutEvent, TcbOk, Slot, Window, Forward;
    if e.t.una != e.t.iss {
      var o, acks := OutEvent(e.t, x), SendAck(e.t, s);
      OutEventForward(e, x);
      PureBelow(e, s);
      JoinForward(e, e, e.(t := o.t), acks, o.sent);
      SameForward(e, e.(t := o.t), e.(t := AnswerSyn(e.t, s, x).t), acks + o.sent);
    } else {
      var t := e.t.(state := SynRecvd);
      assert t.(synOut := true) == t;
      Still(e, e.(t := t));
      OutEventForward(e.(t := t), x);
      JoinForward(e, e.(t := t), e.(t := OutEvent(t, x).t), [], OutEvent(t, x).sent);
      assert [] + OutEvent(t, x).sent == OutEvent(t, x).sent;
    }
  }

  lemma PureBelow(e: Endpoint, s: Segment)
    ensures Forward(e, e, SendAck(e.t, s))
  {
  }

  lemma ListenForward(e: Endpoint, s: Segment, iss: Seq, x: Xmit)
    ensures AllBelow(e.(t := ListenIn(e.t, s, iss, x).t), ListenIn(e.t, s, iss, x).sent)
  {
    hide TcbOk, Slot, SendReset;
    var r := e.(t := ListenIn(e.t, s, iss, x).t);
    ResetBelow(r, s);
    SlotOf(iss);
  }

  lemma SlotOf(iss: Seq)
    ensures Slot(iss, iss) == 0 && Slot(iss, Plus(iss, 1)) == 1 && Diff(iss, iss) == 0
  {
  }

  /** One event of one end; a connection that this event starts has nothing behind it. */
  predicate StepForward(e: Endpoint, e': Endpoint, sent: seq<Segment>) {
    AllBelow(e', sent) && (e.started ==> e'.t.iss == e.t.iss && Nxt(e) <= Nxt(e'))
  }

  lemma InboundForward(e: Endpoint, p: Endpoint, s: Segment, iss: Seq, x: Xmit)
    requires Bond(e, p) && StateFlags(e) && SegOk(p, s)
    ensures var r := Apply(e, DoDeliver(s, iss, x)); StepForward(e, r.e, r.sent)
  {
    hide Handle, SeqAcceptable, SynSentIn, ListenIn, SendReset, TcbOk, Core, Prefix, SegOk, Slot, AllBelow;
    var r := Apply(e, DoDeliver(s, iss, x));
    var t := e.t;
    ResetBelow(e, s);
    ResetBelow(e.(t := Abort(t)), s);
    Still(e, e);
    Still(e, e.(t := Abort(t)));
    if t.state.Listen? {
      ListenForward(e, s, iss, x);
      AllSame(e.(t := r.e.t), r.e, r.sent);
    } else if t.state.SynSent? {
      SynSentForward(e, p, s, x);
    } else if t.state in {Free, Closed} || !SeqAcceptable(t, s) || s.rst || s.syn {
    } else if t.state in {Established, FinWait1, FinWait2} {
      DataStatesForward(e, p, s, x);
    } else if t.state in {SynRecvd, Closing, CloseWait} {
      AckStatesForward(e, p, s, x);
    } else {
      LastStatesForward(e, s, x);
    }
  }

  lemma AllSame(e: Endpoint, e': Endpoint, sent: seq<Segment>)
    requires AllBelow(e, sent) && e'.t == e.t
    ensures AllBelow(e', sent)
  {
  }

  lemma TimerForward(e: Endpoint, x: Xmit)
    requires Sender(e) && e.started
    ensures var r := Apply(e, DoTimeout(x)); Forward(e, r.e, r.sent)
  {
    hide SendingTmo, RexmitTmo, TcbOk, Window, Slot, AllBelow;
    var t := e.t.(timer := None);
    Still(e, e.(t := t));
    SendingForward(e.(t := t), x);
    RexmitForward(e.(t := t), x);
  }

  lemma SendingForward(e: Endpoint, x: Xmit)
    requires Sender(e) && e.started
    ensures Forward(e, e.(t := SendingTmo(e.t, x).t), SendingTmo(e.t, x).sent)
  {
    hide Retransmit, RetransmitFails, TcbOk, Window, Forward;
    RetransmitForward(e, x);
    SameForward(e, e.(t := Retransmit(e.t, x).t), e.(t := SendingTmo(e.t, x).t), Retransmit(e.t, x).sent);
  }

  lemma RexmitForward(e: Endpoint, x: Xmit)
    requires Sender(e) && e.started
    ensures Forward(e, e.(t := RexmitTmo(e.t, x).t), RexmitTmo(e.t, x).sent)
  {
    hide Retransmit, RexmitTmo, TcbOk, Window, Slot, AllBelow;
    RexmitEither(e.t, x);
    var c := e.t.(rexmitCnt := e.t.rexmitCnt + 1);
    if c.rexmitCnt > c.rexmitMax {
      Still(e, e.(t := Abort(c)));
    } else {
      var e1, o := e.(t := c), Retransmit(c, x);
      RetransmitForward(e1, x);
      SameEnds(e, e1, e.(t := o.t), e.(t := RexmitTmo(e.t, x).t), o.sent);
    }
  }

  lemma SameEnds(e: Endpoint, e1: Endpoint, e2: Endpoint, e3: Endpoint, sent: seq<Segment>)
    requires Forward(e1, e2, sent) && e.t.iss == e1.t.iss && e.t.nxt == e1.t.nxt
    requires e3.t.iss == e2.t.iss && e3.t.nxt == e2.t.nxt
    ensures Forward(e, e3, sent)
  {
  }

  lemma SendForward(e: Endpoint, bytes: seq<Byte>, x: Xmit)
    requires Local(e) && e.started && |e.w| + |bytes| + 2 < HALF
    ensures var r := Apply(e, DoSend(bytes, x)); Forward(e, r.e, r.sent)
  {
    hide Slot, TcbOk, OutEvent, AllBelow;
    var n := Taken(e.t, |bytes|);
    Still(e, Apply(e, DoSend(bytes, x)).e.(t := e.t));
    if n > 0 {
      var e1 := e.(t := e.t.(sbuf := e.t.sbuf + bytes[..n]), w := e.w + bytes[..n]);
      SuffixGrow(e.t.sbuf, e.w, bytes[..n]);
      OutEventForward(e1, x);
    }
  }

  lemma CloseForward(e: Endpoint, x: Xmit)
    requires Local(e) && e.started
    ensures var r := Apply(e, DoClose(x)); Forward(e, r.e, r.sent)
  {
    hide Slot, TcbOk, OutEvent, Close, AllBelow, Receiver;
    CloseEither(e.t, x);
    var r := Apply(e, DoClose(x));
    if CanSend(e.t) {
      var e1 := e.(t := e.t.(finOut := true), closed := true);
      OutEventForward(e1, x);
      SameForward(e1, e1.(t := OutEvent(e1.t, x).t), r.e, r.sent);
    } else {
      Still(e, r.e);
    }
  }

  lemma ConnectForward(e: Endpoint, iss: Seq, x: Xmit)
    ensures var r := Apply(e, DoConnect(iss, x)); AllBelow(r.e, r.sent)
  {
    hide TcbOk, Slot, Retransmit;
    SlotOf(iss);
  }

  lemma NotStartedSends(e: Endpoint, st: Step)
    requires Local(e) && !e.started && !st.DoConnect? && !st.DoDeliver?
    ensures Apply(e, st).sent == []
  {
    hide Inbound, Connect, Slot, Receiver;
  }

  lemma ApplyForward(e: Endpoint, p: Endpoint, inbox: set<Segment>, st: Step)
    requires Bond(e, p) && StateFlags(e) && Channel(p, inbox) && Enabled(e, inbox, st)
    ensures StepForward(e, Apply(e, st).e, Apply(e, st).sent)
  {
    hide Connect, Send, Recv, Close, Inbound, TimerTmo, Destroy;
    hide Slot, TcbOk, SegOk, Prefix, Receiver, StateFlags, Window;
    match st {
      case DoConnect(iss, x) => ConnectForward(e, iss, x);
      case DoDeliver(s, iss, x) => InboundForward(e, p, s, iss, x);
      case DoSend(bytes, x) => if e.started { SendForward(e, bytes, x); } else { NotStartedSends(e, st); }
      case DoClose(x) => if e.started { CloseForward(e, x); } else { NotStartedSends(e, st); }
      case DoTimeout(x) => if e.started { TimerForward(e, x); } else { NotStartedSends(e, st); }
      case _ => QuietNumbers(e, st);
    }
  }

  // ---------------------------------------------------------------- nothing accepted is beyond nxt

  predicate ChannelBelow(e: Endpoint, ch: set<Segment>) {
    forall g :: g in ch ==> Below(e, g)
  }

  /** The peer has accepted no byte beyond nxt. */
  predicate AcceptedBelow(e: Endpoint, p: Endpoint) {
    e.started && !e.t.synOut ==> 1 + |Accepted(p)| <= Nxt(e)
  }

  /** What a segment adds to the receive buffer. */
  predicate Appends(t: Tcb, t': Tcb, s: Segment) {
    t'.rbuf == t.rbuf || (s.seq_ == t.rcvNxt && |t'.rbuf| <= |t.rbuf| + |s.data|)
  }

  lemma DataInAppends(t: Tcb, s: Segment)
    ensures Appends(t, DataIn(t, s).t, s)
  {
    var size := if s.data != [] && s.seq_ == t.rcvNxt then Min(|s.data|, RcvWindow(t)) else 0;
    if size == 0 { assert t.rbuf + s.data[..size] == t.rbuf; }
  }

  lemma AckDataOutAppends(t: Tcb, s: Segment, x: Xmit)
    ensures AckDataOut(t, s, x).Go? ==> Appends(t, AckDataOut(t, s, x).o.t, s)
  {
    hide OutEvent, DataIn, AckProcess, TcbOk;
    DataInAppends(AckProcess(t, s.ack).t, s);
  }

  lemma HandleAppends(t: Tcb, s: Segment, x: Xmit)
    ensures Appends(t, Handle(t, s, x).t, s)
  {
    hide AckDataOut, AckOut, AckProcess, DataIn, TcbOk;
    if t.state in {Established, FinWait1, FinWait2} {
      AckDataOutAppends(t, s, x);
    } else if t.state.TimeWait? {
      DataInAppends(AckProcess(t, s.ack).t, s);
    } else {
      NothingTook(t, s, x);
    }
  }

  lemma InboundAppends(t: Tcb, s: Segment, iss: Seq, x: Xmit)
    requires !t.state.Listen?
    ensures var t' := Inbound(t, s, iss, x).t;
      t'.rbuf == t.rbuf ||
      (!s.rst && !s.syn && Appends(t, t', s) && t.state in {Established, FinWait1, FinWait2, TimeWait})
  {
    hide Handle, SynSentIn, ListenIn, SeqAcceptable, TcbOk, SendReset;
    SynSentTook(t, s, x);
    HandleAppends(t, s, x);
    if t.state !in {Established, FinWait1, FinWait2, TimeWait} { NothingTook(t, s, x); }
  }

  lemma SendKeepsRbuf(t: Tcb, bytes: seq<Byte>, x: Xmit)
    ensures Send(t, bytes, x).t.rbuf == t.rbuf
  {
    hide TcbOk, OutEvent;
    EventKeepsRbuf(t.(sbuf := t.sbuf + bytes[..Taken(t, |bytes|)]), x);
  }

  lemma CloseKeepsRbuf(t: Tcb, x: Xmit)
    ensures Close(t, x).t.rbuf == t.rbuf
  {
    hide TcbOk, OutEvent, Close;
    CloseEither(t, x);
    EventKeepsRbuf(t.(finOut := true), x);
  }

  lemma EventKeepsRbuf(t: Tcb, x: Xmit)
    ensures OutEvent(t, x).t.rbuf == t.rbuf && Retransmit(t, x).t.rbuf == t.rbuf
  {
    hide TcbOk, OutEvent, Retransmit;
  }

  lemma TimerKeepsRbuf(t: Tcb, x: Xmit)
    ensures TimerTmo(t, x).t.rbuf == t.rbuf
  {
    hide TcbOk, OutEvent, Retransmit, RetransmitFails, SendingTmo, RexmitTmo;
    var c := t.(timer := None);
    SendingKeepsRbuf(c, x);
    RexmitKeepsRbuf(c, x);
  }

  lemma SendingKeepsRbuf(t: Tcb, x: Xmit)
    ensures SendingTmo(t, x).t.rbuf == t.rbuf
  {
    hide TcbOk, OutEvent, Retransmit, RetransmitFails;
    EventKeepsRbuf(t, x);
  }

  lemma RexmitKeepsRbuf(t: Tcb, x: Xmit)
    ensures RexmitTmo(t, x).t.rbuf == t.rbuf
  {
    hide TcbOk, OutEvent, Retransmit, RexmitTmo;
    RexmitEither(t, x);
    EventKeepsRbuf(t.(rexmitCnt := t.rexmitCnt + 1), x);
  }

  lemma ReadsSame(e: Endpoint, len: nat)
    ensures Accepted(Apply(e, DoRecv(len)).e) == Accepted(e)
  {
  }

  /** A step of the peer. */
  lemma PeerAccepts(e: Endpoint, p: Endpoint, ch: set<Segment>, st: Step)
    requires Bond(p, e) && Local(p) && Enabled(p, ch, st)
    requires Channel(e, ch) && ChannelBelow(e, ch) && AcceptedBelow(e, p)
    requires Bond(Apply(p, st).e, e)
    ensures AcceptedBelow(e, Apply(p, st).e)
  {
    hide Inbound, Send, Close, TimerTmo, Connect, Recv, Destroy, Sender, Window, StateFlags, Slot, SegOk;
    var p' := Apply(p, st).e;
    match st {
      case DoDeliver(s, iss, x) =>
        if p.t.state.Listen? {
          ListenAccepts(p, s, iss, x);
        } else {
          InboundAppends(p.t, s, iss, x);
          if p'.t.rbuf != p.t.rbuf {
            ReceivesSynced(p);
            SegmentBound(e, p, s);
          }
        }
      case DoRecv(len) => ReadsSame(p, len);
      case DoSend(bytes, x) => SendKeepsRbuf(p.t, bytes, x);
      case DoClose(x) => CloseKeepsRbuf(p.t, x);
      case DoTimeout(x) => TimerKeepsRbuf(p.t, x);
      case DoConnect(iss, x) => ConnectAccepts(p, iss, x);
      case _ => QuietRbuf(p, st);
    }
  }

  lemma SegmentBound(e: Endpoint, p: Endpoint, s: Segment)
    requires Receiver(p) && Prefix(e, p) && p.t.irsValid && Below(e, s) && !s.rst && s.seq_ == p.t.rcvNxt
    ensures 1 + |Accepted(p)| + |s.data| <= Nxt(e)
  {
    hide Slot;
  }

  lemma ReceivesSynced(p: Endpoint)
    requires StateFlags(p) && p.t.state in {Established, FinWait1, FinWait2, TimeWait}
    ensures p.t.irsValid
  {
  }

  lemma ListenAccepts(p: Endpoint, s: Segment, iss: Seq, x: Xmit)
    requires Local(p) && p.t.state.Listen?
    ensures |Accepted(Apply(p, DoDeliver(s, iss, x)).e)| <= |Accepted(p)|
  {
    hide OutEvent, TcbOk, Plus, Slot, Sender, SendReset;
  }

  lemma ConnectAccepts(p: Endpoint, iss: Seq, x: Xmit)
    ensures |Accepted(Apply(p, DoConnect(iss, x)).e)| <= |Accepted(p)|
  {
    hide OutEvent, TcbOk;
  }

  lemma QuietRbuf(p: Endpoint, st: Step)
    requires st.DoMsl? || st.DoDestroy?
    ensures Accepted(Apply(p, st).e) == Accepted(p)
  {
  }

  /** Nothing is written while the SYN is out. */
  lemma NothingWrittenYet(e: Endpoint, st: Step)
    requires Local(e) && (!e.started || e.t.synOut)
    ensures Apply(e, st).e.w == []
  {
    hide Connect, Send, Recv, Close, Inbound, TimerTmo, Destroy, Receiver, Slot;
    if st.DoSend? { assert e.w + st.bytes[..0] == e.w; }
  }

  /** A step of the end itself. */
  lemma OwnStepBelow(e: Endpoint, p: Endpoint, st: Step, ch: set<Segment>)
    requires Local(e) && Bond(Apply(e, st).e, p) && AcceptedBelow(e, p) && ChannelBelow(e, ch)
    requires StepForward(e, Apply(e, st).e, Apply(e, st).sent) && Channel(e, ch)
    ensures AcceptedBelow(Apply(e, st).e, p)
    ensures ChannelBelow(Apply(e, st).e, ch + ToSet(Apply(e, st).sent))
  {
    hide Apply, Slot, Receiver, StateFlags;
    var e' := Apply(e, st).e;
    if !e.started || e.t.synOut { NothingWrittenYet(e, st); }
    if e'.started && !e'.t.synOut && e'.w == [] { AcceptedNothing(e', p); }
    forall g | g in ch ensures Below(e', g) {
      assert Below(e, g) && SegOk(e, g);
    }
  }

  lemma AcceptedNothing(e: Endpoint, p: Endpoint)
    requires Bond(e, p) && e.started && !e.t.synOut && e.w == []
    ensures 1 + |Accepted(p)| <= Nxt(e)
  {
    hide Slot;
  }

  /** All of it together, for both directions. */
  predicate NothingBeyond(v: World) {
    && ChannelBelow(v.a, v.ab) && ChannelBelow(v.b, v.ba)
    && AcceptedBelow(v.a, v.b) && AcceptedBelow(v.b, v.a)
  }

  lemma {:induction false} NothingBeyondNxt(vs: seq<World>, es: seq<Event>, k: nat)
    requires Run(vs, es) && k < |vs|
    ensures NothingBeyond(vs[k])
  {
    hide Apply, Core, Prefix, Grows, StateFlags, SegOk, Enabled, Init, ChannelBelow, AcceptedBelow, StepForward;
    if k == 0 {
      NothingAtFirst(vs[0]);
    } else {
      NothingBeyondNxt(vs, es, k - 1);
      RunInv(vs, es, k - 1);
      RunInv(vs, es, k);
      var v, v', e := vs[k - 1], vs[k], es[k - 1];
      assert Next(v, v', e.atA, e.st);
      if e.atA {
        ApplyForward(v.a, v.b, v.ba, e.st);
        OwnStepBelow(v.a, v.b, e.st, v.ab);
        PeerAccepts(v.b, v.a, v.ba, e.st);
      } else {
        ApplyForward(v.b, v.a, v.ab, e.st);
        OwnStepBelow(v.b, v.a, e.st, v.ba);
        PeerAccepts(v.a, v.b, v.ab, e.st);
      }
    }
  }

  lemma NothingAtFirst(v: World)
    requires Init(v)
    ensures NothingBeyond(v)
  {
  }

  // ---------------------------------------------------------------- acknowledgements of the future

  /** In every run, no acknowledgement is of the future but one of a FIN: beyond nxt by at most that
      one slot, and not at all once no FIN waits for its acknowledgement. */
  lemma AcksBelow(vs: seq<World>, es: seq<Event>, k: nat, g: Segment, atA: bool)
    requires Run(vs, es) && k < |vs| && g in SentBy(vs[k], !atA) && !g.rst && g.isAck
    requires End(vs[k], atA).started && !End(vs[k], atA).t.synOut
    ensures var e := End(vs[k], atA); Slot(e.t.iss, g.ack) <= Nxt(e) + Bit(e.t.finOut)
    ensures !End(vs[k], atA).t.finOut ==> NotFuture(End(vs[k], atA), g)
  {
    hide Next, Slot, StateFlags;
    RunInv(vs, es, k);
    NothingBeyondNxt(vs, es, k);
    var e, p := End(vs[k], atA), End(vs[k], !atA);
    assert SegOk(p, g);
    AckBound(e, p, g);
  }

  lemma AckBound(e: Endpoint, p: Endpoint, g: Segment)
    requires Bond(e, p) && SegOk(p, g) && !g.rst && g.isAck && e.started && !e.t.synOut && AcceptedBelow(e, p)
    ensures Slot(e.t.iss, g.ack) <= Nxt(e) + Bit(e.t.finOut)
  {
    hide Slot;
  }

  /** When the acknowledgement of the FIN is taken: exactly when nxt counts the FIN. */
  lemma FinAckTaken(e: Endpoint, ack: Seq)
    requires Core(e) && Synced(e) && e.closed && e.t.finOut && Slot(e.t.iss, ack) == |e.w| + 2
    ensures AckProcess(e.t, ack).ok <==> Nxt(e) == |e.w| + 2
  {
    hide AckProcess, Plus, Diff;
    AckInSlots(e.t, ack, e.t.iss);
  }

  // ---------------------------------------------------------------- LAST_ACK with the FIN uncounted

  /** In LAST_ACK with every byte acknowledged, and a FIN that nxt does not count. */
  predicate Stuck(t: Tcb) {
    t.state.LastAck? && t.finOut && !t.synOut && t.sbuf == [] && t.una == t.nxt && !t.msl
  }

  /** Neither the timer nor a segment moves nxt over the FIN any more. */
  lemma StuckTimer(t: Tcb, x: Xmit)
    requires Stuck(t)
    ensures var t' := TimerTmo(t, x).t; Stuck(t') || t'.state.Closed?
  {
    hide TcbOk, Retransmit, RetransmitFails;
    StuckRetransmit(t.(timer := None), x);
    StuckRetransmit(t.(timer := None, rexmitCnt := t.rexmitCnt + 1), x);
  }

  lemma StuckRetransmit(t: Tcb, x: Xmit)
    requires Stuck(t)
    ensures Retransmit(t, x).t == t
  {
    hide TcbOk, Build, Plus, Diff;
    SameNumberAfter(t.una);
  }

  lemma SameNumberAfter(x: Seq)
    ensures Plus(x, 0) == x && Diff(x, x) == 0
  {
  }

  lemma StuckHandle(e: Endpoint, p: Endpoint, s: Segment, x: Xmit)
    requires Bond(e, p) && Synced(e) && Stuck(e.t) && SegOk(p, s) && !s.rst && !s.syn
    ensures Stuck(Handle(e.t, s, x).t)
  {
    hide AckProcess, Plus, Diff, TcbOk;
    AckInSlots(e.t, s.ack, e.t.iss);
  }

  /** In every run such an end stays there until a RST or SYN, its own retransmission limit or the
      application's destroy takes it out: no acknowledgement does. */
  lemma StuckStays(vs: seq<World>, es: seq<Event>, k: nat)
    requires Run(vs, es) && k < |es| && Stuck(End(vs[k], es[k].atA).t)
    ensures var t' := End(vs[k + 1], es[k].atA).t;
      || Stuck(t')
      || (t'.state.Closed? && (es[k].st.DoTimeout? || (es[k].st.DoDeliver? && (es[k].st.s.rst || es[k].st.s.syn))))
      || (t'.state.Free? && es[k].st.DoDestroy?)
  {
    hide Core, Prefix, SegOk, TimerTmo, Handle, SeqAcceptable, TcbOk;
    var ev := es[k];
    RunInv(vs, es, k);
    assert Next(vs[k], vs[k + 1], ev.atA, ev.st);
    var e, p := End(vs[k], ev.atA), End(vs[k], !ev.atA);
    if ev.st.DoTimeout? { StuckTimer(e.t, ev.st.x); }
    if ev.st.DoDeliver? && !ev.st.s.rst && !ev.st.s.syn { StuckHandle(e, p, ev.st.s, ev.st.x); }
  }

  /** In every run, data at the next slot is taken in ESTABLISHED and FIN_WAIT_2, whatever the
      acknowledgement that comes with it. */
  lemma AlwaysTaken(vs: seq<World>, es: seq<Event>, k: nat)
    requires Run(vs, es) && k < |es| && es[k].st.DoDeliver? && !es[k].st.s.rst && !es[k].st.s.syn
    requires var e := End(vs[k], es[k].atA);
      e.t.state in {Established, FinWait2} && Slot(e.t.irs, es[k].st.s.seq_) == 1 + |Accepted(e)|
    ensures TakesAll(End(vs[k], es[k].atA), End(vs[k + 1], es[k].atA), es[k].st.s)
  {
    hide Apply, Core, Prefix, SegOk, NotFuture, TakesAll, Slot;
    var ev := es[k];
    RunInv(vs, es, k);
    assert Next(vs[k], vs[k + 1], ev.atA, ev.st);
    FinNotOut(End(vs[k], ev.atA));
    IsAck(End(vs[k], !ev.atA), ev.st.s);
    AcksBelow(vs, es, k, ev.st.s, ev.atA);
    TakesInEveryRun(vs, es, k);
  }

  lemma FinNotOut(e: Endpoint)
    requires Local(e) && e.t.state in {Established, FinWait2}
    ensures !e.t.finOut && e.started && !e.t.synOut
  {
    hide Slot;
  }
}
