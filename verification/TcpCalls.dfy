/** What each event does for the application and with the timers: how much a write takes and a read
    gives, what close and destroy leave behind, which segments are reset and what a reset does, and
    that no segment is larger than the maximum segment size. */
module TcpCalls {
  import opened Common
  import opened SeqNum
  import opened TcpModel
  import opened TcpSafety
  import opened TcpTheorems
  import opened TcpSent
  import opened TcpTaken
  import opened TcpFuture
  import opened TcpExits
  import opened TcpExchange

  // ---------------------------------------------------------------- the calls

  predicate Receives(s: State) {
    s in {Established, FinWait1, FinWait2, Closing, CloseWait}
  }

  predicate Released(t: Tcb) {
    t.state.Free? && t.timer.None? && !t.msl
  }

  /** The bytes written but not yet acknowledged. */
  function Unacked(e: Endpoint): int {
    |e.w| - |Acked(e)|
  }

  /** A write takes as much as keeps the unacknowledged bytes within the send buffer, a read gives the
      oldest bytes that were accepted and not yet read, and close and destroy act by the state. */
  predicate CallIs(e: Endpoint, st: Step, e': Endpoint, sent: seq<Segment>) {
    match st
    case DoSend(bytes, _) =>
      if e.t.state in {Established, CloseWait} then
        && 0 <= TCP_SBUF_SIZE - Unacked(e)
        && e' == e.(t := e'.t, w := e.w + bytes[..Min(|bytes|, TCP_SBUF_SIZE - Unacked(e))])
        && e'.t.state == e.t.state && Acked(e') == Acked(e)
      else e' == e && sent == []
    case DoRecv(len) =>
      && sent == [] && Accepted(e') == Accepted(e) && e' == e.(t := e.t.(rbuf := e'.t.rbuf), rd := e'.rd)
      && e'.rd == (if Receives(e.t.state) then Accepted(e)[..Min(|e.rd| + len, |Accepted(e)|)] else e.rd)
    case DoClose(_) =>
      if e.t.state in {Established, CloseWait} then
        && e'.t.state == (if e.t.state.Established? then FinWait1 else LastAck)
        && e' == e.(t := e'.t, closed := true) && e'.t.finOut && e'.t.sbuf == e.t.sbuf
      else if e.t.state in {Closed, SynSent, SynRecvd} then e' == e.(t := e'.t) && Released(e'.t) && sent == []
      else e' == e && sent == []
    case DoDestroy =>
      sent == [] && if e.t.state.TimeWait? then e' == e else e' == e.(t := e'.t) && Released(e'.t)
    case DoMsl => sent == [] && e' == e.(t := e'.t) && Released(e'.t)
    case _ => true
  }

  lemma SendCall(e: Endpoint, bytes: seq<Byte>, x: Xmit)
    requires Local(e) && TcbOk(e.t)
    ensures var r := Apply(e, DoSend(bytes, x)); CallIs(e, DoSend(bytes, x), r.e, r.sent)
  {
    hide Sender, Receiver, StateFlags, Send, TcbOk;
    UnackedIs(e);
    SendRoom(e.t, bytes, x);
    if e.t.state in {Established, CloseWait} {
      var r := Apply(e, DoSend(bytes, x)).e;
      assert r.w[..|Acked(e)|] == Acked(e);
    } else {
      assert e.w + bytes[..0] == e.w;
    }
  }

  lemma UnackedIs(e: Endpoint)
    requires Sender(e)
    ensures Unacked(e) == |e.t.sbuf| <= |e.w| && |Acked(e)| == |e.w| - |e.t.sbuf|
  {
    hide Slot;
  }

  lemma SendRoom(t: Tcb, bytes: seq<Byte>, x: Xmit)
    requires TcbOk(t)
    ensures var o := Send(t, bytes, x);
      if t.state in {Established, CloseWait} then
        && 0 <= TCP_SBUF_SIZE - |t.sbuf| && Taken(t, |bytes|) == Min(|bytes|, TCP_SBUF_SIZE - |t.sbuf|)
        && o.t.state == t.state && |o.t.sbuf| == |t.sbuf| + Taken(t, |bytes|)
      else o == Out(t, []) && Taken(t, |bytes|) == 0
  {
    hide OutEvent;
  }

  lemma RecvCall(e: Endpoint, len: nat)
    ensures var r := Apply(e, DoRecv(len)); CallIs(e, DoRecv(len), r.e, r.sent)
  {
    var n := Given(e.t, len);
    assert Accepted(e)[..|e.rd| + n] == e.rd + e.t.rbuf[..n];
    assert e.t.rbuf[..n] + e.t.rbuf[n..] == e.t.rbuf;
    assert e.rd + e.t.rbuf[..0] == e.rd;
  }

  lemma CloseCall(e: Endpoint, x: Xmit)
    requires TimersOk(e.t)
    ensures var r := Apply(e, DoClose(x)); CallIs(e, DoClose(x), r.e, r.sent)
  {
    hide Close;
    if CanSend(e.t) { CloseSends(e.t, x); } else { CloseReleases(e.t, x); }
  }

  lemma CloseSends(t: Tcb, x: Xmit)
    requires CanSend(t)
    ensures var t' := Close(t, x).t;
      t'.state == (if t.state.Established? then FinWait1 else LastAck) && t'.finOut && t'.sbuf == t.sbuf
  {
    hide OutEvent, TcbOk;
  }

  lemma CloseReleases(t: Tcb, x: Xmit)
    requires !CanSend(t) && TimersOk(t)
    ensures var o := Close(t, x);
      if t.state in {Closed, SynSent, SynRecvd} then Released(o.t) && o.sent == [] else o == Out(t, [])
  {
    hide TcbOk;
  }

  // ---------------------------------------------------------------- timers and segment sizes

  /** The 2MSL timer runs in TIME_WAIT and nowhere else, and no retransmission timer runs there, in
      CLOSED or in LISTEN. */
  predicate TimersOk(t: Tcb) {
    (t.msl <==> t.state.TimeWait?) && (t.state in {Free, Closed, Listen, TimeWait} ==> t.timer.None?)
  }

  predicate Modest(g: Segment) {
    |g.data| <= TCP_MSS && (g.mssOpt.Some? ==> g.mssOpt.value == TCP_MSS)
  }

  predicate AllModest(sent: seq<Segment>) {
    forall g :: g in sent ==> Modest(g)
  }

  predicate Tidy(o: Out) {
    o.t.mss == TCP_MSS && TimersOk(o.t) && AllModest(o.sent)
  }

  lemma TransmitModest(t: Tcb, x: Xmit)
    requires t.mss == TCP_MSS
    ensures AllModest(Transmit(t, x).sent) && AllModest(Retransmit(t, x).sent)
  {
    hide Diff, Plus;
  }

  lemma OutEventModest(t: Tcb, x: Xmit)
    requires t.mss == TCP_MSS
    ensures AllModest(OutEvent(t, x).sent)
  {
    hide TcbOk, Transmit, Retransmit;
    TransmitModest(t, x);
    TransmitModest(SetOState(t, Rexmit), x);
  }

  lemma DataInModest(t: Tcb, s: Segment)
    ensures AllModest(DataIn(t, s).sent)
  {
  }

  lemma AckDataOutTidy(t: Tcb, s: Segment, x: Xmit)
    requires t.mss == TCP_MSS
    ensures var r := AckDataOut(t, s, x); r.Go? ==> r.o.t.mss == TCP_MSS && r.o.t.msl == t.msl && AllModest(r.o.sent)
  {
    hide TcbOk, OutEvent, DataIn, AckProcess;
    DataInModest(AckProcess(t, s.ack).t, s);
    OutEventModest(DataIn(AckProcess(t, s.ack).t, s).t, x);
  }

  lemma AckOutTidy(t: Tcb, s: Segment, x: Xmit)
    requires t.mss == TCP_MSS
    ensures var r := AckOut(t, s, x); r.Go? ==> r.o.t.mss == TCP_MSS && r.o.t.msl == t.msl && AllModest(r.o.sent)
  {
    hide TcbOk, OutEvent, AckProcess;
    OutEventModest(AckProcess(t, s.ack).t, x);
  }

  lemma DataStatesTidy(t: Tcb, s: Segment, x: Xmit)
    requires t.mss == TCP_MSS && TimersOk(t) && t.state in {Established, FinWait1, FinWait2}
    ensures Tidy(Handle(t, s, x))
  {
    hide TcbOk, AckDataOut, AllModest;
    AckDataOutTidy(t, s, x);
    NothingModest();
  }

  lemma AckStatesTidy(t: Tcb, s: Segment, x: Xmit)
    requires t.mss == TCP_MSS && TimersOk(t) && t.state in {SynRecvd, Closing, CloseWait}
    ensures Tidy(Handle(t, s, x))
  {
    hide TcbOk, AckOut, AllModest;
    AckOutTidy(t, s, x);
    NothingModest();
  }

  lemma LastAckTidy(t: Tcb, s: Segment)
    requires t.mss == TCP_MSS && TimersOk(t) && t.state.LastAck?
    ensures Tidy(LastAckIn(t, s))
  {
    hide TcbOk, AckProcess;
  }

  lemma HandleTidy(t: Tcb, s: Segment, x: Xmit)
    requires t.mss == TCP_MSS && TimersOk(t)
    ensures Tidy(Handle(t, s, x))
  {
    hide TcbOk, SynRecvdIn, EstablishedIn, FinWait1In, FinWait2In, ClosingIn, TimeWaitIn, CloseWaitIn, LastAckIn;
    if t.state in {Established, FinWait1, FinWait2} { DataStatesTidy(t, s, x); }
    if t.state in {SynRecvd, Closing, CloseWait} { AckStatesTidy(t, s, x); }
    if t.state.TimeWait? { TimeWaitTidy(t, s); }
    if t.state.LastAck? { LastAckTidy(t, s); }
  }

  lemma NothingModest()
    ensures AllModest([])
  {
  }

  lemma TimeWaitTidy(t: Tcb, s: Segment)
    requires t.mss == TCP_MSS && TimersOk(t) && t.state.TimeWait?
    ensures Tidy(TimeWaitIn(t, s))
  {
    hide TcbOk, AckProcess, DataIn;
    DataInModest(AckProcess(t, s.ack).t, s);
  }

  lemma SynSentTidy(t: Tcb, s: Segment, x: Xmit)
    requires t.mss == TCP_MSS && TimersOk(t) && t.state.SynSent? && Modest(s)
    ensures Tidy(SynSentIn(t, s, x))
  {
    hide TcbOk, OutEvent, AckProcess, Plus;
    var t1 := ReadOptions(t, s).(irs := s.seq_, rcvNxt := Plus(s.seq_, 1), irsValid := true);
    var t2 := if s.isAck then AckProcess(t1, s.ack).t else t1;
    OutEventModest(t2, x);
    OutEventModest(t2.(state := SynRecvd, synOut := true), x);
  }

  lemma ListenTidy(t: Tcb, s: Segment, iss: Seq, x: Xmit)
    requires t.mss == TCP_MSS && TimersOk(t) && t.state.Listen? && Modest(s)
    ensures Tidy(ListenIn(t, s, iss, x))
  {
    hide TcbOk, OutEvent, Plus;
    var child := ReadOptions(TcpModel.Fresh(Closed), s).(
      iss := iss, una := iss, nxt := iss, irsValid := true, irs := s.seq_, rcvNxt := Plus(s.seq_, 1));
    OutEventModest(child.(synOut := true), x);
  }

  lemma InboundTidy(t: Tcb, s: Segment, iss: Seq, x: Xmit)
    requires t.mss == TCP_MSS && TimersOk(t) && Modest(s)
    ensures Tidy(Inbound(t, s, iss, x))
  {
    hide TcbOk, Handle, SynSentIn, ListenIn, SeqAcceptable;
    if t.state.Listen? { ListenTidy(t, s, iss, x); }
    if t.state.SynSent? { SynSentTidy(t, s, x); }
    HandleTidy(t, s, x);
  }

  lemma TimerTidy(t: Tcb, x: Xmit)
    requires t.mss == TCP_MSS && TimersOk(t) && t.timer.Some?
    ensures Tidy(TimerTmo(t, x))
  {
    hide TcbOk, Transmit, Retransmit, RetransmitFails, RexmitTmo;
    var c := t.(timer := None);
    TransmitModest(c, x);
    TransmitModest(c.(rexmitCnt := t.rexmitCnt + 1), x);
    RexmitEither(c, x);
  }

  lemma CallsTidy(t: Tcb, bytes: seq<Byte>, x: Xmit)
    requires t.mss == TCP_MSS && TimersOk(t)
    ensures Tidy(Send(t, bytes, x)) && Tidy(Close(t, x))
  {
    hide TcbOk, OutEvent;
    OutEventModest(t.(sbuf := t.sbuf + bytes[..Taken(t, |bytes|)]), x);
    OutEventModest(t.(finOut := true), x);
  }

  lemma ConnectTidy(t: Tcb, iss: Seq, x: Xmit)
    requires TimersOk(t) && t.state.Closed?
    ensures Tidy(Connect(t, iss, x))
  {
    hide TcbOk, OutEvent;
    var t1 := t.(
      iss := iss, una := iss, nxt := iss, sbuf := [], rbuf := [], rcvNxt := 0, mss := TCP_MSS, synOut := true);
    OutEventModest(t1, x);
  }

  lemma ApplyTidy(e: Endpoint, inbox: set<Segment>, st: Step)
    requires e.t.mss == TCP_MSS && TimersOk(e.t) && Enabled(e, inbox, st) && forall g :: g in inbox ==> Modest(g)
    ensures Tidy(Out(Apply(e, st).e.t, Apply(e, st).sent))
  {
    hide Connect, Send, Close, Inbound, TimerTmo;
    match st
    case DoConnect(iss, x) => ConnectTidy(e.t, iss, x);
    case DoSend(bytes, x) => CallsTidy(e.t, bytes, x);
    case DoClose(x) => CallsTidy(e.t, [], x);
    case DoDeliver(s, iss, x) => InboundTidy(e.t, s, iss, x);
    case DoTimeout(x) => TimerTidy(e.t, x);
    case _ =>
  }

  predicate TidyWorld(v: World) {
    && v.a.t.mss == TCP_MSS && v.b.t.mss == TCP_MSS && TimersOk(v.a.t) && TimersOk(v.b.t)
    && (forall g :: g in v.ab ==> Modest(g)) && (forall g :: g in v.ba ==> Modest(g))
  }

  /** In every run: the timers run exactly in their states, and no segment exceeds TCP_MSS. */
  lemma {:induction false} TidyInEveryRun(vs: seq<World>, es: seq<Event>, k: nat)
    requires Run(vs, es) && k < |vs|
    ensures TidyWorld(vs[k])
  {
    hide Apply, Enabled;
    if k > 0 {
      TidyInEveryRun(vs, es, k - 1);
      var v, e := vs[k - 1], es[k - 1];
      assert Next(v, vs[k], e.atA, e.st);
      ApplyTidy(End(v, e.atA), SentBy(v, !e.atA), e.st);
    }
  }

  /** In every run, every call does what `CallIs` says. */
  lemma CallsInEveryRun(vs: seq<World>, es: seq<Event>, k: nat)
    requires Run(vs, es) && k < |es|
    ensures var e := End(vs[k], es[k].atA);
      CallIs(e, es[k].st, End(vs[k + 1], es[k].atA), Apply(e, es[k].st).sent)
  {
    hide Core, StateFlags, Prefix, SegOk, TcbOk, CallIs, Send, Close, Connect, Inbound, TimerTmo, TidyWorld;
    var ev := es[k];
    RunInv(vs, es, k);
    TcbOkInEveryRun(vs, es, k);
    TidyTimers(vs, es, k, ev.atA);
    assert Next(vs[k], vs[k + 1], ev.atA, ev.st);
    var e := End(vs[k], ev.atA);
    match ev.st
    case DoSend(bytes, x) => SendCall(e, bytes, x);
    case DoRecv(len) => RecvCall(e, len);
    case DoClose(x) => CloseCall(e, x);
    case _ => OtherCalls(e, SentBy(vs[k], !ev.atA), ev.st);
  }

  lemma TidyTimers(vs: seq<World>, es: seq<Event>, k: nat, atA: bool)
    requires Run(vs, es) && k < |vs|
    ensures TimersOk(End(vs[k], atA).t)
  {
    TidyInEveryRun(vs, es, k);
  }

  lemma OtherCalls(e: Endpoint, inbox: set<Segment>, st: Step)
    requires TimersOk(e.t) && Enabled(e, inbox, st) && !st.DoSend? && !st.DoRecv? && !st.DoClose?
    ensures CallIs(e, st, Apply(e, st).e, Apply(e, st).sent)
  {
    hide Connect, Inbound, TimerTmo;
  }

  // ---------------------------------------------------------------- resets

  /** A record that answers this segment with a reset: no connection, or a listener and an ACK. */
  predicate Refuses(t: Tcb, g: Segment) {
    !g.rst && (t.state in {Free, Closed} || (t.state.Listen? && g.isAck))
  }

  lemma RefusedReset(e: Endpoint, g: Segment, iss: Seq, x: Xmit)
    requires Refuses(e.t, g)
    ensures var r := Apply(e, DoDeliver(g, iss, x));
      && r.e == e && |r.sent| == 1 && r.sent[0].rst && !r.sent[0].syn && r.sent[0].data == [] && !r.sent[0].fin
      && if g.isAck then r.sent[0].seq_ == g.ack && !r.sent[0].isAck
         else r.sent[0].ack == Plus(g.seq_, SeqLen(g)) && r.sent[0].isAck
  {
    hide Plus, TcbOk, OutEvent;
  }

  /** A reset at the next number closes every state from SYN_RECVD on, and in SYN_SENT one that
      acknowledges the SYN. */
  lemma ResetCloses(p: Endpoint, r: Segment, iss: Seq, x: Xmit)
    requires Local(p) && r.rst && !r.syn && !r.fin && r.data == []
    requires if p.t.state.SynSent? then Nxt(p) == 1 && r.isAck && r.ack == Plus(p.t.iss, 1)
             else p.t.state !in {Free, Closed, Listen} && r.seq_ == p.t.rcvNxt
    ensures Apply(p, DoDeliver(r, iss, x)).e.t.state.Closed?
  {
    hide SeqAcceptable, Handle, AnswerSyn, TcbOk, Plus;
    if p.t.state.SynSent? { SynNumbers(p); } else { AtNext(p.t, r); }
  }

  /** Half-open connections end, in every run: a segment that reaches an end without the connection
      is answered by a reset, and that reset closes the end that sent the segment, unless that end
      has accepted more in the meantime. */
  lemma HalfOpenCloses(vs: seq<World>, es: seq<Event>, k: nat)
    requires Run(vs, es) && k + 1 < |es| && es[k].st.DoDeliver? && Refuses(End(vs[k], es[k].atA).t, es[k].st.s)
    requires es[k + 1].atA == !es[k].atA && es[k + 1].st.DoDeliver?
    requires es[k + 1].st.s in Apply(End(vs[k], es[k].atA), es[k].st).sent
    requires var p, g := End(vs[k], !es[k].atA), es[k].st.s;
      if p.t.state.SynSent? then Nxt(p) == 1 && g.syn && !g.isAck
      else p.t.state !in {Free, Closed, Listen} && g.isAck && TellsAll(p, g)
    ensures End(vs[k + 1], es[k].atA) == End(vs[k], es[k].atA)
    ensures End(vs[k + 2], !es[k].atA).t.state.Closed?
  {
    hide Apply, Core, StateFlags, Prefix, SegOk, TellsAll, Slot, Plus;
    var ev, ev' := es[k], es[k + 1];
    var e, p := End(vs[k], ev.atA), End(vs[k], !ev.atA);
    RunInv(vs, es, k);
    assert Next(vs[k], vs[k + 1], ev.atA, ev.st);
    assert Next(vs[k + 1], vs[k + 2], ev'.atA, ev'.st);
    RefusedReset(e, ev.st.s, ev.st.iss, ev.st.x);
    assert ev'.st.s == Apply(e, ev.st).sent[0];
    if p.t.state.SynSent? { SynSlots(p, ev.st.s); } else { ToldNext(p, ev.st.s); }
    ResetCloses(p, ev'.st.s, ev'.st.iss, ev'.st.x);
  }

  lemma SynSlots(p: Endpoint, g: Segment)
    requires SegOk(p, g) && !g.rst && g.syn
    ensures Plus(g.seq_, SeqLen(g)) == Plus(p.t.iss, 1)
  {
    hide Slot;
  }

  lemma ToldNext(p: Endpoint, g: Segment)
    requires Local(p) && p.t.state !in {Free, Closed, Listen, SynSent} && TellsAll(p, g) && !g.rst
    ensures g.ack == p.t.rcvNxt
  {
    hide Sender, Slot;
    ReceiveAccounting(p);
  }

  // ---------------------------------------------------------------- old segments

  /** In every run, a segment whose slots were all accepted before changes nothing and is answered by
      nothing: an acknowledgement that was lost is not repeated. */
  lemma OldSegmentsDropped(vs: seq<World>, es: seq<Event>, k: nat)
    requires Run(vs, es) && k < |es| && es[k].st.DoDeliver? && Opened(End(vs[k], es[k].atA).t.state)
    requires var e, g := End(vs[k], es[k].atA), es[k].st.s;
      0 < SeqLen(g) && !g.rst && Slot(e.t.irs, g.seq_) + SeqLen(g) <= Rcv(e)
    ensures End(vs[k + 1], es[k].atA) == End(vs[k], es[k].atA)
    ensures Apply(End(vs[k], es[k].atA), es[k].st).sent == []
  {
    hide Apply, Sender, Prefix, StateFlags, SegOk, SeqAcceptable, Slot, LeadsTo;
    var e := End(vs[k], es[k].atA);
    RunInv(vs, es, k);
    AnswersInEveryRun(vs, es, k);
    OpenedKnows(e);
    OldUnacceptable(e, es[k].st.s);
  }

  lemma OpenedKnows(e: Endpoint)
    requires StateFlags(e) && Opened(e.t.state)
    ensures e.t.irsValid
  {
  }

  lemma OldUnacceptable(e: Endpoint, g: Segment)
    requires Receiver(e) && e.t.irsValid && 0 < SeqLen(g) && Slot(e.t.irs, g.seq_) + SeqLen(g) <= Rcv(e)
    ensures !SeqAcceptable(e.t, g)
  {
    hide Slot, Diff, Plus;
    SlotPlus(e.t.irs, g.seq_, SeqLen(g) - 1);
    DiffIsSlotDifference(e.t.irs, e.t.rcvNxt, g.seq_);
    DiffIsSlotDifference(e.t.irs, e.t.rcvNxt, Plus(g.seq_, SeqLen(g) - 1));
  }

  /** In every run, TIME_WAIT acknowledges every segment that it finds acceptable. */
  lemma TimeWaitAcks(vs: seq<World>, es: seq<Event>, k: nat) returns (g: Segment)
    requires Run(vs, es) && k < |es| && es[k].st.DoDeliver? && !es[k].st.s.rst && !es[k].st.s.syn
    requires End(vs[k], es[k].atA).t.state.TimeWait? && SeqAcceptable(End(vs[k], es[k].atA).t, es[k].st.s)
    ensures g in SentBy(vs[k + 1], es[k].atA) && !g.rst && g.isAck && TellsAll(End(vs[k + 1], es[k].atA), g)
  {
    hide Core, Prefix, SegOk, NotFuture, TellsAll, Slot, SeqAcceptable;
    var ev := es[k];
    var e, p := End(vs[k], ev.atA), End(vs[k], !ev.atA);
    RunInv(vs, es, k);
    assert Next(vs[k], vs[k + 1], ev.atA, ev.st);
    IsAck(p, ev.st.s);
    AcksBelow(vs, es, k, ev.st.s, ev.atA);
    AckTaken(e, p, ev.st.s);
    g := TimeWaitAck(e.t, ev.st.s);
    SegmentsTellAll(vs, es, k, g);
  }

  lemma TimeWaitAck(t: Tcb, s: Segment) returns (g: Segment)
    requires t.finIn && !s.rst && AckProcess(t, s.ack).ok
    ensures g in TimeWaitIn(t, s).sent && !g.rst && g.isAck
  {
    hide AckProcess, DataIn, TcbOk;
    g := PureAck(DataIn(AckProcess(t, s.ack).t, s).t);
  }

  // ---------------------------------------------------------------- acknowledgements clock out data

  /** A send event in REXMIT with something still outstanding retransmits from the first byte that is
      not acknowledged. */
  lemma RexmitEvent(e: Endpoint)
    requires Local(e) && e.started && !e.t.synOut && e.t.ostate.Rexmit? && e.t.mss > 0
    requires !e.t.finOut && e.t.una != e.t.nxt
    ensures var n := Min(|e.t.sbuf|, e.t.mss); var sent := OutEvent(e.t, Sent).sent;
      && |sent| == 1 && Slot(e.t.iss, sent[0].seq_) == Una(e) && |Acked(e)| + n <= |e.w|
      && sent[0].data == e.w[|Acked(e)|..|Acked(e)| + n] && n > 0
  {
    hide Retransmit, Slot, TcbOk;
    WindowSlots(e);
    var e1 := e.(t := SetOState(e.t, Rexmit));
    RetransmitIs(e1);
  }

  /** What a send event puts on the wire next: the following bytes, or the FIN. */
  predicate IsNext(e: Endpoint, g: Segment) {
    var n := Min(1 + |e.w| - Nxt(e), TCP_MSS);
    && !g.rst && !g.syn && Slot(e.t.iss, g.seq_) == Nxt(e)
    && 1 <= Nxt(e) <= Nxt(e) + n <= 1 + |e.w| && g.data == e.w[Nxt(e) - 1..Nxt(e) - 1 + n]
    && (g.fin <==> e.t.finOut && Nxt(e) == 1 + |e.w|)
  }

  /** Something waits to be sent for the first time. */
  predicate Waiting(e: Endpoint) {
    Nxt(e) <= |e.w| || (e.t.finOut && Nxt(e) == 1 + |e.w|)
  }

  lemma AckedAll(e: Endpoint, s: Segment)
    requires Sender(e) && e.started && !e.t.synOut && Waiting(e) && Slot(e.t.iss, s.ack) == Nxt(e)
    ensures var a := AckProcess(e.t, s.ack); var e1 := e.(t := a.t);
      && a.ok && Sender(e1) && !a.t.synOut && a.t.una == a.t.nxt && a.t.finOut == e.t.finOut && Waiting(e1)
      && (a.t.sbuf == [] <==> Nxt(e) == 1 + |e.w|)
  {
    hide AckProcess, Plus, Diff, Slot, TcbOk;
    AckInSlots(e.t, s.ack, e.t.iss);
    AckWindow(e, s.ack);
    SlotInjective(e.t.iss, AckProcess(e.t, s.ack).t.una, e.t.nxt);
  }

  lemma NextGoesOut(e: Endpoint)
    requires Sender(e) && e.started && !e.t.synOut && e.t.una == e.t.nxt && Waiting(e) && e.t.mss == TCP_MSS
    requires e.t.sbuf == [] <==> Nxt(e) == 1 + |e.w|
    ensures |OutEvent(e.t, Sent).sent| == 1 && IsNext(e, OutEvent(e.t, Sent).sent[0])
  {
    hide OutEvent, Slot, TcbOk, Window;
    SendEventIs(e);
  }

  lemma HandleSendsNext(e: Endpoint, s: Segment) returns (g: Segment)
    requires Sender(e) && e.started && !e.t.synOut && Waiting(e) && Slot(e.t.iss, s.ack) == Nxt(e)
    requires e.t.state in {Established, FinWait1, CloseWait} && e.t.mss == TCP_MSS
    ensures g in Handle(e.t, s, Sent).sent && IsNext(e, g)
  {
    hide AckProcess, DataIn, OutEvent, Slot, TcbOk, Window, IsNext, Waiting;
    AckedAll(e, s);
    var t := AckProcess(e.t, s.ack).t;
    var e1 := e.(t := if e.t.state.CloseWait? then t else DataIn(t, s).t);
    NextFrame(e.(t := t), e1);
    NextGoesOut(e1);
    g := OutEvent(e1.t, Sent).sent[0];
    NextSame(e, e1, g);
  }

  lemma NextFrame(e1: Endpoint, e2: Endpoint)
    requires Sender(e1) && Waiting(e1) && e2 == e1.(t := e2.t)
    requires e2.t == e1.t.(rbuf := e2.t.rbuf, rcvNxt := e2.t.rcvNxt, finIn := e2.t.finIn)
    ensures Sender(e2) && Waiting(e2)
  {
    hide Slot;
  }

  lemma NextSame(e: Endpoint, e1: Endpoint, g: Segment)
    requires IsNext(e1, g) && e1.w == e.w && e1.t.iss == e.t.iss && e1.t.nxt == e.t.nxt && e1.t.finOut == e.t.finOut
    ensures IsNext(e, g)
  {
    hide Slot;
  }

  /** In every run, the acknowledgement of everything sent so far sends what waits next: up to TCP_MSS
      of the following bytes, or the FIN once there are none. LAST_ACK is missing here: see `Stuck`. */
  lemma AckSendsNext(vs: seq<World>, es: seq<Event>, k: nat) returns (g: Segment)
    requires Run(vs, es) && k < |es| && es[k].st.DoDeliver? && !es[k].st.s.rst && !es[k].st.s.syn && es[k].st.x.Sent?
    requires var e, s := End(vs[k], es[k].atA), es[k].st.s;
      && e.t.state in {Established, FinWait1, CloseWait} && SeqAcceptable(e.t, s)
      && Slot(e.t.iss, s.ack) == Nxt(e) && Waiting(e)
    ensures g in SentBy(vs[k + 1], es[k].atA) && IsNext(End(vs[k], es[k].atA), g)
  {
    hide Sender, Receiver, Prefix, SegOk, Slot, SeqAcceptable, Handle, IsNext, Waiting, TcbOk;
    var ev := es[k];
    RunInv(vs, es, k);
    TidyInEveryRun(vs, es, k);
    assert Next(vs[k], vs[k + 1], ev.atA, ev.st);
    g := HandleSendsNext(End(vs[k], ev.atA), ev.st.s);
  }
}
