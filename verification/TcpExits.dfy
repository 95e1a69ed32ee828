/** How states are left: what an acceptable segment does to the connection state, told by what is
    acknowledged and accepted afterwards, and what RST, SYN and unacceptable segments do. */
module TcpExits {
  import opened Common
  import opened SeqNum
  import opened TcpModel
  import opened TcpSafety

  /** Every written byte and our FIN are acknowledged. */
  predicate AllAckedWithFin(e: Endpoint) {
    Una(e) == |e.w| + 2
  }

  lemma FinAckedIs(e: Endpoint)
    requires Core(e) && Synced(e) && e.closed
    ensures AllAckedWithFin(e) <==> !e.t.finOut
  {
    hide Slot;
  }

  /** Where a segment without RST and SYN that passes the acceptance test leads from each state. */
  predicate LeadsTo(e: Endpoint, s: Segment, e': Endpoint) {
    var t, t' := e.t, e'.t;
    match t.state
    case SynRecvd => t'.state == if t'.synOut then SynRecvd else if s.fin then CloseWait else Established
    case Established => t'.state == if t'.finIn then CloseWait else Established
    case CloseWait => t'.state == CloseWait
    case FinWait1 =>
      if AllAckedWithFin(e') then
        if t'.finIn then t'.state == TimeWait && t'.msl && t'.timer.None? else t'.state == FinWait2
      else t'.state == if t'.finIn then Closing else FinWait1
    case FinWait2 => if t'.finIn then t'.state == TimeWait && t'.msl && t'.timer.None? else t'.state == FinWait2
    case Closing =>
      if AllAckedWithFin(e') then t'.state == TimeWait && t'.msl && t'.timer.None? else t'.state == Closing
    case LastAck => if AllAckedWithFin(e') then t'.state == Closed && t'.timer.None? else t'.state == LastAck
    case TimeWait => t'.state == TimeWait
    case _ => t' == t
  }

  lemma DataStatesLead(e: Endpoint, s: Segment, x: Xmit)
    requires StateFlags(e) && (e.t.state.Established? || e.t.state.FinWait1? || e.t.state.FinWait2?)
    requires var e' := e.(t := Handle(e.t, s, x).t); Core(e') && Synced(e')
    ensures LeadsTo(e, s, e.(t := Handle(e.t, s, x).t))
  {
    hide AckDataOut, TcbOk, Core, AllAckedWithFin;
    if e.closed { FinAckedIs(e.(t := Handle(e.t, s, x).t)); }
  }

  lemma SynRecvdLeads(e: Endpoint, s: Segment, x: Xmit)
    requires e.t.state.SynRecvd? && e.t.synOut
    requires AckOut(e.t, s, x).Go? ==> !AckOut(e.t, s, x).o.t.synOut
    ensures LeadsTo(e, s, e.(t := Handle(e.t, s, x).t))
  {
    hide AckOut, TcbOk, AllAckedWithFin;
  }

  lemma AckStatesLead(e: Endpoint, s: Segment, x: Xmit)
    requires StateFlags(e) && (e.t.state.Closing? || e.t.state.CloseWait?)
    requires var e' := e.(t := Handle(e.t, s, x).t); Core(e') && Synced(e')
    ensures LeadsTo(e, s, e.(t := Handle(e.t, s, x).t))
  {
    hide AckOut, TcbOk, Core, AllAckedWithFin;
    if e.closed { FinAckedIs(e.(t := Handle(e.t, s, x).t)); }
  }

  lemma LastStatesLead(e: Endpoint, s: Segment, x: Xmit)
    requires StateFlags(e) && (e.t.state.TimeWait? || e.t.state.LastAck?)
    requires var e' := e.(t := Handle(e.t, s, x).t); Core(e') && Synced(e')
    ensures LeadsTo(e, s, e.(t := Handle(e.t, s, x).t))
  {
    hide AckProcess, DataIn, TcbOk, Core, AllAckedWithFin;
    FinAckedIs(e.(t := Handle(e.t, s, x).t));
  }

  /** An acknowledgement that is taken ends the SYN. */
  lemma AckEndsSyn(e: Endpoint, p: Endpoint, s: Segment, x: Xmit)
    requires Bond(e, p) && e.started && e.t.irsValid && SegOk(p, s) && !s.rst && !s.syn
    ensures AckOut(e.t, s, x).Go? ==> !AckOut(e.t, s, x).o.t.synOut
  {
    hide AckProcess, OutEvent, TcbOk, Core, Prefix, Good;
    AckStep(e, p, s);
  }

  predicate Opened(state: State) {
    state !in {Free, Closed, Listen, SynSent}
  }

  lemma Leads(e: Endpoint, p: Endpoint, s: Segment, iss: Seq, x: Xmit)
    requires Bond(e, p) && StateFlags(e) && SegOk(p, s) && Opened(e.t.state)
    requires SeqAcceptable(e.t, s) && !s.rst && !s.syn
    ensures LeadsTo(e, s, Apply(e, DoDeliver(s, iss, x)).e)
  {
    hide Handle, SeqAcceptable, TcbOk, Core, Prefix, SegOk, LeadsTo, Grows, AllOk;
    var e' := Apply(e, DoDeliver(s, iss, x)).e;
    InboundOk(e, p, s, iss, x);
    if e.t.state.SynRecvd? {
      AckEndsSyn(e, p, s, x);
      SynRecvdLeads(e, s, x);
    } else {
      StaysSynced(e, s, x);
      if e.t.state in {Established, FinWait1, FinWait2} {
        DataStatesLead(e, s, x);
      } else if e.t.state in {Closing, CloseWait} {
        AckStatesLead(e, s, x);
      } else {
        LastStatesLead(e, s, x);
      }
    }
  }

  predicate Flagged(t: Tcb) {
    !t.synOut && t.irsValid
  }

  lemma AckFlagged(t: Tcb, ack: Seq)
    requires Flagged(t)
    ensures Flagged(AckProcess(t, ack).t)
  {
  }

  lemma OutFlagged(t: Tcb, s: Segment, x: Xmit)
    requires Flagged(t)
    ensures AckDataOut(t, s, x).Go? ==> Flagged(AckDataOut(t, s, x).o.t)
    ensures AckOut(t, s, x).Go? ==> Flagged(AckOut(t, s, x).o.t)
  {
    hide TcbOk, OutEvent, DataIn, AckProcess;
    AckFlagged(t, s.ack);
  }

  lemma LastFlagged(t: Tcb, s: Segment)
    requires Flagged(t)
    ensures Flagged(LastAckIn(t, s).t) && Flagged(TimeWaitIn(t, s).t)
  {
    hide TcbOk, DataIn, AckProcess;
    AckFlagged(t, s.ack);
  }

  lemma StaysSynced(e: Endpoint, s: Segment, x: Xmit)
    requires Synced(e) && Opened(e.t.state) && !e.t.state.SynRecvd?
    ensures Synced(e.(t := Handle(e.t, s, x).t))
  {
    hide TcbOk, AckDataOut, AckOut, LastAckIn, TimeWaitIn;
    OutFlagged(e.t, s, x);
    LastFlagged(e.t, s);
  }

  /** The whole account of a segment in an opened state: an unacceptable one does nothing, an
      acceptable RST closes, an acceptable SYN closes with a reset, any other leads on. */
  predicate Answers(e: Endpoint, s: Segment, e': Endpoint, sent: seq<Segment>) {
    if !SeqAcceptable(e.t, s) then e' == e && sent == []
    else if s.rst then e'.t.state == Closed && e'.t.timer.None? && !e'.t.msl && sent == []
    else if s.syn then e'.t.state == Closed && e'.t.timer.None? && !e'.t.msl && |sent| == 1 && sent[0].rst
    else LeadsTo(e, s, e')
  }

  lemma AnswersIs(e: Endpoint, p: Endpoint, s: Segment, iss: Seq, x: Xmit)
    requires Bond(e, p) && StateFlags(e) && SegOk(p, s) && Opened(e.t.state)
    ensures var r := Apply(e, DoDeliver(s, iss, x)); Answers(e, s, r.e, r.sent)
  {
    hide Handle, SeqAcceptable, TcbOk, Core, Prefix, SegOk, LeadsTo;
    if SeqAcceptable(e.t, s) && !s.rst && !s.syn { Leads(e, p, s, iss, x); }
  }

  /** In every run, for either end and every delivery. LAST_ACK is the only state that a segment
      without RST and SYN takes to CLOSED. */
  lemma AnswersInEveryRun(vs: seq<World>, es: seq<Event>, k: nat)
    requires Run(vs, es) && k < |es| && es[k].st.DoDeliver? && Opened(End(vs[k], es[k].atA).t.state)
    ensures var e, e' := End(vs[k], es[k].atA), End(vs[k + 1], es[k].atA);
      && Answers(e, es[k].st.s, e', Apply(e, es[k].st).sent)
      && (e'.t.state.Closed? && !es[k].st.s.rst && !es[k].st.s.syn ==> e.t.state.LastAck?)
  {
    hide Apply, Core, Prefix, StateFlags, SegOk, SeqAcceptable;
    var e := es[k];
    RunInv(vs, es, k);
    assert Next(vs[k], vs[k + 1], e.atA, e.st);
    AnswersIs(End(vs[k], e.atA), End(vs[k], !e.atA), e.st.s, e.st.iss, e.st.x);
  }

  // ---------------------------------------------------------------- opening

  /** What a segment does in SYN_SENT: a wrong acknowledgement is reset, a RST counts only with a
      right one, a SYN with it opens the connection, and a SYN alone is a simultaneous open. */
  predicate Opens(t: Tcb, s: Segment, t': Tcb, sent: seq<Segment>) {
    if s.isAck && s.ack != Plus(t.iss, 1) then t' == t && (s.rst || (|sent| == 1 && sent[0].rst))
    else if s.rst then t'.state == (if s.isAck then Closed else SynSent) && sent == []
    else if s.syn then
      && t'.irsValid && t'.irs == s.seq_ && t'.rcvNxt == Plus(s.seq_, 1)
      && t'.mss == (if s.mssOpt.Some? then Min(t.mss, s.mssOpt.value) else t.mss)
      && if s.isAck then t'.state == Established && t'.una == s.ack && !t'.synOut && sent != []
         else t'.state == SynRecvd && t'.una == t.iss && t'.synOut
    else t' == t && sent == []
  }

  lemma SynSentOpens(e: Endpoint, s: Segment, x: Xmit)
    requires Core(e) && StateFlags(e) && e.t.state.SynSent? && Nxt(e) == 1
    ensures var o := SynSentIn(e.t, s, x); Opens(e.t, s, o.t, o.sent)
  {
    hide OutEvent, TcbOk, Plus, AckProcess, AnswerSyn;
    var t := e.t;
    SynNumbers(e);
    if (!s.isAck || s.ack == t.nxt) && !s.rst && s.syn {
      var t1 := ReadOptions(t, s).(irs := s.seq_, rcvNxt := Plus(s.seq_, 1), irsValid := true);
      if s.isAck {
        SynAckIs(t1, s.ack);
        AnswerIs(AckProcess(t1, s.ack).t, s, x);
      } else {
        AnswerIs(t1, s, x);
      }
    }
  }

  lemma SynNumbers(e: Endpoint)
    requires Core(e) && StateFlags(e) && e.t.state.SynSent? && Nxt(e) == 1
    ensures e.t.una == e.t.iss && e.t.nxt == Plus(e.t.iss, 1) && e.t.nxt != e.t.iss && e.t.sbuf == []
  {
    SlotSelf(e.t.iss);
    SlotInjective(e.t.iss, e.t.una, e.t.iss);
  }

  lemma SynAckIs(t: Tcb, ack: Seq)
    requires t.synOut && t.una == t.iss && t.nxt == Plus(t.iss, 1) && ack == t.nxt
    ensures var r := AckProcess(t, ack).t; r.una == ack && !r.synOut && r.una != r.iss
  {
  }

  lemma EventKeeps(t: Tcb, x: Xmit)
    ensures var r := OutEvent(t, x).t;
      && r.irsValid == t.irsValid && r.irs == t.irs && r.rcvNxt == t.rcvNxt && r.mss == t.mss && r.una == t.una
      && r.synOut == t.synOut && r.state == t.state
  {
    hide OutEvent, TcbOk;
  }

  lemma AnswerIs(t: Tcb, s: Segment, x: Xmit)
    requires !s.rst
    ensures var o := AnswerSyn(t, s, x);
      && o.t.irsValid == t.irsValid && o.t.irs == t.irs && o.t.rcvNxt == t.rcvNxt
      && o.t.mss == t.mss && o.t.una == t.una
      && if t.una != t.iss then o.t.state == Established && o.t.synOut == t.synOut && o.sent != []
         else o.t.state == SynRecvd && o.t.synOut
  {
    hide OutEvent, TcbOk;
    if t.una != t.iss { EventKeeps(t, x); } else { EventKeeps(t.(state := SynRecvd, synOut := true), x); }
  }
}
