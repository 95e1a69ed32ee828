/** What goes out: every written byte below nxt is in some segment ever sent, a retransmission
    carries the oldest bytes that are not acknowledged, and a send event sends what is next. */
module TcpSent {
  import opened Common
  import opened SeqNum
  import opened TcpModel
  import opened TcpSafety
  import opened TcpTheorems

  // ---------------------------------------------------------------- carrying a byte

  /** Segment `g` carries byte `i` of the stream `w` that starts behind `iss`. */
  predicate Carries(iss: Seq, w: seq<Byte>, g: Segment, i: nat) {
    var p := Slot(iss, g.seq_) - 1;
    !g.rst && 0 <= p <= i < p + |g.data| && i < |w| && g.data[i - p] == w[i]
  }

  ghost predicate CarriedIn(iss: Seq, w: seq<Byte>, sent: set<Segment>, i: nat) {
    exists g :: g in sent && Carries(iss, w, g, i)
  }

  /** Every byte of `w` with a slot in [from, to) is in one of these segments. */
  ghost predicate Carried(iss: Seq, w: seq<Byte>, from: int, to: int, sent: set<Segment>) {
    forall i :: 0 <= i < |w| && from <= 1 + i < to ==> CarriedIn(iss, w, sent, i)
  }

  /** The send reaches IP, or no packet is there and nothing is counted as sent. */
  predicate Reaches(x: Xmit) {
    x.Sent? || x.NoPacket?
  }

  lemma NoNewBytes(iss: Seq, w: seq<Byte>, from: int, to: int, sent: set<Segment>)
    requires to <= from || w == []
    ensures Carried(iss, w, from, to, sent)
  {
  }

  lemma MoreSegments(iss: Seq, w: seq<Byte>, from: int, to: int, sent: set<Segment>, more: set<Segment>)
    requires Carried(iss, w, from, to, sent) && sent <= more
    ensures Carried(iss, w, from, to, more)
  {
    forall i | 0 <= i < |w| && from <= 1 + i < to ensures CarriedIn(iss, w, more, i) {
      assert CarriedIn(iss, w, sent, i);
      var g :| g in sent && Carries(iss, w, g, i);
    }
  }

  /** One segment with `n` bytes of `w` from slot `from` on. */
  lemma OneSegment(iss: Seq, w: seq<Byte>, g: Segment, from: nat, to: int, sent: set<Segment>)
    requires !g.rst && 1 <= from && Slot(iss, g.seq_) <= from && g in sent
    requires var p := Slot(iss, g.seq_) - 1; 0 <= p && p + |g.data| <= |w| && g.data == w[p..p + |g.data|]
    requires to <= Slot(iss, g.seq_) + |g.data| || |w| < from
    ensures Carried(iss, w, from, to, sent)
  {
    hide Slot;
    forall i | 0 <= i < |w| && from <= 1 + i < to ensures CarriedIn(iss, w, sent, i) {
      assert Carries(iss, w, g, i);
    }
  }

  // ---------------------------------------------------------------- one send

  /** The bytes of a segment built at offset `doff` of the send buffer. */
  lemma BuiltBytes(e: Endpoint, q: Seq, doff: int, dlen: int, fin: bool, x: Xmit)
    requires Suffix(e.t.sbuf, e.w) && 0 <= doff && 0 <= dlen && doff + dlen <= |e.t.sbuf| && !x.NoPages?
    ensures var g, p := Build(e.t, q, doff, dlen, fin, x), |e.w| - |e.t.sbuf| + doff;
      g.seq_ == q && !g.rst && g.data == e.w[p..p + dlen]
  {
  }

  lemma TransmitCarries(e: Endpoint, x: Xmit)
    requires Sender(e) && e.started && !e.t.synOut && Reaches(x)
    ensures var o := Transmit(e.t, x);
      Carried(e.t.iss, e.w, Nxt(e), Nxt(e.(t := o.t)), ToSet(o.sent))
  {
    hide Build, Slot, Plus, Diff, Carried;
    WindowSlots(e);
    var (doff, dlen) := SendInfo(e.t, false);
    var fin := e.t.finOut && e.t.sbuf == [];
    var n := dlen + Bit(fin);
    if dlen < 0 || n == 0 || x.NoPacket? {
      NoNewBytes(e.t.iss, e.w, Nxt(e), Nxt(e), ToSet([]));
    } else {
      SlotPlus(e.t.iss, e.t.nxt, n);
      var g := Build(e.t, e.t.nxt, doff, dlen, fin, x);
      BuiltBytes(e, e.t.nxt, doff, dlen, fin, x);
      OneSegment(e.t.iss, e.w, g, Nxt(e), Nxt(e) + n, ToSet([g]));
    }
  }

  lemma RetransmitCarries(e: Endpoint, x: Xmit)
    requires Sender(e) && e.started && !e.t.synOut && Reaches(x)
    ensures var o := Retransmit(e.t, x);
      Carried(e.t.iss, e.w, Nxt(e), Nxt(e.(t := o.t)), ToSet(o.sent))
  {
    hide Build, Slot, Plus, Diff, Carried;
    var (doff, dlen) := SendInfo(e.t, true);
    var fin := e.t.finOut && e.t.sbuf == [];
    if dlen + Bit(e.t.finOut) == 0 || x.NoPacket? {
      NoNewBytes(e.t.iss, e.w, Nxt(e), Nxt(e), ToSet([]));
    } else {
      SlotPlus(e.t.iss, e.t.una, dlen);
      DiffIsSlotDifference(e.t.iss, Plus(e.t.una, dlen), e.t.nxt);
      var n := Max(Diff(Plus(e.t.una, dlen), e.t.nxt), 0);
      SlotPlus(e.t.iss, e.t.nxt, n);
      if n == 0 {
        NoNewBytes(e.t.iss, e.w, Nxt(e), Nxt(e), ToSet(Retransmit(e.t, x).sent));
      } else {
        var g := Build(e.t, e.t.una, doff, dlen, fin, x);
        BuiltBytes(e, e.t.una, doff, dlen, fin, x);
        OneSegment(e.t.iss, e.w, g, Nxt(e), Una(e) + dlen, ToSet([g]));
      }
    }
  }

  /** A retransmission carries the oldest bytes that are not acknowledged, as many as fit, at their
      own sequence numbers. */
  lemma RetransmitIs(e: Endpoint)
    requires Local(e) && e.started && !e.t.synOut && Outstanding(e.t)
    ensures var n := Min(|e.t.sbuf|, e.t.mss); var sent := Retransmit(e.t, Sent).sent;
      && |sent| == 1 && !sent[0].rst && !sent[0].syn
      && Slot(e.t.iss, sent[0].seq_) == Una(e) && |sent[0].data| == n
      && |Acked(e)| + n <= |e.w| && sent[0].data == e.w[|Acked(e)|..|Acked(e)| + n]
      && (sent[0].fin <==> e.t.finOut && e.t.sbuf == [])
  {
    hide Slot, Plus, Diff;
    var (doff, dlen) := SendInfo(e.t, true);
    BuiltBytes(e, e.t.una, doff, dlen, e.t.finOut && e.t.sbuf == [], Sent);
  }

  /** A send event of an idle sender, or of one with nothing outstanding, sends the next bytes, as
      many as fit one segment, at their own sequence numbers, and a FIN behind the last of them. */
  lemma SendEventIs(e: Endpoint)
    requires Sender(e) && e.started && !e.t.synOut && (e.t.ostate.Idle? || e.t.una == e.t.nxt)
    requires (Nxt(e) <= |e.w| && e.t.mss > 0) || (e.t.finOut && Nxt(e) == 1 + |e.w| && e.t.sbuf == [])
    ensures var n := Min(1 + |e.w| - Nxt(e), e.t.mss); var o := OutEvent(e.t, Sent);
      && |o.sent| == 1 && !o.sent[0].rst && !o.sent[0].syn
      && Slot(e.t.iss, o.sent[0].seq_) == Nxt(e) && 1 <= Nxt(e) && Nxt(e) - 1 + n <= |e.w|
      && o.sent[0].data == e.w[Nxt(e) - 1..Nxt(e) - 1 + n]
      && (o.sent[0].fin <==> e.t.finOut && e.t.sbuf == [])
      && Nxt(e.(t := o.t)) == Nxt(e) + n + Bit(o.sent[0].fin)
      && o.t.ostate.Sending? && o.t.timer == Some(o.t.rto)
  {
    hide Slot, Plus, Diff, TcbOk, Retransmit;
    WindowSlots(e);
    var (doff, dlen) := SendInfo(e.t, false);
    var fin := e.t.finOut && e.t.sbuf == [];
    SlotPlus(e.t.iss, e.t.nxt, dlen + Bit(fin));
    BuiltBytes(e, e.t.nxt, doff, dlen, fin, Sent);
  }

  lemma OutEventCarries(e: Endpoint, x: Xmit)
    requires Sender(e) && e.started && Reaches(x)
    ensures var o := OutEvent(e.t, x);
      Carried(e.t.iss, e.w, Nxt(e), Nxt(e.(t := o.t)), ToSet(o.sent))
  {
    hide Transmit, Retransmit, Carried, Slot, TcbOk;
    var t, o := e.t, OutEvent(e.t, x);
    if t.synOut {
      NoNewBytes(t.iss, e.w, Nxt(e), Nxt(e.(t := o.t)), ToSet(o.sent));
    } else {
      NoNewBytes(t.iss, e.w, Nxt(e), Nxt(e), ToSet([]));
      TransmitCarries(e, x);
      RetransmitCarries(e.(t := SetOState(t, Rexmit)), x);
    }
  }

  // ---------------------------------------------------------------- one step

  /** What a step of one end adds to its stream of segments. */
  ghost predicate StepCarries(e: Endpoint, e': Endpoint, sent: seq<Segment>) {
    Carried(e'.t.iss, e'.w, Nxt(e), Nxt(e'), ToSet(sent))
  }

  lemma IsAck(p: Endpoint, s: Segment)
    requires SegOk(p, s) && !s.rst && !s.syn
    ensures s.isAck
  {
  }

  lemma AckDataOutCarries(e: Endpoint, p: Endpoint, s: Segment, x: Xmit)
    requires Bond(e, p) && Synced(e) && SegOk(p, s) && !s.rst && !s.syn && Reaches(x)
    ensures var r := AckDataOut(e.t, s, x); r.Go? ==> StepCarries(e, e.(t := r.o.t), r.o.sent)
  {
    hide OutEvent, DataIn, AckProcess, Carried, Window, Receiver, Prefix, Slot, TcbOk, SegOk, Grows, AllOk;
    var a := AckProcess(e.t, s.ack);
    if a.ok {
      IsAck(p, s);
      AckStep(e, p, s);
      var d := DataIn(a.t, s);
      var o := OutEvent(d.t, x);
      OutEventCarries(e.(t := d.t), x);
      MoreSegments(e.t.iss, e.w, Nxt(e), Nxt(e.(t := o.t)), ToSet(o.sent), ToSet(d.sent + o.sent));
    }
  }

  lemma AckOutCarries(e: Endpoint, p: Endpoint, s: Segment, x: Xmit)
    requires Bond(e, p) && Synced(e) && SegOk(p, s) && !s.rst && !s.syn && Reaches(x)
    ensures var r := AckOut(e.t, s, x); r.Go? ==> StepCarries(e, e.(t := r.o.t), r.o.sent)
  {
    hide OutEvent, AckProcess, Carried, Window, Receiver, Prefix, Slot, TcbOk, SegOk, Grows, AllOk;
    var a := AckProcess(e.t, s.ack);
    if a.ok {
      IsAck(p, s);
      AckStep(e, p, s);
      OutEventCarries(e.(t := a.t), x);
    }
  }

  lemma DataStatesCarry(e: Endpoint, p: Endpoint, s: Segment, x: Xmit)
    requires Bond(e, p) && Synced(e) && SegOk(p, s) && !s.rst && !s.syn && Reaches(x)
    requires e.t.state in {Established, FinWait1, FinWait2}
    ensures var o := Handle(e.t, s, x); StepCarries(e, e.(t := o.t), o.sent)
  {
    hide AckDataOut, Carried, Core, Prefix, Slot, TcbOk, SegOk;
    NoNewBytes(e.t.iss, e.w, Nxt(e), Nxt(e), ToSet([]));
    AckDataOutCarries(e, p, s, x);
  }

  lemma AckStatesCarry(e: Endpoint, p: Endpoint, s: Segment, x: Xmit)
    requires Bond(e, p) && Synced(e) && SegOk(p, s) && !s.rst && !s.syn && Reaches(x)
    requires e.t.state in {Closing, CloseWait}
    ensures var o := Handle(e.t, s, x); StepCarries(e, e.(t := o.t), o.sent)
  {
    hide AckOut, Carried, Core, Prefix, Slot, TcbOk, SegOk;
    NoNewBytes(e.t.iss, e.w, Nxt(e), Nxt(e), ToSet([]));
    AckOutCarries(e, p, s, x);
  }

  lemma LastStatesKeep(t: Tcb, s: Segment, x: Xmit)
    requires t.state in {TimeWait, LastAck}
    ensures Handle(t, s, x).t.nxt == t.nxt && Handle(t, s, x).t.iss == t.iss
  {
    hide AckProcess, DataIn, TcbOk;
  }

  lemma InboundCarries(e: Endpoint, p: Endpoint, s: Segment, iss: Seq, x: Xmit)
    requires Bond(e, p) && StateFlags(e) && SegOk(p, s) && Reaches(x)
    ensures var r := Apply(e, DoDeliver(s, iss, x)); StepCarries(e, r.e, r.sent)
  {
    hide Carried, Prefix, Slot, TcbOk, SegOk, Handle, SeqAcceptable, SynSentIn, ListenIn, Receiver;
    var r := Apply(e, DoDeliver(s, iss, x));
    if e.w == [] {
      NoNewBytes(r.e.t.iss, r.e.w, Nxt(e), Nxt(r.e), ToSet(r.sent));
    } else if e.t.state in {Free, Closed} || !SeqAcceptable(e.t, s) || s.rst || s.syn {
      NoNewBytes(e.t.iss, e.w, Nxt(e), Nxt(e), ToSet(r.sent));
    } else if e.t.state in {TimeWait, LastAck} {
      LastStatesKeep(e.t, s, x);
      NoNewBytes(e.t.iss, e.w, Nxt(e), Nxt(e), ToSet(r.sent));
    } else if e.t.state in {Closing, CloseWait} {
      AckStatesCarry(e, p, s, x);
    } else {
      DataStatesCarry(e, p, s, x);
    }
  }

  lemma TimerCarries(e: Endpoint, x: Xmit)
    requires Sender(e) && Reaches(x)
    ensures var r := Apply(e, DoTimeout(x)); StepCarries(e, r.e, r.sent)
  {
    hide Carried, Slot, TcbOk, SendingTmo, RexmitTmo, Window;
    var t := e.t.(timer := None);
    NoNewBytes(e.t.iss, e.w, Nxt(e), Nxt(e), ToSet([]));
    SendingCarries(e.(t := t), x);
    RexmitCarries(e.(t := t), x);
  }

  lemma SendingCarries(e: Endpoint, x: Xmit)
    requires Sender(e) && Reaches(x)
    ensures var o := SendingTmo(e.t, x); StepCarries(e, e.(t := o.t), o.sent)
  {
    hide Carried, Slot, TcbOk, Retransmit, RetransmitFails;
    var o := SendingTmo(e.t, x);
    if e.w == [] {
      NoNewBytes(e.t.iss, e.w, Nxt(e), Nxt(e.(t := o.t)), ToSet(o.sent));
    } else {
      RetransmitCarries(e, x);
    }
  }

  lemma RexmitCarries(e: Endpoint, x: Xmit)
    requires Sender(e) && Reaches(x)
    ensures var o := RexmitTmo(e.t, x); StepCarries(e, e.(t := o.t), o.sent)
  {
    hide Carried, Slot, TcbOk, Retransmit, RexmitTmo;
    RexmitEither(e.t, x);
    var o := RexmitTmo(e.t, x);
    var c := e.t.(rexmitCnt := e.t.rexmitCnt + 1);
    if e.w == [] {
      NoNewBytes(e.t.iss, e.w, Nxt(e), Nxt(e.(t := o.t)), ToSet(o.sent));
    } else if c.rexmitCnt > c.rexmitMax {
      NoNewBytes(e.t.iss, e.w, Nxt(e), Nxt(e), ToSet([]));
    } else {
      RetransmitCarries(e.(t := c), x);
    }
  }

  lemma SendCarries(e: Endpoint, bytes: seq<Byte>, x: Xmit)
    requires Local(e) && |e.w| + |bytes| + 2 < HALF && Reaches(x)
    ensures var r := Apply(e, DoSend(bytes, x)); StepCarries(e, r.e, r.sent)
  {
    hide Carried, Slot, TcbOk, OutEvent;
    var n := Taken(e.t, |bytes|);
    if n == 0 {
      assert e.w + bytes[..n] == e.w;
      NoNewBytes(e.t.iss, e.w, Nxt(e), Nxt(e), ToSet([]));
    } else {
      var e1 := e.(t := e.t.(sbuf := e.t.sbuf + bytes[..n]), w := e.w + bytes[..n]);
      SuffixGrow(e.t.sbuf, e.w, bytes[..n]);
      OutEventCarries(e1, x);
    }
  }

  lemma CloseCarries(e: Endpoint, x: Xmit)
    requires Local(e) && Reaches(x)
    ensures var r := Apply(e, DoClose(x)); StepCarries(e, r.e, r.sent)
  {
    hide Carried, Slot, TcbOk, OutEvent, Close, Receiver;
    CloseEither(e.t, x);
    NoNewBytes(e.t.iss, e.w, Nxt(e), Nxt(e), ToSet([]));
    if CanSend(e.t) { OutEventCarries(e.(t := e.t.(finOut := true), closed := true), x); }
  }

  predicate StepReaches(st: Step) {
    match st
    case DoConnect(_, x) => Reaches(x)
    case DoSend(_, x) => Reaches(x)
    case DoClose(x) => Reaches(x)
    case DoDeliver(_, _, x) => Reaches(x)
    case DoTimeout(x) => Reaches(x)
    case _ => true
  }

  lemma ApplyCarries(e: Endpoint, p: Endpoint, inbox: set<Segment>, st: Step)
    requires Bond(e, p) && StateFlags(e) && Channel(p, inbox) && Enabled(e, inbox, st) && StepReaches(st)
    ensures StepCarries(e, Apply(e, st).e, Apply(e, st).sent)
  {
    hide Carried, Slot, TcbOk, SegOk, Connect, Send, Recv, Close, Inbound, TimerTmo, Destroy, Prefix, Receiver,
      StateFlags;
    var r := Apply(e, st);
    match st {
      case DoConnect(iss, x) => NoNewBytes(r.e.t.iss, r.e.w, Nxt(e), Nxt(r.e), ToSet(r.sent));
      case DoSend(bytes, x) => SendCarries(e, bytes, x);
      case DoClose(x) => CloseCarries(e, x);
      case DoDeliver(s, iss, x) => InboundCarries(e, p, s, iss, x);
      case DoTimeout(x) => TimerCarries(e, x);
      case _ =>
        QuietNumbers(e, st);
        NoNewBytes(e.t.iss, e.w, Nxt(e), Nxt(e), ToSet([]));
    }
  }

  lemma QuietNumbers(e: Endpoint, st: Step)
    requires st.DoRecv? || st.DoMsl? || st.DoDestroy?
    ensures var r := Apply(e, st); r.e.t.nxt == e.t.nxt && r.e.t.iss == e.t.iss && r.e.w == e.w && r.sent == []
  {
  }

  // ---------------------------------------------------------------- every run

  /** Every written byte below nxt is in some segment this end ever sent. */
  ghost predicate AllCarried(e: Endpoint, ch: set<Segment>) {
    Carried(e.t.iss, e.w, 0, Nxt(e), ch)
  }

  lemma StreamGrows(iss: Seq, w: seq<Byte>, w': seq<Byte>, to: int, ch: set<Segment>)
    requires Carried(iss, w, 0, to, ch) && w <= w' && (to <= 1 + |w| || w' == w)
    ensures Carried(iss, w', 0, to, ch)
  {
    forall i | 0 <= i < |w'| && 0 <= 1 + i < to ensures CarriedIn(iss, w', ch, i) {
      assert CarriedIn(iss, w, ch, i);
      var g :| g in ch && Carries(iss, w, g, i);
      assert Carries(iss, w', g, i);
    }
  }

  /** Nothing is written before the connection is started. */
  lemma NotStartedYet(e: Endpoint, st: Step)
    requires Local(e) && !e.started
    ensures Apply(e, st).e.w == []
  {
    hide Connect, Send, Recv, Close, Inbound, TimerTmo, Destroy, Receiver, Slot;
    if st.DoSend? { assert e.w + st.bytes[..0] == e.w; }
  }

  lemma StepKeepsCarried(e: Endpoint, e': Endpoint, ch: set<Segment>, sent: seq<Segment>)
    requires !e.started ==> e'.w == []
    requires Sender(e) && Sender(e') && Grows(e, e') && AllCarried(e, ch) && StepCarries(e, e', sent)
    ensures AllCarried(e', ch + ToSet(sent))
  {
    hide Slot, CarriedIn;
    var all := ch + ToSet(sent);
    if e.started {
      StreamGrows(e.t.iss, e.w, e'.w, Nxt(e), ch);
      MoreSegments(e'.t.iss, e'.w, 0, Nxt(e), ch, all);
      MoreSegments(e'.t.iss, e'.w, Nxt(e), Nxt(e'), ToSet(sent), all);
    } else {
      MoreSegments(e'.t.iss, e'.w, Nxt(e), Nxt(e'), ToSet(sent), all);
      NoNewBytes(e'.t.iss, e'.w, 0, Nxt(e'), all);
    }
  }

  /** In every run whose sends reach IP, every written byte below nxt is in some segment ever sent,
      at its own sequence number, at both ends. */
  lemma {:induction false} BytesGoOut(vs: seq<World>, es: seq<Event>, k: nat)
    requires Run(vs, es) && k < |vs| && forall i :: 0 <= i < k ==> StepReaches(es[i].st)
    ensures AllCarried(vs[k].a, vs[k].ab) && AllCarried(vs[k].b, vs[k].ba)
  {
    hide AllCarried, Apply, Prefix, Receiver, Grows, StepCarries, StateFlags, SegOk, Window, Enabled, Init;
    if k == 0 {
      NothingWritten(vs[0]);
    } else {
      BytesGoOut(vs, es, k - 1);
      RunInv(vs, es, k - 1);
      RunInv(vs, es, k);
      var v, e := vs[k - 1], es[k - 1];
      assert Next(v, vs[k], e.atA, e.st);
      NextKeepsInv(v, vs[k], e.atA, e.st);
      if !End(v, e.atA).started { NotStartedYet(End(v, e.atA), e.st); }
      if e.atA {
        ApplyCarries(v.a, v.b, v.ba, e.st);
        StepKeepsCarried(v.a, vs[k].a, v.ab, Apply(v.a, e.st).sent);
      } else {
        ApplyCarries(v.b, v.a, v.ab, e.st);
        StepKeepsCarried(v.b, vs[k].b, v.ba, Apply(v.b, e.st).sent);
      }
    }
  }

  lemma NothingWritten(v: World)
    requires Init(v)
    ensures AllCarried(v.a, v.ab) && AllCarried(v.b, v.ba)
  {
  }
}
