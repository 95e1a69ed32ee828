/** A lossless exchange: bytes written while nothing is outstanding, their segment delivered, and its
    acknowledgement delivered, leave the peer with the bytes and the sender with nothing outstanding. */
module TcpExchange {
  import opened Common
  import opened SeqNum
  import opened TcpModel
  import opened TcpSafety
  import opened TcpTheorems
  import opened TcpSent
  import opened TcpTaken
  import opened TcpFuture

  /** An established end with nothing in its send buffer and nothing outstanding. */
  predicate AtRest(e: Endpoint) {
    e.t.state.Established? && e.t.sbuf == [] && e.t.una == e.t.nxt
  }

  lemma RestNumbers(e: Endpoint)
    requires Local(e) && AtRest(e)
    ensures Nxt(e) == Una(e) == 1 + |e.w| && e.started && !e.t.synOut && e.t.irsValid
    ensures !e.t.finOut && !e.t.finIn && !e.closed
  {
    hide Slot, Receiver;
    OpenFlags(e);
  }

  lemma OpenFlags(e: Endpoint)
    requires StateFlags(e) && e.t.state.Established?
    ensures e.started && !e.t.synOut && e.t.irsValid && !e.t.finIn && !e.closed
  {
  }

  /** The write: one segment with all the bytes. */
  lemma Writes(a: Endpoint, p: Endpoint, bytes: seq<Byte>)
    requires Bond(a, p) && StateFlags(a) && AtRest(a) && bytes != [] && |a.w| + |bytes| + 2 < HALF
    requires |bytes| <= a.t.mss && |bytes| <= TCP_SBUF_SIZE
    ensures var r := Apply(a, DoSend(bytes, Sent));
      && r.e.w == a.w + bytes && r.e.t.state.Established? && r.e.t.sbuf == bytes
      && Una(r.e) == 1 + |a.w| && Nxt(r.e) == 1 + |r.e.w| && r.e.t.irs == a.t.irs && Accepted(r.e) == Accepted(a)
      && |r.sent| == 1 && !r.sent[0].rst && !r.sent[0].syn && !r.sent[0].fin
      && Slot(a.t.iss, r.sent[0].seq_) == 1 + |a.w| && r.sent[0].data == bytes
  {
    hide OutEvent, Slot, TcbOk, Prefix, Grows, AllOk;
    RestNumbers(a);
    assert bytes[..|bytes|] == bytes && a.t.sbuf + bytes == bytes;
    var e1 := a.(t := a.t.(sbuf := bytes), w := a.w + bytes);
    SuffixGrow(a.t.sbuf, a.w, bytes);
    SendEventIs(e1);
    assert e1.w[|a.w|..|a.w| + |bytes|] == bytes;
  }

  /** The answer of a peer that has nothing to send: one acknowledgement at its own nxt. */
  lemma Acknowledges(p: Endpoint, a: Endpoint, g: Segment, iss: Seq)
    requires Bond(p, a) && StateFlags(p) && AtRest(p) && SegOk(a, g) && !g.rst && !g.syn && !g.fin && NotFuture(p, g)
    requires Slot(p.t.irs, g.seq_) == 1 + |Accepted(p)| && 0 < |g.data| <= RcvWindow(p.t)
    ensures var r := Apply(p, DoDeliver(g, iss, Sent));
      && r.e.t.state.Established? && AtRest(r.e) && r.e.w == p.w && r.e.t.nxt == p.t.nxt && r.e.t.iss == p.t.iss
      && Accepted(r.e) == Accepted(p) + g.data
      && |r.sent| == 1 && r.sent[0].seq_ == p.t.nxt && r.sent[0].data == [] && !r.sent[0].syn && !r.sent[0].fin
      && !r.sent[0].rst && r.sent[0].isAck
  {
    hide Handle, SeqAcceptable, TcbOk, Sender, Prefix, SegOk, NotFuture, Slot;
    RestNumbers(p);
    NextSlot(p, g);
    assert g.data[..|g.data|] == g.data;
    HandleTakes(p, a, g, Sent);
    AnswersOnce(p, a, g);
  }

  lemma AnswersOnce(p: Endpoint, a: Endpoint, g: Segment)
    requires Bond(p, a) && Synced(p) && AtRest(p) && SegOk(a, g) && !g.rst && !g.syn && !g.fin && NotFuture(p, g)
    requires g.seq_ == p.t.rcvNxt && 0 < |g.data| && 0 < RcvWindow(p.t) && !p.t.finOut && !p.t.finIn
    ensures var o := Handle(p.t, g, Sent);
      && o.t.state.Established? && o.t.sbuf == [] && o.t.una == o.t.nxt == p.t.nxt && o.t.iss == p.t.iss
      && |o.sent| == 1 && o.sent[0].seq_ == p.t.nxt && o.sent[0].data == [] && !o.sent[0].syn && !o.sent[0].fin
      && !o.sent[0].rst && o.sent[0].isAck
  {
    hide AckProcess, OutEvent, DataIn, TcbOk, Core, Prefix, SegOk, NotFuture;
    AckTaken(p, a, g);
    var t := AckProcess(p.t, g.ack).t;
    NothingAcked(p.t, g.ack);
    var d := DataIn(t, g);
    OneAck(t, g);
    NothingToSend(d.t);
  }

  lemma NothingAcked(t: Tcb, ack: Seq)
    requires t.sbuf == [] && t.una == t.nxt && !t.synOut && !t.finOut
    ensures AckProcess(t, ack).t == t
  {
  }

  lemma OneAck(t: Tcb, g: Segment)
    requires !g.rst && !g.fin && g.data != [] && g.seq_ == t.rcvNxt && RcvWindow(t) > 0
    ensures DataIn(t, g).sent == [PureAck(DataIn(t, g).t)] && DataIn(t, g).t.finIn == t.finIn
  {
  }

  lemma NothingToSend(t: Tcb)
    requires t.sbuf == [] && t.una == t.nxt && !t.synOut && !t.finOut
    ensures OutEvent(t, Sent).sent == [] && OutEvent(t, Sent).t.nxt == t.nxt
  {
    hide TcbOk;
    SameNumber(t.nxt);
  }

  lemma SameNumber(x: Seq)
    ensures Diff(x, x) == 0
  {
  }

  /** The acknowledgement of all the bytes, at the next slot: nothing is outstanding any more. */
  lemma IsAcked(a: Endpoint, p: Endpoint, h: Segment, iss: Seq)
    requires Bond(a, p) && StateFlags(a) && a.t.state.Established?
    requires SegOk(p, h) && !h.rst && !h.syn && !h.fin && h.data == []
    requires h.seq_ == a.t.rcvNxt && Slot(a.t.iss, h.ack) == Nxt(a) == 1 + |a.w|
    ensures var r := Apply(a, DoDeliver(h, iss, Sent)); AtRest(r.e) && r.e.w == a.w
  {
    hide Handle, SeqAcceptable, TcbOk, Sender, Prefix, SegOk, Slot;
    AtNext(a.t, h);
    AllGone(a, h);
  }

  lemma AtNext(t: Tcb, h: Segment)
    requires h.seq_ == t.rcvNxt && SeqLen(h) == 0
    ensures SeqAcceptable(t, h)
  {
    hide Plus, Diff;
    if RcvWindow(t) > 0 { OwnNumber(t); }
  }

  lemma AllGone(a: Endpoint, h: Segment)
    requires Core(a) && Synced(a) && a.t.state.Established? && !a.closed && !a.t.finIn
    requires !h.rst && !h.syn && !h.fin && h.data == [] && Slot(a.t.iss, h.ack) == Nxt(a) == 1 + |a.w|
    ensures var o := Handle(a.t, h, Sent); o.t.state.Established? && o.t.sbuf == [] && o.t.una == o.t.nxt
  {
    hide AckProcess, OutEvent, DataIn, TcbOk, Plus, Diff;
    AckInSlots(a.t, h.ack, a.t.iss);
    var t := AckProcess(a.t, h.ack).t;
    SlotInjective(a.t.iss, t.una, t.nxt);
    NoData(t, h);
    NothingToSend(DataIn(t, h).t);
  }

  lemma NoData(t: Tcb, h: Segment)
    requires h.data == [] && !h.fin
    ensures DataIn(t, h).t.finIn == t.finIn
  {
  }

  /** Three events in any run: the write at one end at rest, the delivery of its segment to the other
      end at rest, and the delivery of the answer. Afterwards the other end has accepted the bytes,
      and both are at rest again. */
  lemma LosslessExchange(vs: seq<World>, es: seq<Event>, k: nat, bytes: seq<Byte>)
    requires Run(vs, es) && k + 2 < |es|
    requires var atA, a, p := es[k].atA, End(vs[k], es[k].atA), End(vs[k], !es[k].atA);
      && AtRest(a) && AtRest(p) && Accepted(p) == a.w && Accepted(a) == p.w
      && es[k].st == DoSend(bytes, Sent) && bytes != []
      && |bytes| <= a.t.mss && |bytes| <= TCP_SBUF_SIZE && |bytes| <= RcvWindow(p.t)
      && es[k + 1].atA == !atA && es[k + 1].st.DoDeliver? && es[k + 1].st.x.Sent?
      && es[k + 1].st.s in Apply(a, es[k].st).sent
      && es[k + 2].atA == atA && es[k + 2].st.DoDeliver? && es[k + 2].st.x.Sent?
      && es[k + 2].st.s in Apply(End(vs[k + 1], !atA), es[k + 1].st).sent
    ensures var atA := es[k].atA; var a, p := End(vs[k + 3], atA), End(vs[k + 3], !atA);
      && AtRest(a) && AtRest(p) && Una(a) == Nxt(a)
      && a.w == End(vs[k], atA).w + bytes && Accepted(p) == a.w
  {
    hide Apply, Core, Prefix, StateFlags, SegOk, Enabled, AtRest, Slot;
    var atA := es[k].atA;
    RunInv(vs, es, k);
    RunInv(vs, es, k + 1);
    RunInv(vs, es, k + 2);
    assert Next(vs[k], vs[k + 1], atA, es[k].st);
    Room(vs[k], vs[k + 1], atA, bytes);
    assert Next(vs[k + 1], vs[k + 2], !atA, es[k + 1].st);
    assert Next(vs[k + 2], vs[k + 3], atA, es[k + 2].st);
    Exchange(End(vs[k], atA), End(vs[k], !atA), bytes, es[k + 1].st, es[k + 2].st, vs, es, k);
  }

  /** Two ends that know each other know each other's initial numbers. */
  lemma Numbers(a: Endpoint, p: Endpoint)
    requires Bond(a, p) && a.t.irsValid && p.t.irsValid
    ensures p.t.irs == a.t.iss && a.t.irs == p.t.iss
  {
    hide Core;
  }

  lemma SentIsOk(vs: seq<World>, es: seq<Event>, k: nat, g: Segment)
    requires Run(vs, es) && k < |es| && g in Apply(End(vs[k], es[k].atA), es[k].st).sent
    ensures g in SentBy(vs[k + 1], es[k].atA) && SegOk(End(vs[k + 1], es[k].atA), g)
  {
    hide Apply, Core, Prefix, StateFlags, SegOk, Enabled;
    RunInv(vs, es, k + 1);
    assert Next(vs[k], vs[k + 1], es[k].atA, es[k].st);
  }

  /** An acknowledgement of every byte written is at nxt. */
  lemma AcksAll(a: Endpoint, p: Endpoint, h: Segment)
    requires Bond(a, p) && p.t.irsValid && !p.t.finIn && Accepted(p) == a.w && TellsAll(p, h) && !h.rst
    ensures Slot(a.t.iss, h.ack) == 1 + |a.w|
  {
    hide Sender;
    SlotSelf(a.t.iss);
    SlotPlus(a.t.iss, a.t.iss, 1 + |a.w|);
  }

  /** An end at rest whose bytes are all accepted sends at the peer's next number. */
  lemma NextOf(a: Endpoint, p: Endpoint)
    requires Bond(a, p) && a.t.irsValid && !a.t.finIn && Accepted(a) == p.w && Nxt(p) == 1 + |p.w|
    ensures p.t.nxt == a.t.rcvNxt
  {
    hide Sender;
    SlotInjective(p.t.iss, p.t.nxt, a.t.rcvNxt);
  }

  lemma Room(v: World, v': World, atA: bool, bytes: seq<Byte>)
    requires Next(v, v', atA, DoSend(bytes, Sent))
    ensures |End(v, atA).w| + |bytes| + 2 < HALF
  {
    hide Apply;
  }

  lemma Exchange(a: Endpoint, p: Endpoint, bytes: seq<Byte>, st1: Step, st2: Step,
                 vs: seq<World>, es: seq<Event>, k: nat)
    requires Run(vs, es) && k + 2 < |es| && st1 == es[k + 1].st && st2 == es[k + 2].st
    requires a == End(vs[k], es[k].atA) && p == End(vs[k], !es[k].atA)
    requires es[k].st == DoSend(bytes, Sent) && es[k + 1].atA == !es[k].atA && es[k + 2].atA == es[k].atA
    requires AtRest(a) && AtRest(p) && Accepted(p) == a.w && Accepted(a) == p.w && bytes != []
    requires |bytes| <= a.t.mss && |bytes| <= TCP_SBUF_SIZE && |bytes| <= RcvWindow(p.t)
    requires st1.DoDeliver? && st1.x.Sent? && st1.s in Apply(a, DoSend(bytes, Sent)).sent
    requires st2.DoDeliver? && st2.x.Sent? && st2.s in Apply(p, st1).sent
    requires End(vs[k + 1], es[k].atA) == Apply(a, DoSend(bytes, Sent)).e && End(vs[k + 1], !es[k].atA) == p
    requires End(vs[k + 2], es[k].atA) == Apply(a, DoSend(bytes, Sent)).e
    requires End(vs[k + 2], !es[k].atA) == Apply(p, st1).e
    requires End(vs[k + 3], es[k].atA) == Apply(Apply(a, DoSend(bytes, Sent)).e, st2).e
    requires End(vs[k + 3], !es[k].atA) == Apply(p, st1).e
    requires Inv(vs[k]) && Inv(vs[k + 1]) && Inv(vs[k + 2])
    requires |a.w| + |bytes| + 2 < HALF && |vs| == |es| + 1
    ensures var a', p' := End(vs[k + 3], es[k].atA), End(vs[k + 3], !es[k].atA);
      AtRest(a') && AtRest(p') && Una(a') == Nxt(a') && a'.w == a.w + bytes && Accepted(p') == a'.w
  {
    hide Apply, Sender, Receiver, Prefix, StateFlags, SegOk, Run, Slot, Channel;
    var atA := es[k].atA;
    Writes(a, p, bytes);
    var a1, g := Apply(a, DoSend(bytes, Sent)).e, st1.s;
    assert g == Apply(a, DoSend(bytes, Sent)).sent[0];
    RestNumbers(p);
    RestNumbers(a);
    Numbers(a, p);
    SentIsOk(vs, es, k, g);
    IsAck(a1, g);
    AcksBelow(vs, es, k + 1, g, !atA);
    Acknowledges(p, a1, g, st1.iss);
    var p1, h := Apply(p, st1).e, st2.s;
    assert h == Apply(p, st1).sent[0];
    SegmentsTellAll(vs, es, k + 1, h);
    SentIsOk(vs, es, k + 1, h);
    OpenFlags(a1);
    RestNumbers(p1);
    AcksAll(a1, p1, h);
    NextOf(a1, p1);
    IsAcked(a1, p1, h, st2.iss);
  }
}
