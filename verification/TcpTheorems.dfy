/** What a user of the stack may rely on, for every run of two endpoints over a channel that
    loses, reorders and duplicates. */
module TcpTheorems {
  import opened Common
  import opened SeqNum
  import opened TcpModel
  import opened TcpSafety
  import opened TcpClose
  import TcpSock

  // ---------------------------------------------------------------- delivery

  predicate Delivers(s: Endpoint, r: Endpoint) {
    && r.rd <= Accepted(r) <= s.w
    && (r.t.finIn ==> s.closed && Accepted(r) == s.w)
  }

  lemma PrefixDelivers(s: Endpoint, r: Endpoint)
    requires Prefix(s, r) && Receiver(r)
    ensures Delivers(s, r)
  {
  }

  /** End to end delivery: in every world of every run, in both directions, the bytes read plus
      the receive buffer are a prefix of the bytes written by the other side, and fin_in is set
      only when they are all of them. */
  lemma EndToEnd(vs: seq<World>, es: seq<Event>, k: nat)
    requires Run(vs, es) && k < |vs|
    ensures Delivers(vs[k].a, vs[k].b) && Delivers(vs[k].b, vs[k].a)
  {
    hide Prefix, Receiver, Delivers, Next;
    RunInv(vs, es, k);
    PrefixDelivers(vs[k].a, vs[k].b);
    PrefixDelivers(vs[k].b, vs[k].a);
  }

  /** What has left the send buffer: the acknowledged bytes. */
  function Acked(e: Endpoint): seq<Byte> {
    e.w[..Max(|e.w| - |e.t.sbuf|, 0)]
  }

  predicate HoldsUnacked(s: Endpoint, r: Endpoint) {
    && Suffix(s.t.sbuf, s.w)
    && Acked(s) + s.t.sbuf == s.w
    && Acked(s) <= Accepted(r)
    && (FinAcked(s) ==> r.t.finIn && Accepted(r) == s.w)
  }

  lemma BondHolds(s: Endpoint, r: Endpoint)
    requires Bond(s, r)
    ensures HoldsUnacked(s, r)
  {
    hide Slot;
    assert Acked(s) + s.t.sbuf == s.w;
    if s.started && !s.t.synOut {
      assert |Acked(s)| <= |Accepted(r)|;
    }
  }

  /** Nothing is forgotten early: the send buffer is exactly the written bytes that are not
      acknowledged, a byte leaves it only after the peer accepted it, and fin_out is cleared
      after close only once the peer accepted every byte and the FIN. */
  lemma BufferKeepsUnacked(vs: seq<World>, es: seq<Event>, k: nat)
    requires Run(vs, es) && k < |vs|
    ensures HoldsUnacked(vs[k].a, vs[k].b) && HoldsUnacked(vs[k].b, vs[k].a)
  {
    hide Core, Prefix, Next, HoldsUnacked;
    RunInv(vs, es, k);
    BondHolds(vs[k].a, vs[k].b);
    BondHolds(vs[k].b, vs[k].a);
  }

  // ---------------------------------------------------------------- the sender window

  predicate InWindowOf(e: Endpoint) {
    var t := e.t;
    && t.una == Plus(t.iss, 1 + |Acked(e)| + Bit(FinAcked(e)))
    && 0 <= Diff(t.nxt, t.una) <= |t.sbuf| + Bit(t.finOut && t.sbuf == [])
    && (FinAcked(e) ==> t.sbuf == [])
    && var (doff, dlen) := SendInfo(t, false);
       0 <= doff && (0 <= dlen ==> doff + dlen <= |t.sbuf|)
  }

  lemma PlusOfSlot(base: Seq, x: Seq)
    ensures x == Plus(base, Slot(base, x))
  {
  }

  /** una stands behind the acknowledged bytes (and the acknowledged FIN), nxt never runs past
      the buffered bytes plus one sent FIN, and the data to send lies inside the buffer. */
  lemma SenderWindow(e: Endpoint)
    requires Local(e) && e.started && !e.t.synOut
    ensures Suffix(e.t.sbuf, e.w) && InWindowOf(e)
  {
    WindowSlots(e);
    PlusOfSlot(e.t.iss, e.t.una);
  }

  /** In flight, a FIN stands behind every byte its closed sender ever wrote and carries no
      data, and data is the written bytes of its sequence numbers. */
  lemma SegmentsInFlight(vs: seq<World>, es: seq<Event>, k: nat, g: Segment, atA: bool)
    requires Run(vs, es) && k < |vs| && g in SentBy(vs[k], atA) && !g.rst && !g.syn
    ensures var e := End(vs[k], atA); var p := Slot(e.t.iss, g.seq_) - 1;
      && e.started && 0 <= p
      && (g.fin ==> e.closed && p == |e.w| && g.data == [])
      && (g.data != [] ==> p + |g.data| <= |e.w| && g.data == e.w[p..p + |g.data|])
  {
    hide Next;
    RunInv(vs, es, k);
    assert SegOk(End(vs[k], atA), g);
  }

  lemma WindowInEveryRun(vs: seq<World>, es: seq<Event>, k: nat)
    requires Run(vs, es) && k < |vs|
    ensures var a := vs[k].a; a.started && !a.t.synOut ==> Suffix(a.t.sbuf, a.w) && InWindowOf(a)
    ensures var b := vs[k].b; b.started && !b.t.synOut ==> Suffix(b.t.sbuf, b.w) && InWindowOf(b)
  {
    hide Next, Core, StateFlags, InWindowOf;
    RunInv(vs, es, k);
    if vs[k].a.started && !vs[k].a.t.synOut { SenderWindow(vs[k].a); }
    if vs[k].b.started && !vs[k].b.t.synOut { SenderWindow(vs[k].b); }
  }

  // ---------------------------------------------------------------- receive accounting

  /** Right edge of the window a receiver advertises, as a slot of the peer's stream. */
  function RightEdge(e: Endpoint): nat {
    Rcv(e) + RcvWindow(e.t)
  }

  lemma ReceiveAccounting(e: Endpoint)
    requires Local(e) && e.t.irsValid
    ensures e.t.rcvNxt == Plus(e.t.irs, 1 + |Accepted(e)| + Bit(e.t.finIn))
    ensures RightEdge(e) == 1 + |e.rd| + TCP_RBUF_SIZE + Bit(e.t.finIn)
  {
    PlusOfSlot(e.t.irs, e.t.rcvNxt);
  }

  lemma GrowsTrans(e: Endpoint, f: Endpoint, g: Endpoint)
    requires Grows(e, f) && Grows(f, g)
    ensures Grows(e, g)
  {
  }

  /** Along a run histories only grow: what was written, read, accepted or closed stays so. */
  lemma {:induction false} RunGrows(vs: seq<World>, es: seq<Event>, i: nat, j: nat)
    requires Run(vs, es) && i <= j < |vs|
    ensures Grows(vs[i].a, vs[j].a) && Grows(vs[i].b, vs[j].b)
    decreases j
  {
    hide Next, Inv;
    RunInv(vs, es, i);
    if i < j {
      RunGrows(vs, es, i, j - 1);
      RunInv(vs, es, j - 1);
      NextKeepsInv(vs[j - 1], vs[j], es[j - 1].atA, es[j - 1].st);
      GrowsTrans(vs[i].a, vs[j - 1].a, vs[j].a);
      GrowsTrans(vs[i].b, vs[j - 1].b, vs[j].b);
    }
  }

  /** rcv.nxt counts the SYN, the accepted bytes and the accepted FIN; the advertised right
      edge counts the bytes read and the buffer, so over a run it never moves left. */
  lemma RightEdgeNeverShrinks(vs: seq<World>, es: seq<Event>, i: nat, j: nat, atA: bool)
    requires Run(vs, es) && i <= j < |vs| && End(vs[i], atA).t.irsValid
    ensures var d, e := End(vs[i], atA), End(vs[j], atA);
      && e.t.irsValid && RightEdge(d) <= RightEdge(e)
      && RightEdge(e) == 1 + |e.rd| + TCP_RBUF_SIZE + Bit(e.t.finIn)
  {
    hide Next, Core, StateFlags;
    RunGrows(vs, es, i, j);
    RunInv(vs, es, i);
    RunInv(vs, es, j);
    ReceiveAccounting(End(vs[i], atA));
    ReceiveAccounting(End(vs[j], atA));
  }

  // ---------------------------------------------------------------- closing

  predicate FullyDelivered(s: Endpoint, r: Endpoint) {
    && s.closed && s.t.sbuf == []
    && s.t.una == Plus(s.t.iss, |s.w| + 2)
    && r.t.finIn && Accepted(r) == s.w
  }

  lemma FinAckedDelivers(s: Endpoint, r: Endpoint)
    requires Bond(s, r) && s.started && !s.t.synOut && FinAcked(s)
    ensures FullyDelivered(s, r)
  {
    BondHolds(s, r);
    PlusOfSlot(s.t.iss, s.t.una);
  }

  predicate ClosesSafely(s: Endpoint, r: Endpoint) {
    && (s.t.state in {FinWait2, TimeWait} ==> !s.t.finOut && FullyDelivered(s, r))
    && (s.t.state in {FinWait1, Closing, LastAck} ==> s.t.finOut)
    && (s.t.state in {Closing, TimeWait} ==> s.t.finIn && Accepted(s) == r.w)
    && (s.t.state in {Established, FinWait1, FinWait2} ==> !s.t.finIn)
    && (s.t.state in {CloseWait, LastAck} ==> r.closed && Accepted(s) == r.w)
  }

  lemma LinkedClosesSafely(s: Endpoint, r: Endpoint)
    requires Bond(s, r) && StateFlags(s) && Ended(s, r)
    ensures ClosesSafely(s, r)
  {
    hide Core;
    if s.t.state in {FinWait2, TimeWait} { FinAckedDelivers(s, r); }
  }

  /** Close safety: FIN_WAIT_2 and TIME_WAIT mean that every written byte and our FIN are
      acknowledged, and that the peer has accepted them all; the other closing states keep
      fin_out, and CLOSING and TIME_WAIT keep fin_in. CLOSE_WAIT and LAST_ACK mean that the peer has
      closed and every byte it wrote has been accepted. */
  lemma CloseSafety(vs: seq<World>, es: seq<Event>, k: nat)
    requires Run(vs, es) && k < |vs|
    ensures ClosesSafely(vs[k].a, vs[k].b) && ClosesSafely(vs[k].b, vs[k].a)
  {
    hide Next, Core, Prefix, ClosesSafely, StateFlags, Ended;
    RunInv(vs, es, k);
    EndedInEveryRun(vs, es, k);
    LinkedClosesSafely(vs[k].a, vs[k].b);
    LinkedClosesSafely(vs[k].b, vs[k].a);
  }

  /** LAST_ACK reaches CLOSED through a segment without RST and SYN only when every written
      byte and our FIN are acknowledged. */
  lemma LastAckSafety(vs: seq<World>, es: seq<Event>, k: nat)
    requires Run(vs, es) && k < |es| && es[k].st.DoDeliver?
    requires var atA := es[k].atA; End(vs[k], atA).t.state.LastAck? && End(vs[k + 1], atA).t.state.Closed?
    requires !es[k].st.s.rst && !es[k].st.s.syn
    ensures FullyDelivered(End(vs[k + 1], es[k].atA), End(vs[k + 1], !es[k].atA))
  {
    hide Core, Prefix, AckProcess, SeqAcceptable, Apply;
    var atA := es[k].atA;
    RunInv(vs, es, k);
    RunInv(vs, es, k + 1);
    assert Next(vs[k], vs[k + 1], atA, es[k].st);
    LastAckClears(End(vs[k], atA), es[k].st);
    FinAckedDelivers(End(vs[k + 1], atA), End(vs[k + 1], !atA));
  }

  lemma LastAckClears(a: Endpoint, st: Step)
    requires st.DoDeliver? && !st.s.rst && !st.s.syn
    requires StateFlags(a) && a.t.state.LastAck? && Apply(a, st).e.t.state.Closed?
    ensures var a' := Apply(a, st).e; a'.started && a'.closed && !a'.t.synOut && !a'.t.finOut
  {
    hide SeqAcceptable, Connect, Send, Close, TimerTmo;
  }

  // ---------------------------------------------------------------- acceptance test

  /** The acceptance test on unwrapped slots, as RFC 793 section 3.3 tabulates it. */
  predicate AcceptTable(len: nat, win: nat, p: int, rcv: int) {
    if len == 0 then
      if win == 0 then p == rcv else rcv <= p < rcv + win
    else
      win > 0 && (rcv <= p < rcv + win || rcv <= p + len - 1 < rcv + win)
  }

  /** The code's comparison of wrapped numbers decides exactly that table for any window and
      segment inside one half of the number space, wherever the numbers wrap. */
  lemma AcceptanceTest(t: Tcb, s: Segment, base: Seq)
    requires Slot(base, t.rcvNxt) + RcvWindow(t) <= HALF
    requires Slot(base, s.seq_) < HALF && Slot(base, s.seq_) + SeqLen(s) <= HALF
    ensures SeqAcceptable(t, s) <==>
      AcceptTable(SeqLen(s), RcvWindow(t), Slot(base, s.seq_), Slot(base, t.rcvNxt))
  {
    var p, r, n, win := Slot(base, s.seq_), Slot(base, t.rcvNxt), SeqLen(s), RcvWindow(t);
    if win > 0 {
      InWindowSlots(t, s.seq_, base);
      if n > 0 {
        SlotPlus(base, s.seq_, n - 1);
        InWindowSlots(t, Plus(s.seq_, n - 1), base);
      }
    }
    if p == r { SlotInjective(base, s.seq_, t.rcvNxt); }
  }

  lemma InWindowSlots(t: Tcb, x: Seq, base: Seq)
    requires Slot(base, t.rcvNxt) + RcvWindow(t) <= HALF && Slot(base, x) < HALF && RcvWindow(t) > 0
    ensures InWindow(t, x) <==> Slot(base, t.rcvNxt) <= Slot(base, x) < Slot(base, t.rcvNxt) + RcvWindow(t)
  {
    DiffIsSlotDifference(base, t.rcvNxt, x);
    SlotPlus(base, t.rcvNxt, RcvWindow(t) - 1);
    DiffIsSlotDifference(base, x, Plus(t.rcvNxt, RcvWindow(t) - 1));
  }

  // ---------------------------------------------------------------- a silent peer

  /** What is left of a connection whose peer never answers: the timer time that passes, the
      segments retransmitted and the final record. Sends succeed and nothing else happens. */
  datatype Silence = Silence(elapsed: nat, sent: seq<Segment>, end: Tcb)

  /** Retries left before the connection is given up. */
  function RetriesLeft(t: Tcb): nat {
    match t.ostate
    case Idle => 0
    case Sending => Max(t.rexmitMax, 1) + 1
    case Rexmit => Max(t.rexmitMax - t.rexmitCnt, 0)
  }

  /** Every expiry stops the timer or leaves one retry less. */
  lemma ExpiryUsesRetry(t: Tcb)
    ensures var o := TimerTmo(t, Sent); o.t.timer.None? || RetriesLeft(o.t) < RetriesLeft(t)
  {
    hide TcbOk, Retransmit, RexmitTmo;
    RexmitEither(t.(timer := None), Sent);
  }

  function Wait(t: Tcb): (r: Silence)
    decreases t.timer.Some?, RetriesLeft(t)
  {
    if t.timer.None? then Silence(0, [], t)
    else
      var o := TimerTmo(t, Sent);
      ExpiryUsesRetry(t);
      var rest := Wait(o.t);
      Silence(t.timer.value + rest.elapsed, o.sent + rest.sent, rest.end)
  }

  /** A SYN, data or a FIN waits for its acknowledgement. */
  predicate Outstanding(t: Tcb) {
    t.synOut || t.finOut || (t.sbuf != [] && t.mss > 0)
  }

  lemma RetransmitSends(t: Tcb)
    ensures |Retransmit(t, Sent).sent| == Bit(Outstanding(t))
    ensures Outstanding(Retransmit(t, Sent).t) == Outstanding(t)
    ensures !RetransmitFails(t, Sent)
  {
  }

  /** Timer time from an armed REXMIT timer to the end, with `retries` retransmissions left. */
  function BackoffTime(rto: nat, retries: nat): nat
    decreases retries
  {
    rto + if retries == 0 then 0 else BackoffTime(Min(2 * rto, TCP_RTO_MAX), retries - 1)
  }

  lemma OutstandingFrame(t: Tcb, t': Tcb)
    requires t.synOut == t'.synOut && t.finOut == t'.finOut && t.sbuf == t'.sbuf && t.mss == t'.mss
    ensures Outstanding(t) == Outstanding(t')
  {
  }

  /** One expiry in REXMIT. */
  lemma RexmitExpiry(t: Tcb)
    requires t.ostate.Rexmit? && t.timer == Some(t.rto)
    ensures var o := TimerTmo(t, Sent);
      if t.rexmitCnt + 1 > t.rexmitMax then o.t.state.Closed? && o.t.timer.None? && o.sent == []
      else
        && o.t.ostate.Rexmit? && o.t.rto == Min(2 * t.rto, TCP_RTO_MAX) && o.t.timer == Some(o.t.rto)
        && o.t.rexmitCnt == t.rexmitCnt + 1 && o.t.rexmitMax == t.rexmitMax
        && Outstanding(o.t) == Outstanding(t) && |o.sent| == Bit(Outstanding(t))
  {
    hide Retransmit, RetransmitFails, Outstanding;
    var c := t.(timer := None, rexmitCnt := t.rexmitCnt + 1);
    RetransmitSends(c);
    OutstandingFrame(c, t);
    OutstandingFrame(TimerTmo(t, Sent).t, Retransmit(c, Sent).t);
  }

  /** In REXMIT every expiry costs one retry, so the connection ends after exactly the retries
      that are left, each with one retransmission if anything is outstanding. */
  lemma {:induction false} RexmitEnds(t: Tcb)
    requires t.ostate.Rexmit? && t.timer == Some(t.rto)
    ensures var r := Wait(t);
      && r.end.state.Closed? && r.end.timer.None?
      && r.elapsed == BackoffTime(t.rto, RetriesLeft(t))
      && |r.sent| == (if Outstanding(t) then RetriesLeft(t) else 0)
    decreases RetriesLeft(t)
  {
    hide TimerTmo, Outstanding;
    RexmitExpiry(t);
    if t.rexmitCnt + 1 <= t.rexmitMax { RexmitEnds(TimerTmo(t, Sent).t); }
  }

  /** The expiry in SENDING: it retransmits and doubles the time without a cap. */
  lemma SendingExpiry(t: Tcb)
    requires t.ostate.Sending? && t.timer == Some(t.rto)
    ensures var o := TimerTmo(t, Sent);
      && o.t.ostate.Rexmit? && o.t.rto == 2 * t.rto && o.t.timer == Some(o.t.rto)
      && o.t.rexmitCnt == 1 && o.t.rexmitMax == t.rexmitMax
      && Outstanding(o.t) == Outstanding(t) && |o.sent| == Bit(Outstanding(t))
  {
    hide Retransmit, RetransmitFails, Outstanding;
    var c := t.(timer := None);
    RetransmitSends(c);
    OutstandingFrame(c, t);
    OutstandingFrame(TimerTmo(t, Sent).t, Retransmit(c, Sent).t);
  }

  lemma SendingEnds(t: Tcb)
    requires t.ostate.Sending? && t.timer == Some(t.rto)
    ensures var r := Wait(t); var n := Max(t.rexmitMax, 1);
      && r.end.state.Closed? && r.end.timer.None?
      && r.elapsed == t.rto + BackoffTime(2 * t.rto, n - 1)
      && |r.sent| == (if Outstanding(t) then n else 0)
  {
    hide TimerTmo, Outstanding;
    SendingExpiry(t);
    RexmitEnds(TimerTmo(t, Sent).t);
  }

  /** A silent peer: a send event in IDLE followed by silence ends the connection after
      exactly 31000 ms of timer time. If a SYN, data or a FIN is outstanding there are exactly
      five retransmissions. If nothing is outstanding the timer runs all the same, and the
      connection is given up without a single segment. */
  lemma SilentPeer(t: Tcb)
    requires t.ostate.Idle? && TcbOk(t)
    ensures var r := Wait(OutEvent(t, Sent).t);
      && r.end.state.Closed? && r.end.timer.None?
      && r.elapsed == 31000
      && |r.sent| == (if Outstanding(t) then 5 else 0)
  {
    hide Transmit, Wait, Outstanding;
    var t' := OutEvent(t, Sent).t;
    OutstandingFrame(t, t');
    SendingEnds(t');
    assert BackoffTime(8000, 1) == 16000;
    assert BackoffTime(4000, 3) == 4000 + 8000 + BackoffTime(8000, 1);
  }

  lemma {:induction false} TcbOkInEveryRun(vs: seq<World>, es: seq<Event>, k: nat)
    requires Run(vs, es) && k < |vs|
    ensures TcbOk(vs[k].a.t) && TcbOk(vs[k].b.t)
  {
    hide Connect, Send, Close, Inbound, TimerTmo, TcbOk;
    if k == 0 {
      FreshTcbOk();
    } else {
      TcbOkInEveryRun(vs, es, k - 1);
      assert Next(vs[k - 1], vs[k], es[k - 1].atA, es[k - 1].st);
      if es[k - 1].atA { TcbOkKept(vs[k - 1].a, es[k - 1].st); } else { TcbOkKept(vs[k - 1].b, es[k - 1].st); }
    }
  }

  lemma FreshTcbOk()
    ensures TcbOk(Fresh(Closed)) && TcbOk(Fresh(Listen))
  {
  }

  /** Every event keeps the timers in agreement and the send buffer within its capacity. */
  lemma TcbOkKept(e: Endpoint, st: Step)
    requires TcbOk(e.t)
    ensures TcbOk(Apply(e, st).e.t)
  {
    hide Connect, Send, Close, Inbound, TimerTmo;
  }

  /** A silent peer, in any run: an endpoint that is idle, hears a send event and then nothing
      more is closed 31000 ms of timer time later, after five retransmissions if anything is
      outstanding and after none otherwise. */
  lemma SilentPeerInEveryRun(vs: seq<World>, es: seq<Event>, k: nat, atA: bool)
    requires Run(vs, es) && k < |vs| && End(vs[k], atA).t.ostate.Idle?
    ensures var t := End(vs[k], atA).t; var r := Wait(OutEvent(t, Sent).t);
      r.end.state.Closed? && r.elapsed == 31000 && |r.sent| == (if Outstanding(t) then 5 else 0)
  {
    hide Next, Wait, OutEvent, Outstanding, TcbOk;
    TcbOkInEveryRun(vs, es, k);
    SilentPeer(End(vs[k], atA).t);
  }

  lemma NxtOkOf(e: Endpoint)
    requires Core(e) && e.started && |e.t.sbuf| <= TCP_SBUF_SIZE
    ensures TcpSock.NxtOk(e.t)
  {
    DiffIsSlotDifference(e.t.iss, e.t.nxt, e.t.una);
  }

  /** What the in-place methods of the connection demand of nxt holds in every run, so they do
      on the record what the model does. */
  lemma NxtOkInEveryRun(vs: seq<World>, es: seq<Event>, k: nat)
    requires Run(vs, es) && k < |vs|
    ensures vs[k].a.started ==> TcpSock.NxtOk(vs[k].a.t) && |vs[k].a.t.sbuf| <= TCP_SBUF_SIZE
    ensures vs[k].b.started ==> TcpSock.NxtOk(vs[k].b.t) && |vs[k].b.t.sbuf| <= TCP_SBUF_SIZE
  {
    hide Next, Core, StateFlags, TcpSock.NxtOk;
    RunInv(vs, es, k);
    TcbOkInEveryRun(vs, es, k);
    if vs[k].a.started { NxtOkOf(vs[k].a); }
    if vs[k].b.started { NxtOkOf(vs[k].b); }
  }
}
