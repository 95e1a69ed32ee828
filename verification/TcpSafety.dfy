/** Two connected endpoints over a channel that loses, reorders and duplicates, and what holds
    in every state they can reach: the sender window, the receive accounting, the agreement of
    connection state and flags, and end to end delivery. */
module TcpSafety {
  import opened Common
  import opened SeqNum
  import opened TcpModel

  /** A connection with its history: the bytes the application wrote and read, whether it
      closed its side, and whether the connection was ever opened. */
  datatype Endpoint = Endpoint(t: Tcb, w: seq<Byte>, rd: seq<Byte>, closed: bool, started: bool)

  /** Every byte received in order so far. */
  function Accepted(e: Endpoint): seq<Byte> {
    e.rd + e.t.rbuf
  }

  /** Sequence slots: 0 is the SYN, 1..|w| the written bytes, |w|+1 the FIN. */
  function Una(e: Endpoint): nat { Slot(e.t.iss, e.t.una) }
  function Nxt(e: Endpoint): nat { Slot(e.t.iss, e.t.nxt) }
  function Rcv(e: Endpoint): nat { Slot(e.t.irs, e.t.rcvNxt) }

  predicate FinAcked(e: Endpoint) {
    e.closed && !e.t.finOut
  }

  // ---------------------------------------------------------------- invariants of one endpoint

  /** `b` is the end of `w`. */
  predicate Suffix(b: seq<Byte>, w: seq<Byte>) {
    |b| <= |w| && b == w[|w| - |b|..]
  }

  /** The sender window, with una and nxt given as slots: the send buffer is the
      unacknowledged end of the written bytes, una stands right before it (behind the FIN once
      that is acknowledged), nxt stays within it, and passes a FIN only on an empty buffer. */
  predicate Window(started: bool, w: seq<Byte>, closed: bool,
                   synOut: bool, finOut: bool, idle: bool, sbuf: seq<Byte>, una: int, nxt: int)
  {
    && |w| + 2 < HALF
    && (finOut ==> closed)
    && Suffix(sbuf, w)
    && (closed && !finOut ==> sbuf == [])
    && if !started then w == [] && !closed && !synOut && idle
       else if synOut then una == 0 && 0 <= nxt <= (if idle then 0 else 1) && w == [] && !closed
       else
         && una == 1 + |w| - |sbuf| + Bit(closed && !finOut)
         && una <= nxt <= 1 + |w| + Bit(closed && sbuf == [])
  }

  predicate Sender(e: Endpoint) {
    Window(e.started, e.w, e.closed, e.t.synOut, e.t.finOut, e.t.ostate.Idle?, e.t.sbuf, Una(e), Nxt(e))
  }

  /** The receive accounting. */
  predicate Receiver(e: Endpoint) {
    && |e.t.rbuf| <= TCP_RBUF_SIZE
    && |Accepted(e)| + 2 < HALF
    && (e.started ==> e.t.synOut || e.t.irsValid)
    && if e.t.irsValid then e.started && Rcv(e) == 1 + |Accepted(e)| + Bit(e.t.finIn)
       else Accepted(e) == [] && !e.t.finIn
  }

  /** What each connection state says about the flags. */
  predicate StateFlags(e: Endpoint) {
    var t := e.t;
    match t.state
    case Free => true
    case Closed => true
    case Listen => !e.started
    case SynSent => e.started && t.synOut && !t.irsValid
    case SynRecvd => e.started && t.synOut && t.irsValid && !e.closed && !t.finIn
    case Established => Synced(e) && !e.closed && !t.finIn
    case FinWait1 => Synced(e) && e.closed && t.finOut && !t.finIn
    case FinWait2 => Synced(e) && FinAcked(e) && !t.finIn
    case Closing => Synced(e) && e.closed && t.finOut && t.finIn
    case TimeWait => Synced(e) && FinAcked(e) && t.finIn
    case CloseWait => Synced(e) && !e.closed
    case LastAck => Synced(e) && e.closed && t.finOut
  }

  predicate Synced(e: Endpoint) {
    e.started && !e.t.synOut && e.t.irsValid
  }

  predicate Core(e: Endpoint) {
    Sender(e) && Receiver(e)
  }

  predicate Local(e: Endpoint) {
    Core(e) && StateFlags(e)
  }

  /** A segment this endpoint may have in flight: a SYN sits at slot 0, data is the written
      bytes of its slots, a FIN sits right behind the last written byte of a closed side, and
      an acknowledgement names a slot already received. */
  predicate SegOk(e: Endpoint, s: Segment) {
    s.rst || SegAt(e.started, e.w, e.closed, e.t.iss, e.t.irsValid, e.t.irs, Rcv(e), s)
  }

  predicate SegAt(started: bool, w: seq<Byte>, closed: bool, iss: Seq,
                  irsValid: bool, irs: Seq, rcv: nat, s: Segment)
  {
    && started
    && (s.syn ==> s.seq_ == iss && s.data == [] && !s.fin)
    && (!s.syn ==> s.isAck && DataAt(w, closed, Slot(iss, s.seq_), s))
    && (s.isAck ==> irsValid && 1 <= Slot(irs, s.ack) <= rcv)
  }

  predicate DataAt(w: seq<Byte>, closed: bool, p: nat, s: Segment) {
    && 1 <= p <= |w| + 2
    && (s.data != [] ==> p - 1 + |s.data| <= |w| && s.data == w[p - 1..p - 1 + |s.data|])
    && (s.fin ==> closed && p == |w| + 1 && s.data == [])
  }

  predicate AllOk(e: Endpoint, sent: seq<Segment>) {
    forall s :: s in sent ==> SegOk(e, s)
  }

  // ---------------------------------------------------------------- invariant of the pair

  /** `r` has received a prefix of what `s` wrote, and `s` has dropped nothing `r` lacks. */
  predicate Prefix(s: Endpoint, r: Endpoint) {
    if r.t.irsValid then
      && s.started && r.t.irs == s.t.iss
      && Accepted(r) <= s.w
      && (r.t.finIn ==> s.closed && Accepted(r) == s.w)
      && Una(s) <= Rcv(r)
    else
      s.started ==> s.t.synOut
  }

  predicate Channel(s: Endpoint, ch: set<Segment>) {
    forall g :: g in ch ==> SegOk(s, g)
  }

  /** The two endpoints and every segment either of them ever handed to IP. */
  datatype World = World(a: Endpoint, b: Endpoint, ab: set<Segment>, ba: set<Segment>)

  /** One end of the world, and all it ever sent. */
  function End(v: World, atA: bool): Endpoint {
    if atA then v.a else v.b
  }

  function SentBy(v: World, atA: bool): set<Segment> {
    if atA then v.ab else v.ba
  }

  predicate Inv(v: World) {
    && Local(v.a) && Local(v.b)
    && Prefix(v.a, v.b) && Prefix(v.b, v.a)
    && Channel(v.a, v.ab) && Channel(v.b, v.ba)
  }

  // ---------------------------------------------------------------- steps

  datatype Step =
    | DoConnect(iss: Seq, x: Xmit)
    | DoSend(bytes: seq<Byte>, x: Xmit)
    | DoRecv(len: nat)
    | DoClose(x: Xmit)
    | DoDeliver(s: Segment, iss: Seq, x: Xmit)
    | DoTimeout(x: Xmit)
    | DoMsl
    | DoDestroy

  datatype Act = Act(e: Endpoint, sent: seq<Segment>)

  /** What one event does to an endpoint and its history. Opening happens once. */
  function Apply(e: Endpoint, st: Step): Act {
    match st
    case DoConnect(iss, x) =>
      var o := Connect(e.t, iss, x);
      Act(e.(t := o.t, started := true), o.sent)
    case DoSend(bytes, x) =>
      var o := Send(e.t, bytes, x);
      Act(e.(t := o.t, w := e.w + bytes[..Taken(e.t, |bytes|)]), o.sent)
    case DoRecv(len) =>
      Act(e.(t := Recv(e.t, len), rd := e.rd + e.t.rbuf[..Given(e.t, len)]), [])
    case DoClose(x) =>
      var o := Close(e.t, x);
      Act(e.(t := o.t, closed := e.closed || CanSend(e.t)), o.sent)
    case DoDeliver(s, iss, x) =>
      var o := Inbound(e.t, s, iss, x);
      Act(e.(t := o.t, started := e.started || (e.t.state.Listen? && !o.t.state.Listen?)), o.sent)
    case DoTimeout(x) =>
      var o := TimerTmo(e.t, x);
      Act(e.(t := o.t), o.sent)
    case DoMsl => Act(e.(t := e.t.(state := Free, msl := false)), [])
    case DoDestroy => Act(e.(t := Destroy(e.t)), [])
  }

  /** When the event can happen: a segment is delivered only if the peer sent it at some time,
      a connection is started once, a timer fires only while it runs, and a side writes fewer
      than 2^31 - 2 bytes. */
  predicate Enabled(e: Endpoint, inbox: set<Segment>, st: Step) {
    match st
    case DoConnect(_, _) => e.t.state.Closed? && !e.started
    case DoSend(bytes, _) => |e.w| + |bytes| + 2 < HALF
    case DoDeliver(s, _, _) => s in inbox
    case DoTimeout(_) => e.t.timer.Some?
    case DoMsl => e.t.msl
    case _ => true
  }

  function ToSet(sent: seq<Segment>): set<Segment> {
    set s | s in sent
  }

  predicate Next(v: World, v': World, atA: bool, st: Step) {
    if atA then
      && Enabled(v.a, v.ba, st)
      && var r := Apply(v.a, st);
         v' == v.(a := r.e, ab := v.ab + ToSet(r.sent))
    else
      && Enabled(v.b, v.ab, st)
      && var r := Apply(v.b, st);
         v' == v.(b := r.e, ba := v.ba + ToSet(r.sent))
  }

  predicate Init(v: World) {
    && (v.a.t == Fresh(Closed) || v.a.t == Fresh(Listen))
    && (v.b.t == Fresh(Closed) || v.b.t == Fresh(Listen))
    && v.a == Endpoint(v.a.t, [], [], false, false)
    && v.b == Endpoint(v.b.t, [], [], false, false)
    && v.ab == {} && v.ba == {}
  }

  datatype Event = Event(atA: bool, st: Step)

  /** A run: consecutive worlds linked by events. */
  predicate Run(vs: seq<World>, es: seq<Event>) {
    && |vs| == |es| + 1
    && Init(vs[0])
    && forall i :: 0 <= i < |es| ==> Next(vs[i], vs[i + 1], es[i].atA, es[i].st)
  }

  // ---------------------------------------------------------------- sending keeps the window

  lemma WindowSlots(e: Endpoint)
    requires Sender(e) && e.started
    ensures Diff(e.t.nxt, e.t.una) == Nxt(e) - Una(e)
    ensures e.t.una == e.t.nxt <==> Una(e) == Nxt(e)
  {
    DiffIsSlotDifference(e.t.iss, e.t.nxt, e.t.una);
    if Una(e) == Nxt(e) { SlotInjective(e.t.iss, e.t.una, e.t.nxt); }
  }

  /** The preconditions every send shares. */
  predicate CanXmit(e: Endpoint) {
    Core(e) && e.started
  }

  /** A segment built at slot `p` from the matching offset of the send buffer. */
  lemma BuildOk(e: Endpoint, q: Seq, doff: int, dlen: int, fin: bool, x: Xmit)
    requires CanXmit(e)
    requires e.t.synOut ==> q == e.t.iss && dlen == 0 && !fin
    requires !e.t.synOut ==> 0 <= doff && 0 <= dlen && doff + dlen <= |e.t.sbuf|
    requires !e.t.synOut ==> Slot(e.t.iss, q) == 1 + |e.w| - |e.t.sbuf| + doff
    requires fin ==> e.t.finOut && e.t.sbuf == []
    ensures SegOk(e, Build(e.t, q, doff, dlen, fin, x))
  {
  }

  /** nxt moves by the data, SYN and FIN just sent. */
  lemma TransmitWindow(e: Endpoint, x: Xmit)
    requires CanXmit(e) && (e.t.synOut ==> Nxt(e) == 0)
    ensures Sender(e.(t := Transmit(e.t, x).t.(ostate := Sending)))
  {
    hide Build, TcbOk;
    WindowSlots(e);
    var (_, dlen) := SendInfo(e.t, false);
    var n := dlen + Bit(e.t.synOut) + Bit(e.t.finOut && e.t.sbuf == []);
    if dlen >= 0 && n > 0 { SlotPlus(e.t.iss, e.t.nxt, n); }
  }

  lemma TransmitSegs(e: Endpoint, x: Xmit)
    requires CanXmit(e) && (e.t.synOut ==> Nxt(e) == 0)
    ensures AllOk(e, Transmit(e.t, x).sent)
  {
    WindowSlots(e);
    var (doff, dlen) := SendInfo(e.t, false);
    var fin := e.t.finOut && e.t.sbuf == [];
    if dlen >= 0 && dlen + Bit(e.t.synOut) + Bit(fin) > 0 {
      if e.t.synOut { SlotInjective(e.t.iss, e.t.nxt, e.t.iss); }
      BuildOk(e, e.t.nxt, doff, dlen, fin, x);
    }
  }

  lemma RetransmitWindow(e: Endpoint, x: Xmit)
    requires CanXmit(e)
    ensures Sender(e.(t := Retransmit(e.t, x).t))
  {
    hide Build, TcbOk;
    var (_, dlen) := SendInfo(e.t, true);
    SlotPlus(e.t.iss, e.t.una, dlen);
    DiffIsSlotDifference(e.t.iss, Plus(e.t.una, dlen), e.t.nxt);
    SlotPlus(e.t.iss, e.t.nxt, Max(Diff(Plus(e.t.una, dlen), e.t.nxt), 0));
  }

  lemma RetransmitSegs(e: Endpoint, x: Xmit)
    requires CanXmit(e)
    ensures AllOk(e, Retransmit(e.t, x).sent)
  {
    var (doff, dlen) := SendInfo(e.t, true);
    if e.t.synOut { SlotInjective(e.t.iss, e.t.una, e.t.iss); }
    if dlen + Bit(e.t.synOut) + Bit(e.t.finOut) > 0 {
      BuildOk(e, e.t.una, doff, dlen, e.t.finOut && e.t.sbuf == [], x);
    }
  }

  lemma SenderFrame(e: Endpoint, e': Endpoint)
    requires Sender(e)
    requires e' == e.(t := e'.t) && e'.t == e.t.(ostate := e'.t.ostate, rto := e'.t.rto, timer := e'.t.timer)
    requires e.started && (e'.t.ostate.Idle? && e.t.synOut ==> e.t.ostate.Idle? || e.t.una == e.t.nxt)
    ensures Sender(e')
  {
  }

  lemma XmitReady(e: Endpoint)
    requires CanXmit(e) && (e.t.ostate.Idle? || e.t.una == e.t.nxt || e.t.finOut)
    ensures e.t.synOut ==> Nxt(e) == 0
  {
    WindowSlots(e);
  }

  lemma OutEventWindow(e: Endpoint, x: Xmit)
    requires CanXmit(e)
    ensures Sender(e.(t := OutEvent(e.t, x).t))
  {
    hide Transmit, Retransmit, TcbOk, Window, Slot;
    var t := e.t;
    var r := OutEvent(t, x).t;
    if t.ostate.Idle? || ((t.una == t.nxt || t.finOut) && MoreToSend(t)) {
      XmitReady(e);
      TransmitWindow(e, x);
      SenderFrame(e.(t := Transmit(t, x).t.(ostate := Sending)), e.(t := r));
    } else if t.una == t.nxt || t.finOut {
      SenderFrame(e, e.(t := r));
    } else if t.ostate.Rexmit? {
      RetransmitWindow(e.(t := SetOState(t, Rexmit)), x);
    }
  }

  /** A segment stays good while the history only grows. */
  predicate Grows(e: Endpoint, e': Endpoint) {
    && (e.started ==> e'.started && e'.t.iss == e.t.iss)
    && (e.t.irsValid ==> e'.t.irsValid && e'.t.irs == e.t.irs && Rcv(e) <= Rcv(e'))
    && e.w <= e'.w && e.rd <= e'.rd
    && (e.closed ==> e'.closed && e'.w == e.w)
    && (e.t.finIn ==> e'.t.finIn)
  }

  lemma SegGrows(e: Endpoint, e': Endpoint, s: Segment)
    requires SegOk(e, s) && Grows(e, e')
    ensures SegOk(e', s)
  {
  }

  lemma SegsGrow(e: Endpoint, e': Endpoint, sent: seq<Segment>)
    requires AllOk(e, sent) && Grows(e, e')
    ensures AllOk(e', sent)
  {
    forall s | s in sent ensures SegOk(e', s) { SegGrows(e, e', s); }
  }

  lemma OutEventSegs(e: Endpoint, x: Xmit)
    requires CanXmit(e)
    ensures AllOk(e, OutEvent(e.t, x).sent)
  {
    var t := e.t;
    if t.ostate.Idle? || ((t.una == t.nxt || t.finOut) && MoreToSend(t)) {
      WindowSlots(e);
      TransmitSegs(e, x);
    } else if t.una != t.nxt && !t.finOut && t.ostate.Rexmit? {
      var e1 := e.(t := SetOState(t, Rexmit));
      RetransmitSegs(e1, x);
      SegsGrow(e1, e, Retransmit(e1.t, x).sent);
    }
  }

  // ---------------------------------------------------------------- acknowledgements

  lemma SuffixDrop(b: seq<Byte>, w: seq<Byte>, k: nat)
    requires Suffix(b, w) && k <= |b|
    ensures Suffix(b[k..], w)
  {
  }

  /** Acknowledging slot `a`: the SYN first, then buffered bytes, then the FIN. */
  lemma AckSlots(w: seq<Byte>, closed: bool, synOut: bool, finOut: bool, idle: bool,
                 sbuf: seq<Byte>, una: int, nxt: int, a: int)
    requires Window(true, w, closed, synOut, finOut, idle, sbuf, una, nxt) && una < a <= nxt
    ensures var curr := a - una - Bit(synOut); var k := Min(curr, |sbuf|);
      0 <= curr && Window(true, w, closed, false, finOut && curr == k, idle, sbuf[k..], a, nxt)
  {
    SuffixDrop(sbuf, w, Min(a - una - Bit(synOut), |sbuf|));
  }

  /** An acknowledgement of slot `a` that is not of the future moves una up to it. */
  lemma AckWindow(e: Endpoint, ack: Seq)
    requires Sender(e) && e.started && 1 <= Slot(e.t.iss, ack) < HALF
    ensures var r := AckProcess(e.t, ack); var a := Slot(e.t.iss, ack); var e' := e.(t := r.t);
      && Sender(e')
      && Una(e') == (if r.ok then Max(Una(e), a) else Una(e))
      && (r.ok ==> !e'.t.synOut)
  {
    var t, a := e.t, Slot(e.t.iss, ack);
    AckInSlots(t, ack, t.iss);
    if Una(e) < a <= Nxt(e) {
      AckSlots(e.w, e.closed, t.synOut, t.finOut, t.ostate.Idle?, t.sbuf, Una(e), Nxt(e), a);
    }
  }

  /** What both endpoints know about each other. */
  predicate Bond(e: Endpoint, p: Endpoint) {
    Core(e) && Core(p) && Prefix(e, p) && Prefix(p, e)
  }

  /** An event took `e` to `e'` and sent `sent`, and everything still agrees with the peer. */
  predicate Good(e: Endpoint, e': Endpoint, p: Endpoint, sent: seq<Segment>) {
    Bond(e', p) && Grows(e, e') && AllOk(e', sent)
  }

  /** Connection state and timers play no part in that agreement. */
  lemma GoodFrame(e: Endpoint, e1: Endpoint, e2: Endpoint, p: Endpoint, sent: seq<Segment>)
    requires Good(e, e1, p, sent)
    requires e2 == e1.(t := e1.t.(state := e2.t.state, timer := e2.t.timer, msl := e2.t.msl))
    ensures Good(e, e2, p, sent)
  {
    SegsGrow(e1, e2, sent);
  }

  lemma GoodSeq(e: Endpoint, e1: Endpoint, e2: Endpoint, p: Endpoint, sent1: seq<Segment>, sent2: seq<Segment>)
    requires Good(e, e1, p, sent1) && Good(e1, e2, p, sent2)
    ensures Good(e, e2, p, sent1 + sent2)
  {
    SegsGrow(e1, e2, sent1);
  }

  lemma AckStep(e: Endpoint, p: Endpoint, s: Segment)
    requires Bond(e, p) && e.started && e.t.irsValid && SegOk(p, s) && !s.rst && s.isAck
    ensures var r := AckProcess(e.t, s.ack); var e' := e.(t := r.t);
      Good(e, e', p, []) && (r.ok ==> !e'.t.synOut)
  {
    AckWindow(e, s.ack);
  }

  lemma OutStep(e: Endpoint, p: Endpoint, x: Xmit)
    requires Bond(e, p) && e.started
    ensures var o := OutEvent(e.t, x); Good(e, e.(t := o.t), p, o.sent)
  {
    var o := OutEvent(e.t, x);
    OutEventWindow(e, x);
    OutEventSegs(e, x);
    SegsGrow(e, e.(t := o.t), o.sent);
  }

  // ---------------------------------------------------------------- data and FIN

  lemma PureAckOk(e: Endpoint)
    requires CanXmit(e) && !e.t.synOut
    ensures SegOk(e, PureAck(e.t))
  {
  }

  /** Accepting the bytes at the next slot keeps the prefix. */
  lemma AcceptBytes(e: Endpoint, p: Endpoint, d: seq<Byte>)
    requires Receiver(e) && e.t.irsValid && Sender(p) && Prefix(p, e) && |d| <= RcvWindow(e.t)
    requires d != [] ==> !e.t.finIn && Accepted(e) + d <= p.w
    ensures var e' := e.(t := e.t.(rbuf := e.t.rbuf + d, rcvNxt := Plus(e.t.rcvNxt, |d|)));
      Receiver(e') && Prefix(p, e') && Rcv(e) <= Rcv(e')
  {
    SlotPlus(e.t.irs, e.t.rcvNxt, |d|);
    var e' := e.(t := e.t.(rbuf := e.t.rbuf + d, rcvNxt := Plus(e.t.rcvNxt, |d|)));
    assert Accepted(e') == Accepted(e) + d;
    assert Accepted(e) + [] == Accepted(e);
  }

  /** Accepting the FIN behind the last byte. */
  lemma AcceptFin(e: Endpoint, p: Endpoint)
    requires Receiver(e) && e.t.irsValid && Sender(p) && Prefix(p, e)
    requires !e.t.finIn && p.closed && Accepted(e) == p.w
    ensures var e' := e.(t := e.t.(rcvNxt := Plus(e.t.rcvNxt, 1), finIn := true));
      Receiver(e') && Prefix(p, e') && Rcv(e) <= Rcv(e')
  {
    SlotPlus(e.t.irs, e.t.rcvNxt, 1);
  }

  /** A data segment at rcv.nxt starts right behind the accepted bytes. */
  lemma DataFits(e: Endpoint, p: Endpoint, s: Segment, size: nat)
    requires Receiver(e) && e.t.irsValid && Prefix(p, e) && SegOk(p, s) && !s.rst && !s.syn
    requires s.seq_ == e.t.rcvNxt && size <= |s.data| && s.data != []
    ensures !e.t.finIn && Accepted(e) + s.data[..size] <= p.w
  {
    assert p.w[|Accepted(e)|..|Accepted(e)| + |s.data|] == s.data;
  }

  /** Whatever a segment of the peer brings, the accepted bytes stay a prefix of what it wrote. */
  lemma DataStep(e: Endpoint, p: Endpoint, s: Segment)
    requires Receiver(e) && e.t.irsValid && Sender(p) && Prefix(p, e) && SegOk(p, s) && !s.rst && !s.syn
    ensures var e' := e.(t := DataIn(e.t, s).t);
      Receiver(e') && Prefix(p, e') && Grows(e, e')
  {
    var t := e.t;
    var size := if s.data != [] && s.seq_ == t.rcvNxt then Min(|s.data|, RcvWindow(t)) else 0;
    if s.data != [] && s.seq_ == t.rcvNxt { DataFits(e, p, s, size); }
    AcceptBytes(e, p, s.data[..size]);
    var e1 := e.(t := t.(rbuf := t.rbuf + s.data[..size], rcvNxt := Plus(t.rcvNxt, size)));
    if s.fin && e1.t.rcvNxt == s.seq_ {
      AcceptFin(e1, p);
    }
  }

  lemma DataGood(e: Endpoint, p: Endpoint, s: Segment)
    requires Bond(e, p) && Synced(e) && SegOk(p, s) && !s.rst && !s.syn
    ensures var d := DataIn(e.t, s); Good(e, e.(t := d.t), p, d.sent) && SegOk(e.(t := d.t), PureAck(d.t))
  {
    var e' := e.(t := DataIn(e.t, s).t);
    DataStep(e, p, s);
    assert Sender(e');
    PureAckOk(e');
  }

  // ---------------------------------------------------------------- the segment handlers

  lemma AckDataOutStep(e: Endpoint, p: Endpoint, s: Segment, x: Xmit)
    requires Bond(e, p) && Synced(e) && SegOk(p, s) && !s.rst && !s.syn
    ensures var r := AckDataOut(e.t, s, x);
      r.Go? ==> Good(e, e.(t := r.o.t), p, r.o.sent) && Synced(e.(t := r.o.t))
  {
    var a := AckProcess(e.t, s.ack);
    if a.ok {
      var e1 := e.(t := a.t);
      AckStep(e, p, s);
      var d := DataIn(a.t, s);
      var e2 := e.(t := d.t);
      DataGood(e1, p, s);
      GoodSeq(e, e1, e2, p, [], d.sent);
      var o := OutEvent(d.t, x);
      OutStep(e2, p, x);
      GoodSeq(e, e2, e.(t := o.t), p, [] + d.sent, o.sent);
      assert [] + d.sent == d.sent;
    }
  }

  lemma AckOutStep(e: Endpoint, p: Endpoint, s: Segment, x: Xmit)
    requires Bond(e, p) && e.started && e.t.irsValid && SegOk(p, s) && !s.rst && !s.syn
    ensures var r := AckOut(e.t, s, x);
      r.Go? ==> Good(e, e.(t := r.o.t), p, r.o.sent) && Synced(e.(t := r.o.t))
  {
    var a := AckProcess(e.t, s.ack);
    if a.ok {
      var e1 := e.(t := a.t);
      AckStep(e, p, s);
      OutStep(e1, p, x);
      var o := OutEvent(a.t, x);
      GoodSeq(e, e1, e.(t := o.t), p, [], o.sent);
      assert [] + o.sent == o.sent;
    }
  }

  lemma GoodSelf(e: Endpoint, p: Endpoint)
    requires Bond(e, p)
    ensures Good(e, e, p, [])
  {
  }

  /** The states that exchange data: nothing a peer can send breaks the agreement. */
  lemma ReceivingStates(e: Endpoint, p: Endpoint, s: Segment, x: Xmit)
    requires Bond(e, p) && StateFlags(e) && SegOk(p, s) && !s.rst && !s.syn
    requires e.t.state in {Established, FinWait1, FinWait2}
    ensures var o := Handle(e.t, s, x); Good(e, e.(t := o.t), p, o.sent) && StateFlags(e.(t := o.t))
  {
    hide Bond, Grows, SegOk, AckDataOut;
    if AckDataOut(e.t, s, x).Stop? {
      GoodSelf(e, p);
    } else {
      AckDataOutStep(e, p, s, x);
      var o := AckDataOut(e.t, s, x).o;
      GoodFrame(e, e.(t := o.t), e.(t := Handle(e.t, s, x).t), p, o.sent);
    }
  }

  lemma SendingStates(e: Endpoint, p: Endpoint, s: Segment, x: Xmit)
    requires Bond(e, p) && StateFlags(e) && SegOk(p, s) && !s.rst && !s.syn
    requires e.t.state in {Closing, CloseWait, SynRecvd}
    ensures var o := Handle(e.t, s, x); Good(e, e.(t := o.t), p, o.sent) && StateFlags(e.(t := o.t))
  {
    hide Bond, Grows, SegOk, AckOut;
    if AckOut(e.t, s, x).Stop? {
      GoodSelf(e, p);
    } else {
      AckOutStep(e, p, s, x);
      var o := AckOut(e.t, s, x).o;
      GoodFrame(e, e.(t := o.t), e.(t := Handle(e.t, s, x).t), p, o.sent);
    }
  }

  lemma LastStates(e: Endpoint, p: Endpoint, s: Segment, x: Xmit)
    requires Bond(e, p) && StateFlags(e) && SegOk(p, s) && !s.rst && !s.syn
    requires e.t.state in {TimeWait, LastAck}
    ensures var o := Handle(e.t, s, x); Good(e, e.(t := o.t), p, o.sent) && StateFlags(e.(t := o.t))
  {
    hide Bond, Grows, AckProcess, DataIn, AckDataOut, AckOut;
    GoodSelf(e, p);
    var a := AckProcess(e.t, s.ack);
    if a.ok {
      var e1 := e.(t := a.t);
      AckStep(e, p, s);
      if e.t.state.LastAck? {
        GoodFrame(e, e1, e.(t := Handle(e.t, s, x).t), p, []);
      } else {
        var d := DataIn(a.t, s);
        var sent := d.sent + SendAck(d.t, s);
        DataGood(e1, p, s);
        GoodSeq(e, e1, e.(t := d.t), p, [], sent);
        assert [] + sent == sent;
        GoodFrame(e, e.(t := d.t), e.(t := Handle(e.t, s, x).t), p, sent);
      }
    }
  }

  // ---------------------------------------------------------------- the handshake

  lemma SlotSelf(x: Seq)
    ensures Slot(x, x) == 0 && Slot(x, Plus(x, 1)) == 1
  {
    SlotPlus(x, x, 1);
  }

  /** A SYN of the peer fixes where its stream starts. */
  lemma LearnIrs(e: Endpoint, p: Endpoint, s: Segment, e': Endpoint)
    requires Core(p) && Prefix(e, p) && Prefix(p, e) && SegOk(p, s) && !s.rst && s.syn
    requires !e.t.irsValid && Accepted(e) == [] && !e.t.finIn && e'.started && Sender(e')
    requires e' == e.(started := true, t := e'.t) && e'.t.rbuf == e.t.rbuf && !e'.t.finIn
    requires e'.t.irsValid && e'.t.irs == s.seq_ && e'.t.rcvNxt == Plus(s.seq_, 1)
    requires if e.started then e'.t.iss == e.t.iss && e'.t.una == e.t.una && e'.t.synOut == e.t.synOut
             else e'.t.synOut
    ensures Bond(e', p) && (e.started ==> Grows(e, e'))
  {
    SlotSelf(s.seq_);
  }

  lemma SynSentOk(e: Endpoint, p: Endpoint, s: Segment, x: Xmit)
    requires Bond(e, p) && StateFlags(e) && SegOk(p, s) && e.t.state.SynSent?
    ensures var o := SynSentIn(e.t, s, x); Good(e, e.(t := o.t), p, o.sent) && StateFlags(e.(t := o.t))
  {
    var t := e.t;
    if s.isAck && (s.ack == t.iss || s.ack != t.nxt) {
    } else if s.rst {
      GoodFrame(e, e, e.(t := Abort(t)), p, []);
    } else if s.syn {
      SynArrives(e, p, s, x);
    }
  }

  lemma SynArrives(e: Endpoint, p: Endpoint, s: Segment, x: Xmit)
    requires Bond(e, p) && StateFlags(e) && SegOk(p, s) && e.t.state.SynSent? && !s.rst && s.syn
    requires s.isAck ==> s.ack != e.t.iss && s.ack == e.t.nxt
    ensures var o := SynSentIn(e.t, s, x); Good(e, e.(t := o.t), p, o.sent) && StateFlags(e.(t := o.t))
  {
    hide TcbOk, OutEvent, AckProcess, AllOk, Grows, SegOk, SynSentIn;
    var t := e.t;
    var e1 := e.(t := ReadOptions(t, s).(irs := s.seq_, rcvNxt := Plus(s.seq_, 1), irsValid := true));
    LearnIrs(e, p, s, e1);
    GoodSelf(e1, p);
    SlotSelf(t.iss);
    if s.isAck {
      SynAckArrives(e, p, s, x, e1);
    } else {
      SlotInjective(t.iss, t.una, t.iss);
      OpenBothWays(e, p, s, x, e1);
    }
  }

  /** Our SYN is acknowledged with the peer's. */
  lemma SynAckArrives(e: Endpoint, p: Endpoint, s: Segment, x: Xmit, e1: Endpoint)
    requires e.started && e.t.synOut && SegOk(p, s) && !s.rst && s.syn && s.isAck
    requires s.ack != e.t.iss && s.ack == e.t.nxt && Una(e) == 0
    requires e1 == e.(t := ReadOptions(e.t, s).(irs := s.seq_, rcvNxt := Plus(s.seq_, 1), irsValid := true))
    requires Bond(e1, p) && Grows(e, e1) && !e.closed && !e.t.finIn
    ensures var o := SynSentIn(e.t, s, x); Good(e, e.(t := o.t), p, o.sent) && StateFlags(e.(t := o.t))
  {
    hide TcbOk, OutEvent, AckProcess, Core, Prefix, Grows, SegOk, Slot;
    var t := e.t;
    var e2 := e.(t := AckProcess(e1.t, s.ack).t);
    SynAcked(e1, s);
    AckStep(e1, p, s);
    PureAckOk(e2);
    var ack, o := SendAck(e2.t, s), OutEvent(e2.t, x);
    GoodSeq(e, e1, e2, p, [], []);
    assert Good(e, e2, p, ack);
    var e3 := e.(t := o.t);
    OutStep(e2, p, x);
    GoodSeq(e, e2, e3, p, ack, o.sent);
    GoodFrame(e, e3, e.(t := SynSentIn(t, s, x).t), p, ack + o.sent);
  }

  lemma SynAcked(e: Endpoint, s: Segment)
    requires Core(e) && e.started && e.t.synOut && s.ack == e.t.nxt && s.ack != e.t.iss
    ensures var t := AckProcess(e.t, s.ack).t; t.una != t.iss && !t.synOut
  {
    hide AckProcess, Plus, TcbOk;
    SlotSelf(e.t.iss);
    if Slot(e.t.iss, s.ack) == 0 { SlotInjective(e.t.iss, s.ack, e.t.iss); }
    AckInSlots(e.t, s.ack, e.t.iss);
  }

  /** Both sides open at once: our SYN goes out again, now with an acknowledgement. */
  lemma OpenBothWays(e: Endpoint, p: Endpoint, s: Segment, x: Xmit, e1: Endpoint)
    requires e.started && e.t.synOut && e.t.una == e.t.iss && !s.rst && s.syn && !s.isAck
    requires e1 == e.(t := ReadOptions(e.t, s).(irs := s.seq_, rcvNxt := Plus(s.seq_, 1), irsValid := true))
    requires Bond(e1, p) && Grows(e, e1) && !e.closed && !e.t.finIn
    ensures var o := SynSentIn(e.t, s, x); Good(e, e.(t := o.t), p, o.sent) && StateFlags(e.(t := o.t))
  {
    hide TcbOk, OutEvent, AckProcess, Core, Prefix, Grows, SegOk, Slot;
    var e2 := e.(t := e1.t.(state := SynRecvd));
    GoodFrame(e, e1, e2, p, []);
    OutStep(e2, p, x);
    assert e2.t.(synOut := true) == e2.t;
    var o := OutEvent(e2.t, x);
    GoodSeq(e, e2, e.(t := o.t), p, [], o.sent);
    assert [] + o.sent == o.sent;
  }

  lemma ListenOk(e: Endpoint, p: Endpoint, s: Segment, iss: Seq, x: Xmit)
    requires Bond(e, p) && StateFlags(e) && SegOk(p, s) && e.t.state.Listen?
    ensures var o := ListenIn(e.t, s, iss, x); var e' := e.(t := o.t, started := !o.t.state.Listen?);
      Good(e, e', p, o.sent) && StateFlags(e')
  {
    if !s.rst && !s.isAck && s.syn {
      var child := ReadOptions(Fresh(Closed), s).(iss := iss, una := iss, nxt := iss, synOut := true,
        irsValid := true, irs := s.seq_, rcvNxt := Plus(s.seq_, 1));
      var e1 := e.(t := child, started := true);
      SlotSelf(iss);
      LearnIrs(e, p, s, e1);
      OutStep(e1, p, x);
      var o := OutEvent(child, x);
      var e2 := e.(t := o.t, started := true);
      GoodFrame(e1, e2, e2.(t := o.t.(state := SynRecvd)), p, o.sent);
    }
  }

  lemma InboundOk(e: Endpoint, p: Endpoint, s: Segment, iss: Seq, x: Xmit)
    requires Bond(e, p) && StateFlags(e) && SegOk(p, s)
    ensures var r := Apply(e, DoDeliver(s, iss, x)); Good(e, r.e, p, r.sent) && StateFlags(r.e)
  {
    hide Bond, Grows, SeqAcceptable, ListenIn, SynSentIn, Handle;
    GoodSelf(e, p);
    if e.t.state.Listen? {
      ListenOk(e, p, s, iss, x);
    } else if e.t.state.SynSent? {
      SynSentOk(e, p, s, x);
    } else if e.t.state.Free? || e.t.state.Closed? || !SeqAcceptable(e.t, s) {
      assert e.(t := Inbound(e.t, s, iss, x).t) == e;
    } else if s.rst || s.syn {
      GoodFrame(e, e, e.(t := Abort(e.t)), p, []);
    } else if e.t.state in {Established, FinWait1, FinWait2} {
      ReceivingStates(e, p, s, x);
    } else if e.t.state in {TimeWait, LastAck} {
      LastStates(e, p, s, x);
    } else {
      SendingStates(e, p, s, x);
    }
  }

  // ---------------------------------------------------------------- socket calls and timers

  /** Before the first SYN nothing has been written, received or learned. */
  lemma OpenBond(e: Endpoint, e1: Endpoint, p: Endpoint)
    requires Bond(e, p) && !e.started
    requires e1 == e.(t := e1.t, started := true)
    requires e1.t == e.t.(iss := e1.t.iss, una := e1.t.iss, nxt := e1.t.iss, sbuf := [], rbuf := [],
                          rcvNxt := 0, mss := e1.t.mss, synOut := true)
    ensures Good(e, e1, p, []) && !e.t.irsValid
  {
    hide Slot;
    SlotSelf(e1.t.iss);
    assert Accepted(e) == [];
  }

  lemma ConnectOk(e: Endpoint, p: Endpoint, iss: Seq, x: Xmit)
    requires Bond(e, p) && StateFlags(e) && e.t.state.Closed? && !e.started
    ensures var o := Connect(e.t, iss, x); var e' := e.(t := o.t, started := true);
      Good(e, e', p, o.sent) && StateFlags(e')
  {
    hide OutEvent, Sender, Receiver, Prefix, AllOk;
    var t := e.t.(iss := iss, una := iss, nxt := iss, sbuf := [], rbuf := [], rcvNxt := 0, mss := TCP_MSS,
      synOut := true);
    var e1 := e.(t := t, started := true);
    OpenBond(e, e1, p);
    OutStep(e1, p, x);
    var o := OutEvent(t, x);
    GoodSeq(e, e1, e1.(t := o.t), p, [], o.sent);
    assert [] + o.sent == o.sent;
    GoodFrame(e, e1.(t := o.t), e1.(t := o.t.(state := SynSent)), p, o.sent);
  }

  lemma SuffixGrow(b: seq<Byte>, w: seq<Byte>, d: seq<Byte>)
    requires Suffix(b, w)
    ensures Suffix(b + d, w + d)
  {
    assert (w + d)[|w + d| - |b + d|..] == w[|w| - |b|..] + d;
  }

  /** Writing appends to the stream and to the buffer alike. */
  lemma WriteGood(e: Endpoint, p: Endpoint, d: seq<Byte>)
    requires Bond(e, p) && Synced(e) && !e.closed && |e.w| + |d| + 2 < HALF
    ensures Good(e, e.(t := e.t.(sbuf := e.t.sbuf + d), w := e.w + d), p, [])
  {
    hide Slot;
    SuffixGrow(e.t.sbuf, e.w, d);
  }

  lemma SendOk(e: Endpoint, p: Endpoint, bytes: seq<Byte>, x: Xmit)
    requires Bond(e, p) && StateFlags(e) && |e.w| + |bytes| + 2 < HALF
    ensures var o := Send(e.t, bytes, x); var e' := e.(t := o.t, w := e.w + bytes[..Taken(e.t, |bytes|)]);
      Good(e, e', p, o.sent) && StateFlags(e')
  {
    hide OutEvent, Sender, Receiver, Prefix, Grows, AllOk;
    var n := Taken(e.t, |bytes|);
    if n == 0 {
      assert e.w + bytes[..0] == e.w;
      GoodSelf(e, p);
    } else {
      var e1 := e.(t := e.t.(sbuf := e.t.sbuf + bytes[..n]), w := e.w + bytes[..n]);
      WriteGood(e, p, bytes[..n]);
      OutStep(e1, p, x);
      var o := OutEvent(e1.t, x);
      GoodSeq(e, e1, e1.(t := o.t), p, [], o.sent);
      assert [] + o.sent == o.sent;
    }
  }

  lemma RecvOk(e: Endpoint, p: Endpoint, len: nat)
    requires Bond(e, p) && StateFlags(e)
    ensures var e' := e.(t := Recv(e.t, len), rd := e.rd + e.t.rbuf[..Given(e.t, len)]);
      Good(e, e', p, []) && StateFlags(e')
  {
    hide Slot, Window;
    var n := Given(e.t, len);
    var e' := e.(t := Recv(e.t, len), rd := e.rd + e.t.rbuf[..n]);
    assert Accepted(e') == Accepted(e);
  }

  lemma FinGood(e: Endpoint, p: Endpoint)
    requires Bond(e, p) && Synced(e) && !e.closed
    ensures Good(e, e.(t := e.t.(finOut := true), closed := true), p, [])
  {
    hide Slot;
  }

  lemma CloseOk(e: Endpoint, p: Endpoint, x: Xmit)
    requires Bond(e, p) && StateFlags(e)
    ensures var o := Close(e.t, x); var e' := e.(t := o.t, closed := e.closed || CanSend(e.t));
      Good(e, e', p, o.sent) && StateFlags(e')
  {
    hide OutEvent, Core, Prefix, Grows, AllOk, TcbOk;
    GoodSelf(e, p);
    if CanSend(e.t) {
      var e1 := e.(t := e.t.(finOut := true), closed := true);
      FinGood(e, p);
      OutStep(e1, p, x);
      var o := OutEvent(e1.t, x);
      var e2 := e1.(t := o.t);
      GoodSeq(e, e1, e2, p, [], o.sent);
      assert [] + o.sent == o.sent;
      GoodFrame(e, e2, e2.(t := Close(e.t, x).t), p, o.sent);
    } else {
      GoodFrame(e, e, e.(t := Close(e.t, x).t), p, []);
    }
  }

  lemma RetransmitStep(e: Endpoint, p: Endpoint, x: Xmit)
    requires Bond(e, p) && CanXmit(e)
    ensures var o := Retransmit(e.t, x); Good(e, e.(t := o.t), p, o.sent)
  {
    var o := Retransmit(e.t, x);
    RetransmitWindow(e, x);
    RetransmitSegs(e, x);
    SegsGrow(e, e.(t := o.t), o.sent);
  }

  /** The sender state and its counters matter only while a SYN is out. */
  lemma GoodTimer(e: Endpoint, e1: Endpoint, t: Tcb, p: Endpoint, sent: seq<Segment>)
    requires Good(e, e1, p, sent)
    requires t == e1.t.(state := t.state, timer := t.timer, msl := t.msl, ostate := t.ostate,
      rexmitCnt := t.rexmitCnt, rto := t.rto)
    requires if e1.started then t.ostate.Idle? ==> e1.t.ostate.Idle? else t.ostate == e1.t.ostate
    ensures Good(e, e1.(t := t), p, sent)
  {
    SegsGrow(e1, e1.(t := t), sent);
  }

  lemma TimeoutRetransmit(e: Endpoint, p: Endpoint, c: Tcb, t: Tcb, x: Xmit)
    requires Bond(e, p) && e.started
    requires c == e.t.(timer := None, rexmitCnt := c.rexmitCnt)
    requires var r := Retransmit(c, x).t;
      t == r.(timer := t.timer, ostate := t.ostate, rexmitCnt := t.rexmitCnt, rto := t.rto)
    requires t.ostate.Idle? ==> c.ostate.Idle?
    ensures Good(e, e.(t := t), p, Retransmit(c, x).sent)
  {
    hide Retransmit, Core, Prefix, Grows, AllOk, TcbOk;
    var e1 := e.(t := c);
    var o := Retransmit(c, x);
    GoodSelf(e, p);
    GoodTimer(e, e, c, p, []);
    RetransmitStep(e1, p, x);
    GoodSeq(e, e1, e.(t := o.t), p, [], o.sent);
    assert [] + o.sent == o.sent;
    GoodTimer(e, e.(t := o.t), t, p, o.sent);
  }

  lemma BusyIsStarted(e: Endpoint)
    requires Sender(e) && !e.t.ostate.Idle?
    ensures e.started
  {
  }

  lemma FlagsFrame(e: Endpoint, t: Tcb)
    requires StateFlags(e)
    requires t == e.t.(nxt := t.nxt, timer := t.timer, ostate := t.ostate, rexmitCnt := t.rexmitCnt, rto := t.rto)
    ensures StateFlags(e.(t := t))
  {
  }

  lemma SendingTmoOk(e: Endpoint, p: Endpoint, x: Xmit)
    requires Bond(e, p) && StateFlags(e) && e.started && e.t.ostate.Sending?
    ensures var o := SendingTmo(e.t.(timer := None), x); Good(e, e.(t := o.t), p, o.sent) && StateFlags(e.(t := o.t))
  {
    hide Retransmit, Bond, Good, RetransmitFails;
    var t := e.t.(timer := None);
    TimeoutRetransmit(e, p, t, SendingTmo(t, x).t, x);
  }

  lemma RexmitTmoOk(e: Endpoint, p: Endpoint, x: Xmit)
    requires Bond(e, p) && StateFlags(e) && e.started && e.t.ostate.Rexmit?
    ensures var o := RexmitTmo(e.t.(timer := None), x); Good(e, e.(t := o.t), p, o.sent) && StateFlags(e.(t := o.t))
  {
    hide Retransmit, RexmitTmo, Bond, Good, StateFlags, TcbOk;
    var t := e.t.(timer := None);
    RexmitEither(t, x);
    var c := t.(rexmitCnt := t.rexmitCnt + 1);
    if c.rexmitCnt > c.rexmitMax {
      AbortGood(e, c, p);
    } else {
      TimeoutRetransmit(e, p, c, RexmitTmo(t, x).t, x);
      FlagsFrame(e, RexmitTmo(t, x).t);
    }
  }

  lemma AbortGood(e: Endpoint, c: Tcb, p: Endpoint)
    requires Bond(e, p) && c == e.t.(timer := None, rexmitCnt := c.rexmitCnt)
    ensures Good(e, e.(t := Abort(c)), p, []) && StateFlags(e.(t := Abort(c)))
  {
    hide Bond, Good;
    GoodSelf(e, p);
    GoodTimer(e, e, Abort(c), p, []);
  }

  lemma TimeoutOk(e: Endpoint, p: Endpoint, x: Xmit)
    requires Bond(e, p) && StateFlags(e)
    ensures var o := TimerTmo(e.t, x); Good(e, e.(t := o.t), p, o.sent) && StateFlags(e.(t := o.t))
  {
    hide Sender, Receiver, Prefix, Good, SendingTmo, RexmitTmo;
    if e.t.ostate.Idle? {
      GoodSelf(e, p);
      GoodFrame(e, e, e.(t := e.t.(timer := None)), p, []);
    } else {
      BusyIsStarted(e);
      if e.t.ostate.Sending? { SendingTmoOk(e, p, x); } else { RexmitTmoOk(e, p, x); }
    }
  }

  // ---------------------------------------------------------------- every step, every run

  /** Freeing the record touches no sequence number and no buffer. */
  lemma QuietOk(e: Endpoint, p: Endpoint, t: Tcb)
    requires Bond(e, p) && StateFlags(e) && (t == e.t.(state := Free, msl := false) || t == Destroy(e.t))
    ensures Good(e, e.(t := t), p, []) && StateFlags(e.(t := t))
  {
    hide Bond, Grows;
    GoodSelf(e, p);
    GoodFrame(e, e, e.(t := t), p, []);
  }

  lemma ApplyOk(e: Endpoint, p: Endpoint, inbox: set<Segment>, st: Step)
    requires Bond(e, p) && StateFlags(e) && Channel(p, inbox) && Enabled(e, inbox, st)
    ensures var r := Apply(e, st); Good(e, r.e, p, r.sent) && StateFlags(r.e)
  {
    hide Bond, Good, StateFlags, SegOk, Connect, Send, Recv, Close, Inbound, TimerTmo, Destroy;
    match st
    case DoConnect(iss, x) => ConnectOk(e, p, iss, x);
    case DoSend(bytes, x) => SendOk(e, p, bytes, x);
    case DoRecv(len) => RecvOk(e, p, len);
    case DoClose(x) => CloseOk(e, p, x);
    case DoDeliver(s, iss, x) => InboundOk(e, p, s, iss, x);
    case DoTimeout(x) => TimeoutOk(e, p, x);
    case DoMsl => QuietOk(e, p, e.t.(state := Free, msl := false));
    case DoDestroy => QuietOk(e, p, Destroy(e.t));
  }

  lemma ChannelGrows(e: Endpoint, e': Endpoint, ch: set<Segment>, sent: seq<Segment>)
    requires Channel(e, ch) && Grows(e, e') && AllOk(e', sent)
    ensures Channel(e', ch + ToSet(sent))
  {
    forall g | g in ch ensures SegOk(e', g) { SegGrows(e, e', g); }
  }

  /** Every step of either endpoint keeps the invariant, and the histories only grow. */
  lemma NextKeepsInv(v: World, v': World, atA: bool, st: Step)
    requires Inv(v) && Next(v, v', atA, st)
    ensures Inv(v') && Grows(v.a, v'.a) && Grows(v.b, v'.b)
  {
    hide Apply, SegOk, Enabled, StateFlags, Sender, Receiver, Prefix, Grows;
    GoodSelf(v.a, v.b);
    GoodSelf(v.b, v.a);
    if atA {
      ApplyOk(v.a, v.b, v.ba, st);
      ChannelGrows(v.a, v'.a, v.ab, Apply(v.a, st).sent);
    } else {
      ApplyOk(v.b, v.a, v.ab, st);
      ChannelGrows(v.b, v'.b, v.ba, Apply(v.b, st).sent);
    }
  }

  lemma InitInv(v: World)
    requires Init(v)
    ensures Inv(v)
  {
  }

  /** The invariant holds in every world of every run. */
  lemma {:induction false} RunInv(vs: seq<World>, es: seq<Event>, k: nat)
    requires Run(vs, es) && k < |vs|
    ensures Inv(vs[k])
  {
    hide Inv, Next;
    if k == 0 {
      InitInv(vs[0]);
    } else {
      RunInv(vs, es, k - 1);
      NextKeepsInv(vs[k - 1], vs[k], es[k - 1].atA, es[k - 1].st);
    }
  }
}
