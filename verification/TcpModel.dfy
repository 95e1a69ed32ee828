/** One TCP connection record and what each event does to it: the sender state machine, the
    segment handlers of the connection state machine, the receive path and the socket calls.
    Every function takes the record and returns the new one with the segments it hands to IP. */
module TcpModel {
  import opened Common
  import opened SeqNum

  const TCP_SBUF_SIZE := 100000
  const TCP_RBUF_SIZE := 2048
  const TCP_MSS := 1460
  const TCP_INIT_RTO := 1000
  const TCP_INT_RETRIES := 5
  const TCP_RTO_MAX := 8000

  datatype State =
    | Free | Closed | Listen | SynSent | SynRecvd | Established
    | FinWait1 | FinWait2 | Closing | TimeWait | CloseWait | LastAck

  datatype OState = Idle | Sending | Rexmit

  /** The connection record. The ring buffers appear as their contents; `timer` is the time
      the retransmission timer was armed with and `msl` says that the 2MSL timer runs. */
  datatype Tcb = Tcb(
    state: State,
    synOut: bool, finOut: bool, irsValid: bool, finIn: bool,
    iss: Seq, una: Seq, nxt: Seq, sbuf: seq<Byte>,
    irs: Seq, rcvNxt: Seq, rbuf: seq<Byte>,
    mss: nat,
    ostate: OState, rexmitCnt: nat, rexmitMax: nat, rto: nat,
    timer: Option<nat>, msl: bool)

  datatype Segment = Segment(
    seq_: Seq, ack: Seq, syn: bool, fin: bool, rst: bool, isAck: bool,
    win: nat, mssOpt: Option<nat>, data: seq<Byte>)

  /** What happens to one attempt to send: it reaches IP, no packet can be allocated, the
      packet cannot be grown by the data or by the option of a SYN, or IP refuses it. */
  datatype Xmit = Sent | NoPacket | NoPages | SendError

  datatype Out = Out(t: Tcb, sent: seq<Segment>)

  function Bit(b: bool): nat {
    if b then 1 else 0
  }

  /** A freshly allocated record in CLOSED, or in LISTEN after tcp_listen. */
  function Fresh(state: State): Tcb {
    Tcb(state, false, false, false, false, 0, 0, 0, [], 0, 0, [], TCP_MSS,
        Idle, 0, TCP_INT_RETRIES, TCP_INIT_RTO, None, false)
  }

  /** The timers agree with the sender state, and the send buffer is within its capacity. */
  predicate TcbOk(t: Tcb) {
    && t.rexmitMax == TCP_INT_RETRIES
    && (t.ostate.Idle? ==> t.rto == TCP_INIT_RTO && t.timer.None?)
    && (t.timer.Some? ==> t.timer.value == t.rto)
    && |t.sbuf| <= TCP_SBUF_SIZE
  }

  function RcvWindow(t: Tcb): nat {
    Max(TCP_RBUF_SIZE - |t.rbuf|, 0)
  }

  function SeqLen(s: Segment): nat {
    |s.data| + Bit(s.syn) + Bit(s.fin)
  }

  function Slice(s: seq<Byte>, off: int, len: int): seq<Byte> {
    if 0 <= off && 0 <= len && off + len <= |s| then s[off..off + len] else []
  }

  // ---------------------------------------------------------------- sending

  function PureAck(t: Tcb): Segment {
    Segment(t.nxt, t.rcvNxt, false, false, false, true, RcvWindow(t), None, [])
  }

  function SendAck(t: Tcb, s: Segment): seq<Segment> {
    if s.rst then [] else [PureAck(t)]
  }

  function SendReset(s: Segment): seq<Segment> {
    if s.rst then []
    else if s.isAck then [Segment(s.ack, 0, false, false, true, false, 0, None, [])]
    else [Segment(0, Plus(s.seq_, SeqLen(s)), false, false, true, true, 0, None, [])]
  }

  /** A data, SYN or FIN segment built from the record. */
  function Build(t: Tcb, seq_: Seq, doff: int, dlen: int, fin: bool, x: Xmit): Segment {
    Segment(seq_, t.rcvNxt, t.synOut, fin, false, t.irsValid, RcvWindow(t),
            if t.synOut && !x.NoPages? then Some(t.mss) else None,
            if x.NoPages? then [] else Slice(t.sbuf, doff, dlen))
  }

  /** Offset in the send buffer and length of the next data to send. */
  function SendInfo(t: Tcb, rexmit: bool): (int, int) {
    var doff := if rexmit || t.synOut then 0 else Diff(t.nxt, t.una);
    (doff, Min(|t.sbuf| - doff, t.mss))
  }

  function Transmit(t: Tcb, x: Xmit): (r: Out)
    ensures r.t == t.(nxt := r.t.nxt)
    ensures |r.sent| <= 1
  {
    var (doff, dlen) := SendInfo(t, false);
    var fin := t.finOut && t.sbuf == [];
    if dlen < 0 || dlen + Bit(t.synOut) + Bit(fin) == 0 || x.NoPacket? then Out(t, [])
    else
      Out(t.(nxt := Plus(t.nxt, dlen + Bit(t.synOut) + Bit(fin))),
          if x.SendError? then [] else [Build(t, t.nxt, doff, dlen, fin, x)])
  }

  function Retransmit(t: Tcb, x: Xmit): (r: Out)
    ensures r.t == t.(nxt := r.t.nxt)
    ensures |r.sent| <= 1
  {
    var (doff, dlen) := SendInfo(t, true);
    var fin := t.finOut && t.sbuf == [];
    if dlen < 0 || dlen + Bit(t.synOut) + Bit(t.finOut) == 0 || x.NoPacket? then Out(t, [])
    else
      Out(t.(nxt := Plus(t.nxt, Max(Diff(Plus(t.una, dlen), t.nxt), 0))),
          if x.SendError? then [] else [Build(t, t.una, doff, dlen, fin, x)])
  }

  /** Retransmit returns an error exactly when a segment was due and IP refused it. */
  predicate RetransmitFails(t: Tcb, x: Xmit) {
    var (_, dlen) := SendInfo(t, true);
    x.SendError? && dlen + Bit(t.synOut) + Bit(t.finOut) != 0
  }

  function SetOState(t: Tcb, s: OState): (r: Tcb)
    ensures r == t.(ostate := s, rto := r.rto, timer := r.timer)
    ensures TcbOk(t) ==> TcbOk(r)
  {
    if s.Idle? then t.(rto := TCP_INIT_RTO, ostate := s, timer := None)
    else t.(ostate := s, timer := Some(t.rto))
  }

  predicate MoreToSend(t: Tcb) {
    t.sbuf != [] || t.finOut
  }

  /** TCP_OEVENT_SEND in each sender state. */
  function OutEvent(t: Tcb, x: Xmit): (r: Out)
    ensures r.t == t.(nxt := r.t.nxt, ostate := r.t.ostate, rto := r.t.rto, timer := r.t.timer)
    ensures |r.sent| <= 1
    ensures TcbOk(t) ==> TcbOk(r.t)
  {
    if t.ostate.Idle? then
      var o := Transmit(t, x);
      Out(SetOState(o.t, Sending), o.sent)
    else if t.una == t.nxt || t.finOut then
      if MoreToSend(t) then
        var o := Transmit(t, x);
        Out(SetOState(o.t, Sending), o.sent)
      else
        Out(SetOState(t, Idle), [])
    else if t.ostate.Sending? then
      Out(t, [])
    else
      Retransmit(SetOState(t, Rexmit), x)
  }

  function SendSyn(t: Tcb, x: Xmit): (r: Out)
    ensures TcbOk(t) ==> TcbOk(r.t)
  {
    OutEvent(t.(synOut := true), x)
  }

  function SendFin(t: Tcb, x: Xmit): (r: Out)
    ensures TcbOk(t) ==> TcbOk(r.t)
  {
    OutEvent(t.(finOut := true), x)
  }

  function Abort(t: Tcb): Tcb {
    t.(timer := None, msl := false, state := Closed)
  }

  function SendingTmo(t: Tcb, x: Xmit): (r: Out)
    ensures TcbOk(t) ==> TcbOk(r.t)
  {
    var o := Retransmit(t, x);
    if RetransmitFails(t, x) then o
    else Out(o.t.(rexmitCnt := 1, rto := 2 * t.rto, ostate := Rexmit, timer := Some(2 * t.rto)), o.sent)
  }

  function RexmitTmo(t: Tcb, x: Xmit): (r: Out)
    ensures TcbOk(t) && !t.ostate.Idle? ==> TcbOk(r.t)
  {
    var c := t.(rexmitCnt := t.rexmitCnt + 1);
    if c.rexmitCnt > c.rexmitMax then Out(Abort(c), [])
    else
      var o := Retransmit(c, x);
      if RetransmitFails(c, x) then o
      else
        var rto := Min(2 * t.rto, TCP_RTO_MAX);
        Out(o.t.(rto := rto, timer := Some(rto)), o.sent)
  }

  /** A timeout in REXMIT ends the connection, or retransmits. */
  lemma RexmitEither(t: Tcb, x: Xmit)
    ensures var c := t.(rexmitCnt := t.rexmitCnt + 1); var o, r := RexmitTmo(t, x), Retransmit(c, x);
      if c.rexmitCnt > c.rexmitMax then o == Out(Abort(c), [])
      else o.sent == r.sent && o.t == r.t.(rto := o.t.rto, timer := o.t.timer)
  {
    hide Retransmit, RetransmitFails, TcbOk;
  }

  /** The retransmission timer expires. */
  function TimerTmo(t0: Tcb, x: Xmit): (r: Out)
    ensures TcbOk(t0) ==> TcbOk(r.t)
  {
    var t := t0.(timer := None);
    match t.ostate
    case Idle => Out(t, [])
    case Sending => SendingTmo(t, x)
    case Rexmit => RexmitTmo(t, x)
  }

  // ---------------------------------------------------------------- receiving

  /** The acceptance test of RFC 793 section 3.3 as the code writes it. */
  predicate SeqAcceptable(t: Tcb, s: Segment) {
    var win := RcvWindow(t);
    if SeqLen(s) == 0 then
      if win == 0 then s.seq_ == t.rcvNxt else InWindow(t, s.seq_)
    else
      win != 0 && (InWindow(t, s.seq_) || InWindow(t, Plus(s.seq_, SeqLen(s) - 1)))
  }

  predicate InWindow(t: Tcb, x: Seq) {
    SeqLe(t.rcvNxt, x) && SeqLe(x, Plus(t.rcvNxt, RcvWindow(t) - 1))
  }

  datatype AckResult = AckResult(t: Tcb, ok: bool)

  /** The acknowledgement number moves una, frees the send buffer and clears the SYN and FIN
      that are waiting for it. */
  function AckProcess(t: Tcb, ack: Seq): (r: AckResult)
    ensures r.t == t.(una := r.t.una, synOut := r.t.synOut, finOut := r.t.finOut, sbuf := r.t.sbuf)
    ensures r.t.finOut ==> t.finOut
    ensures TcbOk(t) ==> TcbOk(r.t)
  {
    if SeqLe(ack, t.una) then AckResult(t, true)
    else if SeqLt(t.nxt, ack) then AckResult(t, false)
    else
      var una := if t.synOut then Plus(t.una, 1) else t.una;
      var curr := Max(Min(Diff(ack, una), Diff(t.nxt, una)), 0);
      var removed := Min(curr, |t.sbuf|);
      AckResult(t.(una := Plus(una, curr), synOut := false, sbuf := t.sbuf[removed..],
                   finOut := t.finOut && curr == removed), true)
  }

  /** What tcp_ack_process does, told in slots instead of wrapped numbers. */
  lemma AckInSlots(t: Tcb, ack: Seq, base: Seq)
    requires Slot(base, ack) < HALF && Slot(base, t.una) <= Slot(base, t.nxt) < HALF
    ensures var r := AckProcess(t, ack); var a, u := Slot(base, ack), Slot(base, t.una);
      if a <= u then r == AckResult(t, true)
      else if Slot(base, t.nxt) < a then r == AckResult(t, false)
      else
        var curr := a - u - Bit(t.synOut); var k := Min(curr, |t.sbuf|);
        && r.ok && !r.t.synOut && Slot(base, r.t.una) == a
        && r.t.sbuf == t.sbuf[k..] && r.t.finOut == (t.finOut && curr == k)
  {
    hide TcbOk, Plus, Slot, Diff;
    DiffIsSlotDifference(base, ack, t.una);
    DiffIsSlotDifference(base, t.nxt, ack);
    if Slot(base, t.una) < Slot(base, ack) <= Slot(base, t.nxt) {
      var una := if t.synOut then Plus(t.una, 1) else t.una;
      if t.synOut { SlotPlus(base, t.una, 1); }
      DiffIsSlotDifference(base, ack, una);
      DiffIsSlotDifference(base, t.nxt, una);
      SlotPlus(base, una, Slot(base, ack) - Slot(base, una));
    }
  }

  /** Data at rcv.nxt goes to the receive buffer as far as it fits; a FIN counts only when
      everything before it has been received. */
  function DataIn(t: Tcb, s: Segment): (r: Out)
    ensures r.t == t.(rbuf := r.t.rbuf, rcvNxt := r.t.rcvNxt, finIn := r.t.finIn)
    ensures t.finIn ==> r.t.finIn
  {
    var size := if s.data != [] && s.seq_ == t.rcvNxt then Min(|s.data|, RcvWindow(t)) else 0;
    var t1 := t.(rbuf := t.rbuf + s.data[..size], rcvNxt := Plus(t.rcvNxt, size));
    var fin := s.fin && t1.rcvNxt == s.seq_;
    var t2 := if fin then t1.(rcvNxt := Plus(t1.rcvNxt, 1), finIn := true) else t1;
    Out(t2, if size > 0 || fin then SendAck(t2, s) else [])
  }

  /** An acknowledgement, then data, then a chance to send: the common part of the handlers
      that still receive. `Stop` is an acknowledgement of something never sent. */
  datatype Handled = Stop | Go(o: Out)

  function AckDataOut(t: Tcb, s: Segment, x: Xmit): (r: Handled)
    ensures r.Go? ==> r.o.t.state == t.state && (r.o.t.finOut ==> t.finOut) && (t.finIn ==> r.o.t.finIn)
    ensures TcbOk(t) && r.Go? ==> TcbOk(r.o.t)
  {
    var a := AckProcess(t, s.ack);
    if !a.ok then Stop
    else
      var d := DataIn(a.t, s);
      var o := OutEvent(d.t, x);
      Go(Out(o.t, d.sent + o.sent))
  }

  function AckOut(t: Tcb, s: Segment, x: Xmit): (r: Handled)
    ensures r.Go? ==> r.o.t.state == t.state && (r.o.t.finOut ==> t.finOut) && t.finIn == r.o.t.finIn
    ensures TcbOk(t) && r.Go? ==> TcbOk(r.o.t)
  {
    var a := AckProcess(t, s.ack);
    if !a.ok then Stop else Go(OutEvent(a.t, x))
  }

  function EnterTimeWait(t: Tcb): Tcb {
    t.(state := TimeWait, timer := None, msl := true)
  }

  function EstablishedIn(t: Tcb, s: Segment, x: Xmit): (r: Out)
    ensures TcbOk(t) ==> TcbOk(r.t)
  {
    match AckDataOut(t, s, x)
    case Stop => Out(t, [])
    case Go(o) => Out(if o.t.finIn then o.t.(state := CloseWait) else o.t, o.sent)
  }

  function CloseWaitIn(t: Tcb, s: Segment, x: Xmit): (r: Out)
    ensures TcbOk(t) ==> TcbOk(r.t)
  {
    match AckOut(t, s, x)
    case Stop => Out(t, [])
    case Go(o) => o
  }

  function LastAckIn(t: Tcb, s: Segment): (r: Out)
    ensures TcbOk(t) ==> TcbOk(r.t)
  {
    var a := AckProcess(t, s.ack);
    if !a.ok then Out(t, [])
    else Out(if a.t.finOut then a.t else Abort(a.t), [])
  }

  function FinWait1In(t: Tcb, s: Segment, x: Xmit): (r: Out)
    ensures TcbOk(t) ==> TcbOk(r.t)
  {
    match AckDataOut(t, s, x)
    case Stop => Out(t, [])
    case Go(o) =>
      Out(if !o.t.finOut then
            if o.t.finIn then EnterTimeWait(o.t) else o.t.(state := FinWait2)
          else if o.t.finIn then o.t.(state := Closing)
          else o.t,
          o.sent)
  }

  function FinWait2In(t: Tcb, s: Segment, x: Xmit): (r: Out)
    ensures TcbOk(t) ==> TcbOk(r.t)
  {
    match AckDataOut(t, s, x)
    case Stop => Out(t, [])
    case Go(o) => Out(if o.t.finIn then EnterTimeWait(o.t) else o.t, o.sent)
  }

  function ClosingIn(t: Tcb, s: Segment, x: Xmit): (r: Out)
    ensures TcbOk(t) ==> TcbOk(r.t)
  {
    match AckOut(t, s, x)
    case Stop => Out(t, [])
    case Go(o) => Out(if o.t.finOut then o.t else EnterTimeWait(o.t), o.sent)
  }

  function TimeWaitIn(t: Tcb, s: Segment): (r: Out)
    ensures TcbOk(t) ==> TcbOk(r.t)
  {
    var a := AckProcess(t, s.ack);
    if !a.ok then Out(t, [])
    else
      var d := DataIn(a.t, s);
      if d.t.finIn then Out(EnterTimeWait(d.t), d.sent + SendAck(d.t, s)) else d
  }

  function ReadOptions(t: Tcb, s: Segment): Tcb {
    if s.mssOpt.Some? && t.mss > s.mssOpt.value then t.(mss := s.mssOpt.value) else t
  }

  function SynSentIn(t: Tcb, s: Segment, x: Xmit): (r: Out)
    ensures TcbOk(t) ==> TcbOk(r.t)
  {
    if s.isAck && (s.ack == t.iss || s.ack != t.nxt) then Out(t, SendReset(s))
    else if s.rst then Out(if s.isAck then Abort(t) else t, [])
    else if s.syn then
      var t1 := ReadOptions(t, s).(irs := s.seq_, rcvNxt := Plus(s.seq_, 1), irsValid := true);
      AnswerSyn(if s.isAck then AckProcess(t1, s.ack).t else t1, s, x)
    else Out(t, [])
  }

  /** The answer to a SYN in SYN_SENT: established if ours is acknowledged, else our SYN again. */
  function AnswerSyn(t: Tcb, s: Segment, x: Xmit): (r: Out)
    ensures TcbOk(t) ==> TcbOk(r.t)
  {
    if t.una != t.iss then
      var o := OutEvent(t, x);
      Out(o.t.(state := Established), SendAck(t, s) + o.sent)
    else
      SendSyn(t.(state := SynRecvd), x)
  }

  function SynRecvdIn(t: Tcb, s: Segment, x: Xmit): (r: Out)
    ensures TcbOk(t) ==> TcbOk(r.t)
  {
    match AckOut(t, s, x)
    case Stop => Out(t, [])
    case Go(o) => Out(o.t.(state := if s.fin then CloseWait else Established), o.sent)
  }

  /** A SYN reaches a listening socket: the child connection it creates, with the initial
      sequence number `iss` chosen for it. */
  function ListenIn(t: Tcb, s: Segment, iss: Seq, x: Xmit): (r: Out)
    ensures TcbOk(t) ==> TcbOk(r.t)
  {
    if s.rst then Out(t, [])
    else if s.isAck then Out(t, SendReset(s))
    else if s.syn then
      var child := ReadOptions(Fresh(Closed), s).(
        iss := iss, una := iss, nxt := iss,
        irsValid := true, irs := s.seq_, rcvNxt := Plus(s.seq_, 1));
      var o := SendSyn(child, x);
      Out(o.t.(state := SynRecvd), o.sent)
    else Out(t, [])
  }

  /** The handler of each state for an acceptable segment without RST or SYN. The
      listening and SYN_SENT handlers see every segment and stand apart. */
  function Handle(t: Tcb, s: Segment, x: Xmit): (r: Out)
    ensures !t.state.Listen? ==> !r.t.state.Listen?
    ensures TcbOk(t) ==> TcbOk(r.t)
  {
    match t.state
    case SynRecvd => SynRecvdIn(t, s, x)
    case Established => EstablishedIn(t, s, x)
    case FinWait1 => FinWait1In(t, s, x)
    case FinWait2 => FinWait2In(t, s, x)
    case Closing => ClosingIn(t, s, x)
    case TimeWait => TimeWaitIn(t, s)
    case CloseWait => CloseWaitIn(t, s, x)
    case LastAck => LastAckIn(t, s)
    case _ => Out(t, [])
  }

  /** A segment arrives for this connection (tcp_in after the header checks). */
  function Inbound(t: Tcb, s: Segment, iss: Seq, x: Xmit): (r: Out)
    ensures TcbOk(t) ==> TcbOk(r.t)
  {
    if t.state.Free? || t.state.Closed? then Out(t, SendReset(s))
    else if t.state.Listen? then ListenIn(t, s, iss, x)
    else if t.state.SynSent? then SynSentIn(t, s, x)
    else if !SeqAcceptable(t, s) then Out(t, [])
    else if s.rst then Out(Abort(t), [])
    else if s.syn then Out(Abort(t), SendReset(s))
    else Handle(t, s, x)
  }

  // ---------------------------------------------------------------- socket calls

  /** tcp_connect on a closed socket. */
  function Connect(t: Tcb, iss: Seq, x: Xmit): (r: Out)
    ensures TcbOk(t) ==> TcbOk(r.t)
  {
    var o := SendSyn(t.(iss := iss, una := iss, nxt := iss, sbuf := [], rbuf := [], rcvNxt := 0, mss := TCP_MSS), x);
    Out(o.t.(state := SynSent), o.sent)
  }

  predicate CanSend(t: Tcb) {
    t.state.Established? || t.state.CloseWait?
  }

  /** How many of `len` offered bytes tcp_send takes. */
  function Taken(t: Tcb, len: nat): nat {
    if CanSend(t) then Max(Min(len, TCP_SBUF_SIZE - |t.sbuf|), 0) else 0
  }

  function Send(t: Tcb, bytes: seq<Byte>, x: Xmit): (r: Out)
    ensures TcbOk(t) ==> TcbOk(r.t)
  {
    var n := Taken(t, |bytes|);
    if n == 0 then Out(t, []) else OutEvent(t.(sbuf := t.sbuf + bytes[..n]), x)
  }

  predicate CanRecv(t: Tcb) {
    t.state in {CloseWait, Closing, FinWait1, FinWait2, Established}
  }

  /** How many bytes tcp_recv hands to the application. */
  function Given(t: Tcb, len: nat): nat {
    if CanRecv(t) then Min(len, |t.rbuf|) else 0
  }

  function Recv(t: Tcb, len: nat): Tcb {
    t.(rbuf := t.rbuf[Given(t, len)..])
  }

  function Close(t: Tcb, x: Xmit): (r: Out)
    ensures TcbOk(t) ==> TcbOk(r.t)
  {
    match t.state
    case Closed => Out(t.(state := Free), [])
    case SynRecvd => Out(Abort(t).(state := Free), [])
    case SynSent => Out(Abort(t).(state := Free), [])
    case CloseWait => var o := SendFin(t, x); Out(o.t.(state := LastAck), o.sent)
    case Established => var o := SendFin(t, x); Out(o.t.(state := FinWait1), o.sent)
    case _ => Out(t, [])
  }

  /** Close raises the send event with a FIN to send, or sends nothing. */
  lemma CloseEither(t: Tcb, x: Xmit)
    ensures var o, r := Close(t, x), OutEvent(t.(finOut := true), x);
      if CanSend(t) then o == Out(r.t.(state := o.t.state), r.sent)
      else o == Out(t.(state := o.t.state, timer := o.t.timer, msl := o.t.msl), [])
  {
    hide OutEvent, Close, TcbOk;
    if CanSend(t) { CloseWithFin(t, x); } else { CloseQuietly(t, x); }
  }

  lemma CloseWithFin(t: Tcb, x: Xmit)
    requires CanSend(t)
    ensures var o, r := Close(t, x), OutEvent(t.(finOut := true), x); o == Out(r.t.(state := o.t.state), r.sent)
  {
    hide OutEvent, TcbOk;
  }

  lemma CloseQuietly(t: Tcb, x: Xmit)
    requires !CanSend(t)
    ensures var o := Close(t, x); o == Out(t.(state := o.t.state, timer := o.t.timer, msl := o.t.msl), [])
  {
    hide TcbOk;
  }

  /** tcp_destroy: everything but TIME_WAIT is released at once. */
  function Destroy(t: Tcb): Tcb {
    if t.state.TimeWait? then t else Abort(t).(state := Free)
  }
}
