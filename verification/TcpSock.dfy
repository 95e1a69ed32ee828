/** The connection as the C code keeps it: fields updated in place, and two ring buffers that hold
    the bytes. Each method is proved to do to the record, with the contents of the rings in it,
    what the function of the same name in TcpModel says. */
module TcpSock {
  import opened Common
  import opened SeqNum
  import M = TcpModel
  import opened TcpBuf

  /** nxt is never behind una, so the data to send lies inside the send buffer. */
  predicate NxtOk(t: M.Tcb) {
    0 <= Diff(t.nxt, t.una) <= M.TCP_SBUF_SIZE + 1
  }

  lemma AckKeepsNxt(t: M.Tcb, ack: Seq)
    requires NxtOk(t)
    ensures NxtOk(M.AckProcess(t, ack).t)
  {
    if Slot(t.una, ack) < HALF {
      var t' := M.AckProcess(t, ack).t;
      M.AckInSlots(t, ack, t.una);
      DiffIsSlotDifference(t.una, t'.nxt, t'.una);
    }
  }

  class Sock {
    var state: M.State
    var synOut: bool
    var finOut: bool
    var irsValid: bool
    var finIn: bool
    var iss: Seq
    var una: Seq
    var nxt: Seq
    var irs: Seq
    var rcvNxt: Seq
    var mss: nat
    var ostate: M.OState
    var rexmitCnt: nat
    var rexmitMax: nat
    var rto: nat
    var timer: Option<nat>
    var msl: bool
    const snd: Ring
    const rcv: Ring

    /** The connection and its two rings with their arrays. */
    ghost function Repr(): set<object> {
      {this, snd, rcv, snd.data, rcv.data}
    }

    ghost predicate Valid()
      reads Repr()
    {
      && snd != rcv && snd.data != rcv.data
      && snd.Valid() && snd.data.Length == M.TCP_SBUF_SIZE
      && rcv.Valid() && rcv.data.Length == M.TCP_RBUF_SIZE
    }

    /** The record this object stands for: its fields and what the rings hold. */
    ghost function View(): (t: M.Tcb)
      requires Valid()
      reads Repr()
    {
      M.Tcb(state, synOut, finOut, irsValid, finIn, iss, una, nxt, snd.Contents(), irs, rcvNxt, rcv.Contents(),
            mss, ostate, rexmitCnt, rexmitMax, rto, timer, msl)
    }

    constructor ()
      ensures Valid() && View() == M.Fresh(M.Closed) && fresh(Repr())
    {
      snd := new Ring(M.TCP_SBUF_SIZE);
      rcv := new Ring(M.TCP_RBUF_SIZE);
      state, synOut, finOut, irsValid, finIn := M.Closed, false, false, false, false;
      iss, una, nxt, irs, rcvNxt, mss := 0, 0, 0, 0, 0, M.TCP_MSS;
      ostate, rexmitCnt, rexmitMax, rto := M.Idle, 0, M.TCP_INT_RETRIES, M.TCP_INIT_RTO;
      timer, msl := None, false;
    }

    /** tcp_rcv_window */
    method RcvWindow() returns (win: nat)
      requires Valid()
      ensures win == M.RcvWindow(View())
    {
      win := rcv.FreeCnt();
    }

    /** The header and data of a segment, with copy_send_data. */
    method Build(q: Seq, doff: nat, dlen: nat, fin: bool, x: M.Xmit) returns (s: M.Segment)
      requires Valid() && doff + dlen <= snd.count
      ensures s == M.Build(View(), q, doff, dlen, fin, x)
    {
      var win := RcvWindow();
      var data: seq<Byte> := [];
      if !x.NoPages? { data := snd.ReadSend(doff, dlen); }
      var opt := if synOut && !x.NoPages? then Some(mss) else None;
      s := M.Segment(q, rcvNxt, synOut, fin, false, irsValid, win, opt, data);
    }

    /** tcp_transmit */
    method Transmit(x: M.Xmit) returns (sent: seq<M.Segment>)
      requires Valid() && NxtOk(View())
      modifies this`nxt
      ensures Valid() && M.Transmit(old(View()), x) == M.Out(View(), sent)
    {
      hide Plus, M.Build;
      sent := [];
      var doff := if synOut then 0 else Diff(nxt, una);
      var dlen := Min(snd.count - doff, mss);
      if dlen < 0 { return; }
      var seqLen := dlen;
      if synOut { seqLen := seqLen + 1; }
      if snd.count == 0 && finOut { seqLen := seqLen + 1; }
      if seqLen == 0 || x.NoPacket? { return; }
      var fin := finOut && snd.count == 0;
      var s := Build(nxt, doff, dlen, fin, x);
      nxt := Plus(nxt, dlen + M.Bit(synOut) + M.Bit(fin));
      if !x.SendError? { sent := [s]; }
    }

    /** tcp_retransmit; `ok` is false when IP refused the segment. */
    method Retransmit(x: M.Xmit) returns (sent: seq<M.Segment>, ok: bool)
      requires Valid()
      modifies this`nxt
      ensures Valid() && M.Retransmit(old(View()), x) == M.Out(View(), sent)
      ensures ok == !M.RetransmitFails(old(View()), x)
    {
      hide Plus, M.Build;
      sent, ok := [], true;
      var dlen := Min(snd.count, mss);
      var seqLen := dlen;
      if synOut { seqLen := seqLen + 1; }
      if finOut { seqLen := seqLen + 1; }
      if seqLen == 0 || x.NoPacket? { return; }
      var fin := finOut && snd.count == 0;
      var s := Build(una, 0, dlen, fin, x);
      var diff := Diff(Plus(una, dlen), nxt);
      nxt := Plus(nxt, if diff > 0 then diff else 0);
      if x.SendError? { ok := false; } else { sent := [s]; }
    }

    /** tcp_set_ostate */
    method SetOState(s: M.OState)
      requires Valid()
      modifies this`ostate, this`rto, this`timer
      ensures Valid() && View() == M.SetOState(old(View()), s)
    {
      hide Diff, Plus;
      ostate := s;
      if s.Idle? {
        rto := M.TCP_INIT_RTO;
        timer := None;
      } else {
        timer := Some(rto);
      }
    }

    /** tcp_out_event with TCP_OEVENT_SEND */
    method OutEvent(x: M.Xmit) returns (sent: seq<M.Segment>)
      requires Valid() && NxtOk(View())
      modifies this`nxt, this`ostate, this`rto, this`timer
      ensures Valid() && M.OutEvent(old(View()), x) == M.Out(View(), sent)
    {
      hide M.Transmit, M.Retransmit, NxtOk, M.RetransmitFails;
      sent := [];
      if ostate.Idle? {
        sent := Transmit(x);
        SetOState(M.Sending);
      } else if una == nxt || finOut {
        if snd.count > 0 || finOut {
          sent := Transmit(x);
          SetOState(M.Sending);
        } else {
          SetOState(M.Idle);
        }
      } else if ostate.Rexmit? {
        SetOState(M.Rexmit);
        var ok;
        sent, ok := Retransmit(x);
      }
    }

    method Rearm(ms: nat)
      requires Valid()
      modifies this`rto, this`timer
      ensures Valid() && View() == old(View()).(rto := ms, timer := Some(ms))
    {
      rto, timer := ms, Some(ms);
    }

    /** The SENDING branch of tcp_out_timer_tmo. */
    method SendingTmo(x: M.Xmit) returns (sent: seq<M.Segment>)
      requires Valid()
      modifies this`nxt, this`ostate, this`rto, this`timer, this`rexmitCnt
      ensures Valid() && M.SendingTmo(old(View()), x) == M.Out(View(), sent)
    {
      hide M.Retransmit, M.RetransmitFails;
      var ok;
      sent, ok := Retransmit(x);
      if ok {
        rexmitCnt, ostate := 1, M.Rexmit;
        Rearm(2 * rto);
      }
    }

    method CountRexmit()
      requires Valid()
      modifies this`rexmitCnt
      ensures Valid() && View() == old(View()).(rexmitCnt := old(rexmitCnt) + 1)
    {
      rexmitCnt := rexmitCnt + 1;
    }

    /** The REXMIT branch of tcp_out_timer_tmo. */
    method RexmitTmo(x: M.Xmit) returns (sent: seq<M.Segment>)
      requires Valid()
      modifies this`nxt, this`rto, this`timer, this`rexmitCnt, this`msl, this`state
      ensures Valid() && M.RexmitTmo(old(View()), x) == M.Out(View(), sent)
    {
      hide M.Retransmit, M.RetransmitFails, M.TcbOk, M.Abort;
      sent := [];
      CountRexmit();
      if rexmitCnt > rexmitMax {
        Abort();
      } else {
        var ok;
        sent, ok := Retransmit(x);
        if ok { Rearm(Min(2 * rto, M.TCP_RTO_MAX)); }
      }
    }

    /** tcp_out_timer_tmo; the timer that fired is no longer armed. */
    method TimerTmo(x: M.Xmit) returns (sent: seq<M.Segment>)
      requires Valid()
      modifies this`nxt, this`ostate, this`rto, this`timer, this`rexmitCnt, this`msl, this`state
      ensures Valid() && M.TimerTmo(old(View()), x) == M.Out(View(), sent)
    {
      hide M.SendingTmo, M.RexmitTmo;
      sent := [];
      timer := None;
      if ostate.Sending? {
        sent := SendingTmo(x);
      } else if ostate.Rexmit? {
        sent := RexmitTmo(x);
      }
    }

    /** tcp_abort */
    method Abort()
      requires Valid()
      modifies this`timer, this`msl, this`state
      ensures Valid() && View() == M.Abort(old(View()))
    {
      hide Diff, Plus;
      timer, msl := None, false;
      state := M.Closed;
    }

    /** tcp_time_wait */
    method EnterTimeWait()
      requires Valid()
      modifies this`timer, this`msl, this`state
      ensures Valid() && View() == M.EnterTimeWait(old(View()))
    {
      hide Diff, Plus;
      state := M.TimeWait;
      timer := None;
      msl := true;
    }

    /** tcp_seq_acceptable */
    method SeqAcceptable(s: M.Segment) returns (ok: bool)
      requires Valid()
      ensures ok == M.SeqAcceptable(View(), s)
    {
      var win := RcvWindow();
      var len := M.SeqLen(s);
      if len == 0 {
        if win == 0 {
          ok := s.seq_ == rcvNxt;
        } else {
          ok := SeqLe(rcvNxt, s.seq_) && SeqLe(s.seq_, Plus(rcvNxt, win - 1));
        }
      } else if win == 0 {
        ok := false;
      } else {
        var last := Plus(s.seq_, len - 1);
        ok := SeqLe(rcvNxt, s.seq_) && SeqLe(s.seq_, Plus(rcvNxt, win - 1));
        ok := ok || (SeqLe(rcvNxt, last) && SeqLe(last, Plus(rcvNxt, win - 1)));
      }
    }

    /** The part of tcp_ack_process for `curr` acknowledged slots: bytes leave the ring, and what
        is left over acknowledges the FIN. */
    method DropAcked(curr: nat)
      requires Valid()
      modifies this`una, this`finOut, snd
      ensures Valid()
      ensures var t := old(View()); var n := Min(curr, |t.sbuf|);
        View() == t.(una := Plus(t.una, curr), sbuf := t.sbuf[n..], finOut := t.finOut && curr == n)
    {
      hide Plus;
      una := Plus(una, curr);
      var n := snd.Remove(curr);
      if curr - n > 0 && finOut { finOut := false; }
    }

    /** tcp_ack_process */
    method AckProcess(ack: Seq) returns (ok: bool)
      requires Valid()
      modifies this`una, this`synOut, this`finOut, snd
      ensures Valid() && M.AckProcess(old(View()), ack) == M.AckResult(View(), ok)
    {
      hide Diff, Plus;
      if SeqLe(ack, una) { return true; }
      if SeqLt(nxt, ack) { return false; }
      SynAcked();
      var curr := Min(Diff(ack, una), Diff(nxt, una));
      PlusZero(una);
      if curr > 0 { DropAcked(curr); }
      ok := true;
    }

    method SynAcked()
      requires Valid()
      modifies this`una, this`synOut
      ensures Valid()
      ensures var t := old(View()); View() == t.(una := if t.synOut then Plus(t.una, 1) else t.una, synOut := false)
    {
      hide Plus;
      if synOut {
        una := Plus(una, 1);
        synOut := false;
      }
    }

    /** copy_data_to_rcvbuf: data counts only at rcv.nxt, and only as far as it fits. */
    method CopyData(s: M.Segment) returns (size: nat)
      requires Valid()
      modifies rcv, rcv.data
      ensures Valid()
      ensures size == if s.data != [] && s.seq_ == rcvNxt then Min(|s.data|, M.RcvWindow(old(View()))) else 0
      ensures View() == old(View()).(rbuf := old(View()).rbuf + s.data[..size])
    {
      size := 0;
      if s.data != [] && s.seq_ == rcvNxt {
        size := rcv.WriteRcv(0, s.data);
      }
    }

    /** The data part of tcp_data_in. */
    method TakeData(s: M.Segment) returns (size: nat)
      requires Valid()
      modifies this`rcvNxt, rcv, rcv.data
      ensures Valid()
      ensures size == if s.data != [] && s.seq_ == old(rcvNxt) then Min(|s.data|, M.RcvWindow(old(View()))) else 0
      ensures var t := old(View()); View() == t.(rbuf := t.rbuf + s.data[..size], rcvNxt := Plus(t.rcvNxt, size))
    {
      hide Plus;
      PlusZero(rcvNxt);
      size := CopyData(s);
      if size > 0 { rcvNxt := Plus(rcvNxt, size); }
    }

    /** The FIN part: it counts only when everything before it has been received. */
    method TakeFin(s: M.Segment) returns (fin: bool)
      requires Valid()
      modifies this`rcvNxt, this`finIn
      ensures Valid() && fin == (s.fin && old(rcvNxt) == s.seq_)
      ensures var t := old(View()); View() == if fin then t.(rcvNxt := Plus(t.rcvNxt, 1), finIn := true) else t
    {
      hide Plus;
      fin := s.fin && rcvNxt == s.seq_;
      if fin { rcvNxt, finIn := Plus(rcvNxt, 1), true; }
    }

    /** tcp_data_in */
    method DataIn(s: M.Segment) returns (sent: seq<M.Segment>)
      requires Valid()
      modifies this`rcvNxt, this`finIn, rcv, rcv.data
      ensures Valid() && M.DataIn(old(View()), s) == M.Out(View(), sent)
    {
      hide Plus, M.SendAck;
      sent := [];
      var size := TakeData(s);
      var fin := TakeFin(s);
      if size > 0 || fin { sent := SendAck(s); }
    }

    /** tcp_send_ack */
    method SendAck(s: M.Segment) returns (sent: seq<M.Segment>)
      requires Valid()
      ensures sent == M.SendAck(View(), s)
    {
      if s.rst { return []; }
      var win := RcvWindow();
      sent := [M.Segment(nxt, rcvNxt, false, false, false, true, win, None, [])];
    }

    /** The part the receiving handlers share: acknowledgement, data, send event. */
    method AckDataOut(s: M.Segment, x: M.Xmit) returns (sent: seq<M.Segment>, ok: bool)
      requires Valid() && NxtOk(View())
      modifies Repr()
      ensures Valid()
      ensures M.AckDataOut(old(View()), s, x) == if ok then M.Go(M.Out(View(), sent)) else M.Stop
      ensures !ok ==> View() == old(View()) && sent == []
    {
      hide M.AckProcess, M.DataIn, M.OutEvent, NxtOk;
      AckKeepsNxt(View(), s.ack);
      AckFails(View(), s.ack);
      sent := [];
      ok := AckProcess(s.ack);
      if ok {
        var acks := DataIn(s);
        NxtFrame(M.AckProcess(old(View()), s.ack).t, View());
        sent := OutEvent(x);
        sent := acks + sent;
      }
    }

    method AckOut(s: M.Segment, x: M.Xmit) returns (sent: seq<M.Segment>, ok: bool)
      requires Valid() && NxtOk(View())
      modifies Repr()
      ensures Valid()
      ensures M.AckOut(old(View()), s, x) == if ok then M.Go(M.Out(View(), sent)) else M.Stop
      ensures !ok ==> View() == old(View()) && sent == []
    {
      hide M.AckProcess, M.OutEvent, NxtOk;
      AckKeepsNxt(View(), s.ack);
      AckFails(View(), s.ack);
      sent := [];
      ok := AckProcess(s.ack);
      if ok { sent := OutEvent(x); }
    }

    method EstablishedIn(s: M.Segment, x: M.Xmit) returns (sent: seq<M.Segment>)
      requires Valid() && NxtOk(View())
      modifies Repr()
      ensures Valid() && M.EstablishedIn(old(View()), s, x) == M.Out(View(), sent)
    {
      hide M.AckDataOut, NxtOk;
      var ok;
      sent, ok := AckDataOut(s, x);
      if ok && finIn { state := M.CloseWait; }
    }

    method FinWait1In(s: M.Segment, x: M.Xmit) returns (sent: seq<M.Segment>)
      requires Valid() && NxtOk(View())
      modifies Repr()
      ensures Valid() && M.FinWait1In(old(View()), s, x) == M.Out(View(), sent)
    {
      hide M.AckDataOut, NxtOk;
      var ok;
      sent, ok := AckDataOut(s, x);
      if ok {
        if !finOut {
          if finIn { EnterTimeWait(); } else { state := M.FinWait2; }
        } else if finIn {
          state := M.Closing;
        }
      }
    }

    method FinWait2In(s: M.Segment, x: M.Xmit) returns (sent: seq<M.Segment>)
      requires Valid() && NxtOk(View())
      modifies Repr()
      ensures Valid() && M.FinWait2In(old(View()), s, x) == M.Out(View(), sent)
    {
      hide M.AckDataOut, NxtOk;
      var ok;
      sent, ok := AckDataOut(s, x);
      if ok && finIn { EnterTimeWait(); }
    }

    method ClosingIn(s: M.Segment, x: M.Xmit) returns (sent: seq<M.Segment>)
      requires Valid() && NxtOk(View())
      modifies Repr()
      ensures Valid() && M.ClosingIn(old(View()), s, x) == M.Out(View(), sent)
    {
      hide M.AckOut, NxtOk;
      var ok;
      sent, ok := AckOut(s, x);
      if ok && !finOut { EnterTimeWait(); }
    }

    method CloseWaitIn(s: M.Segment, x: M.Xmit) returns (sent: seq<M.Segment>)
      requires Valid() && NxtOk(View())
      modifies Repr()
      ensures Valid() && M.CloseWaitIn(old(View()), s, x) == M.Out(View(), sent)
    {
      hide M.AckOut, NxtOk;
      var ok;
      sent, ok := AckOut(s, x);
    }

    method SynRecvdIn(s: M.Segment, x: M.Xmit) returns (sent: seq<M.Segment>)
      requires Valid() && NxtOk(View())
      modifies Repr()
      ensures Valid() && M.SynRecvdIn(old(View()), s, x) == M.Out(View(), sent)
    {
      hide M.AckOut, NxtOk;
      var ok;
      sent, ok := AckOut(s, x);
      if ok { state := if s.fin then M.CloseWait else M.Established; }
    }

    method LastAckIn(s: M.Segment) returns (sent: seq<M.Segment>)
      requires Valid()
      modifies Repr()
      ensures Valid() && M.LastAckIn(old(View()), s) == M.Out(View(), sent)
    {
      hide M.AckProcess;
      AckFails(View(), s.ack);
      sent := [];
      var ok := AckProcess(s.ack);
      if ok && !finOut { Abort(); }
    }

    method TimeWaitIn(s: M.Segment) returns (sent: seq<M.Segment>)
      requires Valid()
      modifies Repr()
      ensures Valid() && M.TimeWaitIn(old(View()), s) == M.Out(View(), sent)
    {
      hide M.AckProcess, M.DataIn, M.SendAck;
      AckFails(View(), s.ack);
      sent := [];
      var ok := AckProcess(s.ack);
      if ok {
        sent := DataIn(s);
        if finIn {
          var acks := SendAck(s);
          sent := sent + acks;
          EnterTimeWait();
        }
      }
    }

    /** tcp_send_syn */
    method SendSyn(x: M.Xmit) returns (sent: seq<M.Segment>)
      requires Valid() && NxtOk(View())
      modifies Repr()
      ensures Valid() && M.SendSyn(old(View()), x) == M.Out(View(), sent)
    {
      hide M.OutEvent, M.TcbOk, NxtOk;
      synOut := true;
      NxtFrame(old(View()), View());
      sent := OutEvent(x);
    }

    method ClearBuffers()
      requires Valid()
      modifies snd, rcv
      ensures Valid() && View() == old(View()).(sbuf := [], rbuf := [])
    {
      snd.Clear();
      rcv.Clear();
    }

    method InitSend(isn: Seq)
      requires Valid()
      modifies this`iss, this`una, this`nxt
      ensures Valid() && View() == old(View()).(iss := isn, una := isn, nxt := isn)
    {
      iss, una, nxt := isn, isn, isn;
    }

    /** tcp_init_connect */
    method InitConnect(isn: Seq)
      requires Valid()
      modifies this`iss, this`una, this`nxt, this`rcvNxt, this`mss, snd, rcv
      ensures Valid() && NxtOk(View())
      ensures View() ==
        old(View()).(iss := isn, una := isn, nxt := isn, sbuf := [], rbuf := [], rcvNxt := 0, mss := M.TCP_MSS)
    {
      hide NxtOk, Diff, Plus;
      ClearBuffers();
      InitSend(isn);
      rcvNxt, mss := 0, M.TCP_MSS;
      NothingSent(View());
    }

    /** tcp_connect on a closed socket */
    method Connect(isn: Seq, x: M.Xmit) returns (sent: seq<M.Segment>)
      requires Valid()
      modifies Repr()
      ensures Valid() && M.Connect(old(View()), isn, x) == M.Out(View(), sent)
    {
      hide M.SendSyn, M.TcbOk, NxtOk;
      InitConnect(isn);
      sent := SendSyn(x);
      state := M.SynSent;
    }

    /** tcp_read_options, as far as the segment size goes */
    method ReadOptions(s: M.Segment)
      requires Valid()
      modifies this`mss
      ensures Valid() && View() == M.ReadOptions(old(View()), s)
    {
      if s.mssOpt.Some? && mss > s.mssOpt.value { mss := s.mssOpt.value; }
    }

    method SynSentIn(s: M.Segment, x: M.Xmit) returns (sent: seq<M.Segment>)
      requires Valid() && NxtOk(View())
      modifies Repr()
      ensures Valid() && M.SynSentIn(old(View()), s, x) == M.Out(View(), sent)
    {
      hide M.OutEvent, M.SendSyn, M.AckProcess, M.SendAck, M.SendReset, M.ReadOptions, M.TcbOk, NxtOk;
      sent := [];
      if s.isAck && (s.ack == iss || s.ack != nxt) {
        sent := M.SendReset(s);
      } else if s.rst {
        if s.isAck { Abort(); }
      } else if s.syn {
        sent := SynIn(s, x);
      }
    }

    /** What a SYN tells about the peer. */
    method LearnPeer(s: M.Segment)
      requires Valid()
      modifies this`mss, this`irs, this`rcvNxt, this`irsValid
      ensures Valid()
      ensures View() == M.ReadOptions(old(View()), s).(irs := s.seq_, rcvNxt := Plus(s.seq_, 1), irsValid := true)
    {
      ReadOptions(s);
      irs, rcvNxt, irsValid := s.seq_, Plus(s.seq_, 1), true;
    }

    method SynIn(s: M.Segment, x: M.Xmit) returns (sent: seq<M.Segment>)
      requires Valid() && NxtOk(View()) && s.syn && !s.rst && (s.isAck ==> s.ack != iss && s.ack == nxt)
      modifies Repr()
      ensures Valid() && M.SynSentIn(old(View()), s, x) == M.Out(View(), sent)
    {
      hide M.OutEvent, M.SendSyn, M.AckProcess, M.SendAck, M.SendReset, M.TcbOk, NxtOk;
      LearnPeer(s);
      NxtFrame(old(View()), View());
      if s.isAck {
        ghost var t := View();
        AckKeepsNxt(t, s.ack);
        AckFails(t, s.ack);
        var _ := AckProcess(s.ack);
      }
      sent := Answer(s, x);
    }

    /** The answer to a SYN: established if ours is acknowledged, else a SYN of ours again. */
    method Answer(s: M.Segment, x: M.Xmit) returns (sent: seq<M.Segment>)
      requires Valid() && NxtOk(View())
      modifies Repr()
      ensures Valid()
      ensures M.AnswerSyn(old(View()), s, x) == M.Out(View(), sent)
    {
      hide M.OutEvent, M.SendSyn, M.SendAck, M.TcbOk, NxtOk;
      if una != iss {
        var acks := SendAck(s);
        sent := OutEvent(x);
        sent := acks + sent;
        state := M.Established;
      } else {
        state := M.SynRecvd;
        NxtFrame(old(View()), View());
        sent := SendSyn(x);
      }
    }

    /** tcp_create_child */
    method NewChild(s: M.Segment, isn: Seq) returns (child: Sock)
      ensures fresh(child.Repr()) && child.Valid() && NxtOk(child.View())
      ensures child.View() == Child(s, isn)
    {
      hide NxtOk, Diff, Plus, M.ReadOptions;
      child := new Sock();
      child.InitConnect(isn);
      ghost var t := child.View();
      child.LearnPeer(s);
      OptionsApart(t, s, isn);
      NxtFrame(t, child.View());
    }

    /** The connection that a SYN to a listener starts. */
    method CreateChild(s: M.Segment, isn: Seq, x: M.Xmit) returns (child: Sock, sent: seq<M.Segment>)
      requires Valid() && state.Listen? && s.syn && !s.rst && !s.isAck
      ensures fresh(child.Repr()) && child.Valid()
      ensures M.ListenIn(View(), s, isn, x) == M.Out(child.View(), sent)
    {
      hide M.SendSyn, M.TcbOk, NxtOk, Plus, M.ReadOptions;
      child := NewChild(s, isn);
      sent := child.SendSyn(x);
      child.SetState(M.SynRecvd);
    }

    /** tcp_in: a closed record answers with a reset, a listening one may start a child, and a
        connection that is open or opening takes the segment itself. */
    method In(s: M.Segment, isn: Seq, x: M.Xmit) returns (sent: seq<M.Segment>, child: Sock?)
      requires Valid() && (state in {M.Free, M.Closed, M.Listen} || NxtOk(View()))
      modifies Repr()
      ensures Valid()
      ensures child == null ==> M.Inbound(old(View()), s, isn, x) == M.Out(View(), sent)
      ensures child != null ==>
        && old(state).Listen? && View() == old(View()) && fresh(child.Repr()) && child.Valid()
        && M.Inbound(old(View()), s, isn, x) == M.Out(child.View(), sent)
    {
      hide M.ListenIn, M.SendReset, M.SynSentIn, M.SeqAcceptable, M.Handle, NxtOk;
      sent, child := [], null;
      if state.Free? || state.Closed? {
        sent := M.SendReset(s);
      } else if state.Listen? {
        sent, child := ListenIn(s, isn, x);
      } else if state.SynSent? {
        sent := SynSentIn(s, x);
      } else {
        sent := OpenIn(s, x);
        SkipsListen(old(View()), s, isn, x);
      }
    }

    /** tcp_listen_in */
    method ListenIn(s: M.Segment, isn: Seq, x: M.Xmit) returns (sent: seq<M.Segment>, child: Sock?)
      requires Valid() && state.Listen?
      ensures child == null ==> M.ListenIn(View(), s, isn, x) == M.Out(View(), sent)
      ensures child != null ==>
        fresh(child.Repr()) && child.Valid() && M.ListenIn(View(), s, isn, x) == M.Out(child.View(), sent)
    {
      hide M.SendSyn, M.SendReset;
      sent, child := [], null;
      if s.rst {
      } else if s.isAck {
        sent := M.SendReset(s);
      } else if s.syn {
        child, sent := CreateChild(s, isn, x);
      }
    }

    /** tcp_in from SYN_RECVD on: the acceptance test, RST and SYN, and the handler of the state. */
    method OpenIn(s: M.Segment, x: M.Xmit) returns (sent: seq<M.Segment>)
      requires Valid() && NxtOk(View()) && state !in {M.Free, M.Closed, M.Listen, M.SynSent}
      modifies Repr()
      ensures Valid() && M.Inbound(old(View()), s, 0, x) == M.Out(View(), sent)
    {
      hide M.SeqAcceptable, M.SynRecvdIn, M.EstablishedIn, M.FinWait1In, M.FinWait2In, M.ClosingIn,
        M.TimeWaitIn, M.CloseWaitIn, M.LastAckIn, M.SynSentIn, NxtOk;
      sent := [];
      var ok := SeqAcceptable(s);
      if !ok {
      } else if s.rst {
        Abort();
      } else if s.syn {
        sent := M.SendReset(s);
        Abort();
      } else if state.SynRecvd? {
        sent := SynRecvdIn(s, x);
      } else if state.Established? {
        sent := EstablishedIn(s, x);
      } else if state.FinWait1? {
        sent := FinWait1In(s, x);
      } else if state.FinWait2? {
        sent := FinWait2In(s, x);
      } else if state.Closing? {
        sent := ClosingIn(s, x);
      } else if state.TimeWait? {
        sent := TimeWaitIn(s);
      } else if state.CloseWait? {
        sent := CloseWaitIn(s, x);
      } else {
        sent := LastAckIn(s);
      }
    }

    /** tcp_send with tcp_write_sndbuf */
    method Send(bytes: seq<Byte>, x: M.Xmit) returns (n: nat, sent: seq<M.Segment>)
      requires Valid() && NxtOk(View())
      modifies Repr()
      ensures Valid() && M.Send(old(View()), bytes, x) == M.Out(View(), sent)
      ensures n == M.Taken(old(View()), |bytes|)
    {
      hide M.OutEvent;
      n, sent := 0, [];
      if state.Established? || state.CloseWait? {
        n := Min(|bytes|, snd.FreeCnt());
        if n > 0 {
          snd.WriteSend(bytes[..n]);
          sent := OutEvent(x);
        }
      }
    }

    /** tcp_recv */
    method Recv(len: nat) returns (out: seq<Byte>)
      requires Valid()
      modifies rcv
      ensures Valid() && View() == M.Recv(old(View()), len)
      ensures out + View().rbuf == old(View()).rbuf && |out| == M.Given(old(View()), len)
    {
      out := [];
      if state in {M.CloseWait, M.Closing, M.FinWait1, M.FinWait2, M.Established} {
        out := rcv.ReadRcv(len);
      }
    }

    /** tcp_set_state */
    method SetState(s: M.State)
      requires Valid()
      modifies this`state
      ensures Valid() && View() == old(View()).(state := s)
    {
      state := s;
    }

    /** tcp_close */
    method Close(x: M.Xmit) returns (sent: seq<M.Segment>)
      requires Valid() && NxtOk(View())
      modifies Repr()
      ensures Valid() && M.Close(old(View()), x) == M.Out(View(), sent)
    {
      hide M.SendFin, M.Abort, M.TcbOk, NxtOk;
      sent := [];
      if state.Closed? {
        SetState(M.Free);
      } else if state.SynRecvd? || state.SynSent? {
        Abort();
        SetState(M.Free);
      } else if state.CloseWait? {
        sent := SendFin(x);
        SetState(M.LastAck);
      } else if state.Established? {
        sent := SendFin(x);
        SetState(M.FinWait1);
      }
    }

    /** tcp_send_fin */
    method SendFin(x: M.Xmit) returns (sent: seq<M.Segment>)
      requires Valid() && NxtOk(View())
      modifies Repr()
      ensures Valid() && M.SendFin(old(View()), x) == M.Out(View(), sent)
    {
      hide M.OutEvent;
      finOut := true;
      sent := OutEvent(x);
    }
  }

  lemma AckFails(t: M.Tcb, ack: Seq)
    ensures !M.AckProcess(t, ack).ok ==> M.AckProcess(t, ack).t == t
  {
  }

  /** The record of a child before its SYN goes out. */
  function Child(s: M.Segment, isn: Seq): M.Tcb {
    M.ReadOptions(M.Fresh(M.Closed), s).(
      iss := isn, una := isn, nxt := isn,
      irsValid := true, irs := s.seq_, rcvNxt := Plus(s.seq_, 1))
  }

  lemma OptionsApart(t: M.Tcb, s: M.Segment, isn: Seq)
    requires t == M.Fresh(M.Closed).(iss := isn, una := isn, nxt := isn)
    ensures M.ReadOptions(t, s).(irs := s.seq_, rcvNxt := Plus(s.seq_, 1), irsValid := true) == Child(s, isn)
    ensures M.ReadOptions(t, s).nxt == t.nxt && M.ReadOptions(t, s).una == t.una
  {
  }

  lemma SkipsListen(t: M.Tcb, s: M.Segment, isn: Seq, x: M.Xmit)
    requires !t.state.Listen?
    ensures M.Inbound(t, s, isn, x) == M.Inbound(t, s, 0, x)
  {
  }

  lemma NothingSent(t: M.Tcb)
    requires t.nxt == t.una
    ensures NxtOk(t)
  {
  }

  lemma NxtFrame(t: M.Tcb, t': M.Tcb)
    requires NxtOk(t) && t'.nxt == t.nxt && t'.una == t.una
    ensures NxtOk(t')
  {
  }

  lemma PlusZero(x: Seq)
    ensures Plus(x, 0) == x
  {
  }
}
