/** The sending side of a connection over whole runs: what is accepted, written and announced. */
module Sendings {
  import opened Bytes

  datatype ConnState = Connecting | Connected | Disconnecting | Disconnected

  const EWOULDBLOCK: int := 11
  const EPIPE: int := 32
  const ECONNRESET: int := 104

  /** What write(2) returned. */
  datatype WriteResult = Wrote(n: nat) | WriteFailed(errno: int) {
    predicate Fits(len: nat) {
      Wrote? ==> n <= len
    }

    predicate PeerGone() {
      WriteFailed? && (errno == EPIPE || errno == ECONNRESET)
    }
  }

  /** What is announced: everything written, or the write side shut down. */
  datatype Mark = Completed | HalfClosed

  /** An announcement, and what had been accepted and written when it was made. */
  datatype Record = Record(mark: Mark, closed: bool, accepted: seq<byte>, written: seq<byte>)

  /** The output buffer holds what is accepted and not written. */
  datatype Sending = Sending(
    state: ConnState,
    accepted: seq<byte>,  // messages taken over from send, in order
    written: seq<byte>,   // bytes the kernel took
    asked: bool,          // whether shutdown took effect on the loop thread
    log: seq<Record>)
  {
    predicate Open() {
      state.Connected? || state.Disconnecting?
    }

    /** Something is buffered and the channel is writing. */
    predicate Busy() {
      Open() && written != accepted
    }

    function Marked(mark: Mark): Sending {
      this.(log := log + [Record(mark, state.Disconnected?, accepted, written)])
    }

    /** shutdownInLoop: nothing happens while the channel is writing. */
    function HalfClosing(): Sending {
      if Busy() then this else Marked(HalfClosed)
    }

    /** sendInLoop; callback says whether there is one for write-complete. */
    function Sent(data: seq<byte>, result: WriteResult, callback: bool): Sending
      requires result.Fits(|data|)
    {
      if state.Disconnected? || (!Busy() && result.PeerGone()) then this
      else
        var direct := !Busy() && result.Wrote?;
        var t := this.(accepted := accepted + data, written := written + if direct then data[..result.n] else []);
        if direct && result.n == |data| && callback then t.Marked(Completed) else t
    }

    /** handleWrite. */
    function Drained(result: WriteResult, callback: bool): Sending
      requires Busy() ==> |written| <= |accepted| && result.Fits(|accepted| - |written|)
    {
      if !Busy() || !result.Wrote? || result.n == 0 then this
      else
        var t := this.(written := accepted[..|written| + result.n]);
        if t.Busy() then t
        else
          var u := if callback then t.Marked(Completed) else t;
          if state.Disconnecting? then u.Marked(HalfClosed) else u
    }

    /** shutdown. */
    function ShutDown(inLoopThread: bool): Sending {
      if !state.Connected? then this
      else if inLoopThread then this.(state := Disconnecting, asked := true).HalfClosing()
      else this.(state := Disconnecting)
    }

    /** forceClose. */
    function Forced(): Sending {
      if Open() then this.(state := Disconnecting) else this
    }

    /** handleClose. */
    function Ended(): Sending {
      this.(state := Disconnected)
    }
  }

  datatype SendEvent =
    | SendData(data: seq<byte>, result: WriteResult)
    | DrainBuffer(result: WriteResult)
    | AskShutdown(inLoopThread: bool)
    | RunHalfClose                    // shutdownInLoop, queued from another thread
    | AskForceClose
    | CloseConnection

  predicate Can(s: Sending, e: SendEvent) {
    match e
    case SendData(data, result) => result.Fits(|data|)
    case DrainBuffer(result) => s.Busy() ==> |s.written| <= |s.accepted| && result.Fits(|s.accepted| - |s.written|)
    case CloseConnection => s.Open()
    case _ => true
  }

  function After(s: Sending, e: SendEvent, callback: bool): Sending
    requires Can(s, e)
  {
    match e
    case SendData(data, result) => s.Sent(data, result, callback)
    case DrainBuffer(result) => s.Drained(result, callback)
    case AskShutdown(inLoopThread) => s.ShutDown(inLoopThread)
    case RunHalfClose => s.HalfClosing()
    case AskForceClose => s.Forced()
    case CloseConnection => s.Ended()
  }

  ghost predicate SendRun(s0: Sending, es: seq<SendEvent>, s: Sending, callback: bool)
    decreases |es|
  {
    if es == [] then s == s0
    else Can(s0, es[0]) && SendRun(After(s0, es[0], callback), es[1..], s, callback)
  }

  const ESTABLISHED := Sending(Connected, [], [], false, [])

  // ---------- What is accepted ----------

  /** A message is not accepted if and only if the connection is disconnected, or nothing was buffered and the
      write failed with EPIPE or ECONNRESET; otherwise it follows what was accepted before. */
  lemma AcceptedIff(s: Sending, data: seq<byte>, result: WriteResult, callback: bool)
    requires result.Fits(|data|) && !s.state.Connecting?
    ensures var buffered := s.written != s.accepted;
      var failed := result.WriteFailed? && (result.errno == 32 || result.errno == 104);
      s.Sent(data, result, callback).accepted ==
        s.accepted + if s.state.Disconnected? || (!buffered && failed) then [] else data
  {
    assert s.accepted + [] == s.accepted;
  }

  /** The messages a run takes over, one after the other. */
  function Messages(s: Sending, es: seq<SendEvent>, callback: bool): seq<byte>
    decreases |es|
  {
    if es == [] || !Can(s, es[0]) then []
    else
      var t := After(s, es[0], callback);
      (match es[0]
       case SendData(data, WriteFailed(errno)) =>
         if s.state.Disconnected? || (s.written == s.accepted && (errno == 32 || errno == 104)) then [] else data
       case SendData(data, _) => if s.state.Disconnected? then [] else data
       case _ => [])
      + Messages(t, es[1..], callback)
  }

  lemma OnlySendAccepts(s: Sending, e: SendEvent, callback: bool)
    requires Can(s, e) && !e.SendData?
    ensures After(s, e, callback).accepted == s.accepted
  {
  }

  lemma NeverConnecting(s: Sending, e: SendEvent, callback: bool)
    requires Can(s, e) && !s.state.Connecting?
    ensures !After(s, e, callback).state.Connecting?
  {
  }

  /** Along every run exactly those messages have been accepted, in order. */
  lemma {:induction false} AcceptedAreMessages(s: Sending, es: seq<SendEvent>, t: Sending, callback: bool)
    requires SendRun(s, es, t, callback) && !s.state.Connecting?
    ensures t.accepted == s.accepted + Messages(s, es, callback)
    decreases |es|
  {
    if es == [] {
      assert s.accepted + [] == s.accepted;
    } else {
      var u, e := After(s, es[0], callback), es[0];
      NeverConnecting(s, e, callback);
      AcceptedAreMessages(u, es[1..], t, callback);
      if e.SendData? {
        AcceptedIff(s, e.data, e.result, callback);
        var m := if s.state.Disconnected? || (s.written == s.accepted && e.result.WriteFailed?
                                              && (e.result.errno == 32 || e.result.errno == 104)) then [] else e.data;
        hide After;
        Assoc(s.accepted, m, Messages(u, es[1..], callback));
      } else {
        OnlySendAccepts(s, e, callback);
        hide After;
        assert [] + Messages(u, es[1..], callback) == Messages(u, es[1..], callback);
      }
    }
  }

  // ---------- Invariant ----------

  /** Only the half-close of a closed connection may come with bytes unwritten. */
  predicate RecordOk(r: Record) {
    r.written <= r.accepted && (r.closed ==> r.mark.HalfClosed?) && (!r.closed ==> r.written == r.accepted)
  }

  predicate HasHalfClose(log: seq<Record>) {
    exists k :: 0 <= k < |log| && log[k].mark.HalfClosed?
  }

  ghost predicate SendOk(s: Sending) {
    && !s.state.Connecting? && s.written <= s.accepted
    && (forall k :: 0 <= k < |s.log| ==> RecordOk(s.log[k]))
    && (s.asked && s.Open() ==> s.state.Disconnecting? && (s.Busy() || HasHalfClose(s.log)))
  }

  lemma MarkKeeps(s: Sending, mark: Mark)
    requires !s.state.Connecting? && s.written <= s.accepted && (forall k :: 0 <= k < |s.log| ==> RecordOk(s.log[k]))
    requires !s.Busy() && (mark.Completed? ==> s.Open())
    ensures var t := s.Marked(mark);
      && (forall k :: 0 <= k < |t.log| ==> RecordOk(t.log[k]))
      && (mark.HalfClosed? || HasHalfClose(s.log) ==> HasHalfClose(t.log))
  {
    var t := s.Marked(mark);
    assert t.log[|s.log|].mark == mark;
    if k :| 0 <= k < |s.log| && s.log[k].mark.HalfClosed? {
      assert t.log[k] == s.log[k];
    }
  }

  lemma SentKeeps(s: Sending, data: seq<byte>, result: WriteResult, callback: bool)
    requires SendOk(s) && result.Fits(|data|)
    ensures SendOk(s.Sent(data, result, callback))
  {
    hide RecordOk, HasHalfClose;
    if !s.state.Disconnected? && !(!s.Busy() && result.PeerGone()) {
      var direct := !s.Busy() && result.Wrote?;
      var t := s.(accepted := s.accepted + data, written := s.written + if direct then data[..result.n] else []);
      if direct && result.n == |data| && callback {
        assert data[..result.n] == data;
        MarkKeeps(t, Completed);
      }
    }
  }

  lemma DrainedKeeps(s: Sending, result: WriteResult, callback: bool)
    requires SendOk(s) && Can(s, DrainBuffer(result))
    ensures SendOk(s.Drained(result, callback))
  {
    hide RecordOk, HasHalfClose;
    if s.Busy() && result.Wrote? && result.n > 0 {
      var t := s.(written := s.accepted[..|s.written| + result.n]);
      if !t.Busy() {
        var u := t;
        if callback {
          MarkKeeps(t, Completed);
          u := t.Marked(Completed);
        }
        if s.state.Disconnecting? {
          MarkKeeps(u, HalfClosed);
        }
      }
    }
  }

  /** Bytes the kernel takes from the buffer are the next ones, and the write that takes the last of them
      announces it: write-complete if there is a callback, then the half-close of a disconnecting one. */
  lemma DrainAnnounces(s: Sending, n: nat, callback: bool)
    requires SendOk(s) && s.Open() && s.written < s.accepted && 0 < n <= |s.accepted| - |s.written|
    ensures var t := s.Drained(Wrote(n), callback);
      && t.state == s.state && t.accepted == s.accepted && t.written == s.accepted[..|s.written| + n]
      && (t.written != t.accepted ==> t.log == s.log)
      && (t.written == t.accepted ==>
            t.log == s.log
                     + (if callback then [Record(Completed, false, s.accepted, s.accepted)] else [])
                     + (if s.state.Disconnecting? then [Record(HalfClosed, false, s.accepted, s.accepted)] else []))
  {
  }

  /** Which steps move the state: a shutdown of a connected connection, a forced close of an open one, a
      close. */
  lemma StatesFollow(s: Sending, e: SendEvent, callback: bool)
    requires Can(s, e)
    ensures var open := s.state == Connected || s.state == Disconnecting;
      After(s, e, callback).state ==
        if e == CloseConnection then Disconnected
        else if (e.AskShutdown? && s.state == Connected) || (e == AskForceClose && open) then Disconnecting
        else s.state
  {
  }

  /** The write side is shut down by a shutdown on the loop thread, or by one queued from another thread, at
      once if nothing is left to write, and otherwise not by them. */
  lemma HalfClosesIff(s: Sending, e: SendEvent, callback: bool)
    requires Can(s, e) && (e.AskShutdown? || e.RunHalfClose?)
    ensures var left := (s.state == Connected || s.state == Disconnecting) && s.written != s.accepted;
      var asks := e.RunHalfClose? || (e.inLoopThread && s.state == Connected);
      After(s, e, callback).log ==
        s.log + if asks && !left then [Record(HalfClosed, s.state == Disconnected, s.accepted, s.written)] else []
  {
    assert s.log + [] == s.log;
  }

  lemma HalfClosingKeeps(s: Sending)
    requires !s.state.Connecting? && s.written <= s.accepted && (forall k :: 0 <= k < |s.log| ==> RecordOk(s.log[k]))
    requires s.asked && s.Open() ==> s.state.Disconnecting?
    ensures SendOk(s.HalfClosing())
  {
    hide RecordOk, HasHalfClose;
    if !s.Busy() {
      MarkKeeps(s, HalfClosed);
    }
  }

  lemma SendStepKeeps(s: Sending, e: SendEvent, callback: bool)
    requires SendOk(s) && Can(s, e)
    ensures SendOk(After(s, e, callback))
  {
    match e
    case SendData(data, result) => SentKeeps(s, data, result, callback);
    case DrainBuffer(result) => DrainedKeeps(s, result, callback);
    case AskShutdown(inLoopThread) =>
      if s.state.Connected? && inLoopThread {
        HalfClosingKeeps(s.(state := Disconnecting, asked := true));
      }
    case RunHalfClose => HalfClosingKeeps(s);
    case AskForceClose =>
    case CloseConnection =>
  }

  lemma {:induction false} SendRunKeeps(s: Sending, es: seq<SendEvent>, t: Sending, callback: bool)
    requires SendOk(s) && SendRun(s, es, t, callback)
    ensures SendOk(t)
    decreases |es|
  {
    hide SendOk, Can, After;
    if es != [] {
      SendStepKeeps(s, es[0], callback);
      SendRunKeeps(After(s, es[0], callback), es[1..], t, callback);
    }
  }

  /** Along every run: the kernel has taken a prefix of what was accepted; every write-complete, and every
      half-close before the close, came with every accepted byte written; and a shutdown asked for on the
      loop thread is carried out as soon as nothing is left to write. */
  lemma AnnouncedOnlyWhenWritten(es: seq<SendEvent>, s: Sending, callback: bool)
    requires SendRun(ESTABLISHED, es, s, callback)
    ensures s.written <= s.accepted
    ensures forall k :: 0 <= k < |s.log| ==>
      s.log[k].written == s.log[k].accepted || (s.log[k].closed && s.log[k].mark.HalfClosed?)
    ensures s.asked && s.Open() && s.written == s.accepted ==> HasHalfClose(s.log)
  {
    SendRunKeeps(ESTABLISHED, es, s, callback);
    forall k | 0 <= k < |s.log|
      ensures s.log[k].written == s.log[k].accepted || (s.log[k].closed && s.log[k].mark.HalfClosed?)
    {
      assert RecordOk(s.log[k]);
    }
  }
}
