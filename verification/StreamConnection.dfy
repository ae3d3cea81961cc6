/** A stream connection: write directly or through the output buffer, drain on writable,
    half-close once drained, close. */
module StreamConnections {
  import opened Bytes
  import opened Buffers
  import opened EPollPollers
  import opened Sendings

  /** Functors the connection queues in its loop. */
  datatype Notice = WriteComplete | HighWaterMark(size: nat) | ForceCloseInLoop | HalfClose

  /** The functors one call may queue. */
  function Notices(complete: bool, high: bool, size: nat): (r: seq<Notice>)
    ensures |r| == (if complete then 1 else 0) + (if high then 1 else 0)
    ensures complete ==> r[0] == WriteComplete
    ensures high ==> r[|r| - 1] == HighWaterMark(size)
  {
    (if complete then [WriteComplete] else []) + (if high then [HighWaterMark(size)] else [])
  }

  lemma JoinNotices(before: seq<Notice>, complete: bool, high: bool, size: nat)
    ensures before + Notices(complete, false, 0) + Notices(false, high, size) == before + Notices(complete, high, size)
    ensures before + Notices(false, false, size) == before
  {
  }

  lemma NoNotice(before: seq<Notice>)
    ensures before + Notices(false, false, 0) == before
  {
  }

  class StreamConnection {
    var state: ConnState
    var reading: bool
    var channel: Interest
    var inputBuffer: Buffer
    var outputBuffer: Buffer
    var hasWriteCompleteCallback: bool
    var hasHighWaterMarkCallback: bool
    var highWaterMark: nat
    var notices: seq<Notice>  // queued in the loop
    var shutdowns: nat        // calls of shutdownWrite on the socket
    var closes: nat           // calls of the close callback

    ghost var accepted: seq<byte>  // messages taken over from send, in order
    ghost var written: seq<byte>   // bytes the kernel took
    ghost var asked: bool          // whether shutdown took effect on the loop thread
    ghost var log: seq<Record>     // write-completes and half-closes

    /** The sending side, without its storage. */
    ghost function View(): Sending
      reads this
    {
      Sending(state, accepted, written, asked, log)
    }

    ghost predicate Valid()
      reads this, inputBuffer, outputBuffer
    {
      && inputBuffer != outputBuffer && inputBuffer.buffer != outputBuffer.buffer
      && inputBuffer.Valid() && outputBuffer.Valid()
      && (channel.write ==> outputBuffer.ReadableBytes() > 0)
      && (state.Connecting? ==> channel == NO_INTEREST && outputBuffer.ReadableBytes() == 0)
      && (state.Connected? || state.Disconnecting? ==> (outputBuffer.ReadableBytes() > 0 ==> channel.write))
      && (state.Disconnected? ==> !channel.write)
      && (!channel.Watched() ==> channel.Idle())
      && closes == if state.Disconnected? then 1 else 0
    }

    /** Nothing is lost, duplicated or reordered between the user and the kernel. */
    ghost predicate Conserved()
      reads this, inputBuffer, outputBuffer, outputBuffer.buffer
      requires Valid()
    {
      written + outputBuffer.Contents() == accepted
    }

    constructor (writeComplete: bool, highWater: bool, mark: nat := 64 * 1024 * 1024)
      ensures Valid() && Conserved() && View() == Sending(Connecting, [], [], false, []) && notices == []
      ensures shutdowns == 0 && fresh(inputBuffer) && fresh(outputBuffer)
      ensures fresh(inputBuffer.buffer) && fresh(outputBuffer.buffer)
    {
      state, reading, channel := Connecting, true, NO_INTEREST;
      hasWriteCompleteCallback, hasHighWaterMarkCallback, highWaterMark := writeComplete, highWater, mark;
      notices, shutdowns, closes := [], 0, 0;
      accepted, written, asked, log := [], [], false, [];
      inputBuffer := new Buffer();
      outputBuffer := new Buffer();
    }

    method ConnectEstablished()
      requires Valid() && Conserved() && state.Connecting?
      modifies this`state, this`channel
      ensures Valid() && Conserved() && channel == Interest(true, false, ADDED)
      ensures View() == old(View()).(state := Connected)
    {
      state := Connected;
      channel := channel.ReadingEnabled();
    }

    method SendInLoop(data: seq<byte>, result: WriteResult)
      requires Valid() && Conserved() && !state.Connecting?
      requires result.Fits(|data|)
      modifies this`channel, this`notices, this`accepted, this`written, this`log, outputBuffer, outputBuffer.buffer
      ensures Valid() && Conserved()
      ensures outputBuffer.buffer == old(outputBuffer.buffer) || fresh(outputBuffer.buffer)
      ensures var idle := old(outputBuffer.ReadableBytes()) == 0;
        var gone := result.WriteFailed? && (result.errno == 32 || result.errno == 104);
        accepted == old(accepted) + if old(state).Disconnected? || (idle && gone) then [] else data
      ensures var direct := !old(state).Disconnected? && old(outputBuffer.ReadableBytes()) == 0 && result.Wrote?;
        var high := old(outputBuffer.ReadableBytes()) < highWaterMark <= outputBuffer.ReadableBytes();
        && written == old(written) + (if direct then data[..result.n] else [])
        && notices == old(notices) + Notices(direct && result.n == |data| && hasWriteCompleteCallback,
                                             high && hasHighWaterMarkCallback, outputBuffer.ReadableBytes())
      ensures channel == if channel.write && !old(channel).write then old(channel).WritingEnabled() else old(channel)
      ensures View() == old(View()).Sent(data, result, hasWriteCompleteCallback)
    {
      hide Buffer.Contents, Notices;
      BusyIsWriting();
      ghost var before, size := notices, outputBuffer.ReadableBytes();
      JoinNotices(before, false, false, size);
      if state.Disconnected? {
        return;
      }
      var rest, faultError, complete := TryWrite(data, result);
      assert |rest| <= |data|;
      if faultError {
        return;
      }
      accepted := accepted + data;
      var high := BufferRest(rest);
      JoinNotices(before, complete, high, outputBuffer.ReadableBytes());
      if complete {
        log := log + [Record(Completed, false, accepted, written)];
      }
    }

    /** The channel is writing exactly while something is buffered. */
    lemma BusyIsWriting()
      requires Valid() && Conserved()
      ensures View().Busy() <==> channel.write
    {
      hide Buffer.Contents, Buffer.Valid;
      if outputBuffer.ReadableBytes() == 0 {
        assert outputBuffer.Contents() == [];
        assert written + [] == written;
      }
    }

    /** With nothing queued, try writing directly; what is left, and whether the peer is gone. */
    method TryWrite(data: seq<byte>, result: WriteResult) returns (rest: seq<byte>, faultError: bool, complete: bool)
      requires Valid() && Conserved() && !state.Disconnected? && !state.Connecting?
      requires result.Fits(|data|)
      modifies this`notices, this`written
      ensures Valid() && |rest| <= |data|
      ensures var idle := outputBuffer.ReadableBytes() == 0;
        var taken := if idle && result.Wrote? then data[..result.n] else [];
        && faultError == (idle && result.WriteFailed? && (result.errno == 32 || result.errno == 104))
        && written == old(written) + taken && taken + rest == data
        && complete == (idle && result.Wrote? && result.n == |data| && hasWriteCompleteCallback)
      ensures written + outputBuffer.Contents() + rest == accepted + data
      ensures notices == old(notices) + Notices(complete, false, 0)
      ensures complete ==> rest == [] && outputBuffer.ReadableBytes() == 0
    {
      hide Buffer.Contents;
      rest, faultError, complete := data, false, false;
      if !channel.write && outputBuffer.ReadableBytes() == 0 {
        if result.Wrote? {
          SplitAt(data, result.n);
          Assoc(written, data[..result.n], data[result.n..]);
          assert outputBuffer.Contents() == [] && written + [] == written;
          written := written + data[..result.n];
          rest := data[result.n..];
          if rest == [] && hasWriteCompleteCallback {
            notices := notices + [WriteComplete];
            complete := true;
          }
        } else if result.errno != EWOULDBLOCK {
          faultError := result.PeerGone();
        }
      }
    }

    /** What the kernel did not take waits in the output buffer. */
    method BufferRest(rest: seq<byte>) returns (high: bool)
      requires Valid() && (state.Connected? || state.Disconnecting?)
      requires written + outputBuffer.Contents() + rest == accepted
      modifies this`channel, this`notices, outputBuffer, outputBuffer.buffer
      ensures Valid() && Conserved()
      ensures outputBuffer.buffer == old(outputBuffer.buffer) || fresh(outputBuffer.buffer)
      ensures outputBuffer.ReadableBytes() == old(outputBuffer.ReadableBytes()) + |rest|
      ensures notices == old(notices) + Notices(false, high, outputBuffer.ReadableBytes())
      ensures channel == if |rest| > 0 && !old(channel).write then old(channel).WritingEnabled() else old(channel)
      ensures high ==
        (hasHighWaterMarkCallback && old(outputBuffer.ReadableBytes()) < highWaterMark <= outputBuffer.ReadableBytes())
    {
      hide Buffer.Valid, Buffer.Contents, Buffer.KeepsReserve;
      var oldLen := outputBuffer.ReadableBytes();
      Assoc(written, outputBuffer.Contents(), rest);
      high := false;
      if |rest| > 0 {
        if oldLen + |rest| >= highWaterMark && oldLen < highWaterMark && hasHighWaterMarkCallback {
          high := true;
          notices := notices + [HighWaterMark(oldLen + |rest|)];
        }
        outputBuffer.Append(rest);
        if !channel.write {
          channel := channel.WritingEnabled();
        }
      } else {
        assert rest == [];
      }
    }

    /** The channel is writable: the kernel takes some of the buffered bytes. */
    method HandleWrite(result: WriteResult)
      requires Valid() && Conserved()
      requires result.Fits(outputBuffer.ReadableBytes())
      modifies this`channel, this`notices, this`written, this`shutdowns, this`log, outputBuffer
      ensures Valid() && Conserved() && outputBuffer.buffer == old(outputBuffer.buffer)
      ensures old(Can(View(), DrainBuffer(result)))
      ensures View() == old(View().Drained(result, hasWriteCompleteCallback))
      ensures written == old(written) +
        if old(channel.write) && result.Wrote? then old(outputBuffer.Contents())[..result.n] else []
      ensures channel == if old(channel).write && !channel.write then old(channel).WritingDisabled() else old(channel)
      ensures var drained := old(channel.write) && !channel.write;
        && (drained ==> written == accepted)
        && notices == old(notices) + Notices(drained && hasWriteCompleteCallback, false, 0)
        && shutdowns == old(shutdowns) + if drained && state.Disconnecting? then 1 else 0
    {
      hide Buffer.Valid, Buffer.Contents, Buffer.Peek, Notices;
      BusyIsWriting();
      NoNotice(notices);
      if channel.write && result.Wrote? && result.n > 0 {
        PrefixOfConcat(written, outputBuffer.Contents(), |written| + result.n);
        Assoc(written, outputBuffer.Contents()[..result.n], outputBuffer.Contents()[result.n..]);
        SplitAt(outputBuffer.Contents(), result.n);
        written := written + outputBuffer.Peek(0, result.n);
        outputBuffer.Retrieve(result.n);
        if outputBuffer.ReadableBytes() == 0 {
          channel := channel.WritingDisabled();
          BusyIsWriting();
          AnnounceDrained();
        } else {
          BusyIsWriting();
        }
      }
    }

    /** The end of handleWrite: nothing is left to write. */
    method AnnounceDrained()
      requires Valid() && Conserved() && !channel.write && !state.Connecting?
      modifies this`notices, this`shutdowns, this`log
      ensures Valid() && Conserved()
      ensures notices == old(notices) + Notices(hasWriteCompleteCallback, false, 0)
      ensures shutdowns == old(shutdowns) + if state.Disconnecting? then 1 else 0
      ensures var s := old(View());
        var t := if hasWriteCompleteCallback then s.Marked(Completed) else s;
        View() == if state.Disconnecting? then t.Marked(HalfClosed) else t
    {
      hide Buffer.Valid, Buffer.Contents;
      if hasWriteCompleteCallback {
        notices := notices + [WriteComplete];
        log := log + [Record(Completed, state.Disconnected?, accepted, written)];
      }
      if state.Disconnecting? {
        ShutdownInLoop();
      }
    }

    /** On another thread than the loop's the half-close is queued, and other steps fall in between. */
    method Shutdown(inLoopThread: bool)
      requires Valid() && Conserved()
      modifies this`state, this`shutdowns, this`notices, this`asked, this`log
      ensures Valid() && Conserved()
      ensures View() == old(View()).ShutDown(inLoopThread)
      ensures shutdowns == old(shutdowns) + if old(state).Connected? && inLoopThread && !channel.write then 1 else 0
      ensures notices == old(notices) + if old(state).Connected? && !inLoopThread then [HalfClose] else []
    {
      if state.Connected? {
        state := Disconnecting;
        if inLoopThread {
          asked := true;
          ShutdownInLoop();
        } else {
          notices := notices + [HalfClose];
        }
      }
    }

    /** The write side is shut down unless the channel is writing. */
    method ShutdownInLoop()
      requires Valid() && Conserved()
      modifies this`shutdowns, this`log
      ensures Valid() && Conserved()
      ensures View() == old(View()).HalfClosing()
      ensures shutdowns == old(shutdowns) + if channel.write then 0 else 1
    {
      BusyIsWriting();
      if !channel.write {
        shutdowns := shutdowns + 1;
        log := log + [Record(HalfClosed, state.Disconnected?, accepted, written)];
      }
    }

    method ForceClose()
      requires Valid() && Conserved()
      modifies this`state, this`notices
      ensures Valid() && Conserved()
      ensures View() == old(View()).Forced()
      ensures notices == old(notices) + if old(View()).Open() then [ForceCloseInLoop] else []
    {
      if state.Connected? || state.Disconnecting? {
        state := Disconnecting;
        notices := notices + [ForceCloseInLoop];
      }
    }

    method RunForceClose()
      requires Valid() && Conserved()
      modifies this`state, this`channel, this`closes
      ensures Valid() && Conserved()
      ensures if old(View()).Open()
        then View() == old(View()).Ended() && channel == old(channel).AllDisabled()
        else View() == old(View()) && channel == old(channel)
    {
      if state.Connected? || state.Disconnecting? {
        HandleClose();
      }
    }

    /** Its requires is its assert. A channel that was not watched is watched afterwards. */
    method HandleClose()
      requires Valid() && Conserved() && (state.Connected? || state.Disconnecting?)
      modifies this`state, this`channel, this`closes
      ensures Valid() && Conserved() && View() == old(View()).Ended() && closes == old(closes) + 1
      ensures channel == old(channel).AllDisabled()
      ensures channel.Idle() && channel.Watched() == !old(channel).Watched()
    {
      state := Disconnected;
      channel := channel.AllDisabled();
      closes := closes + 1;
    }

    /** The channel is readable: bytes reach the message callback, which consumes some of them;
        end of file closes, on which the assert of handleClose is required. */
    method HandleRead(result: ReadResult, consumed: nat)
      requires Valid() && Conserved()
      requires result == ReadBytes([]) ==> state.Connected? || state.Disconnecting?
      requires result.ReadBytes? ==> |result.data| <= inputBuffer.Offered()
      requires result.ReadBytes? ==> consumed <= inputBuffer.ReadableBytes() + |result.data|
      modifies this`state, this`channel, this`closes, inputBuffer, inputBuffer.buffer
      ensures Valid() && Conserved()
      ensures inputBuffer.buffer == old(inputBuffer.buffer) || fresh(inputBuffer.buffer)
      ensures result == ReadBytes([]) ==>
        View() == old(View()).Ended() && channel == old(channel).AllDisabled()
        && inputBuffer.Contents() == old(inputBuffer.Contents())
      ensures result != ReadBytes([]) ==> View() == old(View()) && channel == old(channel)
      ensures result.ReadBytes? && result.data != [] ==>
        inputBuffer.Contents() == (old(inputBuffer.Contents()) + result.data)[consumed..]
      ensures result.ReadFailed? ==> inputBuffer.Contents() == old(inputBuffer.Contents())
    {
      var n, savedErrno := inputBuffer.ReadFd(result);
      if n > 0 {
        inputBuffer.Retrieve(consumed);
      } else if n == 0 {
        HandleClose();
      }
    }

    /** Also on a closed connection, which is listened on again. */
    method StartReadInLoop()
      requires Valid() && Conserved() && !state.Connecting?
      modifies this`channel, this`reading
      ensures Valid() && Conserved() && reading && channel.read
      ensures channel == if old(reading) && old(channel).read then old(channel) else old(channel).ReadingEnabled()
    {
      if !reading || !channel.read {
        channel := channel.ReadingEnabled();
        reading := true;
      }
    }

    /** Also on a closed connection, whose channel is then watched if it was not. */
    method StopReadInLoop()
      requires Valid() && Conserved() && !state.Connecting?
      modifies this`channel, this`reading
      ensures Valid() && Conserved() && !reading && !channel.read
      ensures channel == if old(reading) || old(channel).read then old(channel).ReadingDisabled() else old(channel)
    {
      if reading || channel.read {
        channel := channel.ReadingDisabled();
        reading := false;
      }
    }
  }
}
