/** Channels, the epoll poller and the kernel's interest set. Channels are objects, the poller holds
    references to them, and epoll_ctl fails as the kernel does: EEXIST and ENOENT. */
module EPollPollers {
  type Mask = bv16

  const POLLIN: Mask := 0x1
  const POLLPRI: Mask := 0x2
  const POLLOUT: Mask := 0x4
  const POLLERR: Mask := 0x8
  const POLLHUP: Mask := 0x10
  const POLLNVAL: Mask := 0x20
  const POLLRDHUP: Mask := 0x2000

  const NONE_EVENT: Mask := 0
  const READ_EVENT: Mask := 3  // POLLIN | POLLPRI
  const WRITE_EVENT: Mask := 4 // POLLOUT

  const NEW := -1
  const ADDED := 1
  const DELETED := 2

  datatype Operation = Add | Mod | Del

  // ---------- Dispatch of one event ----------

  datatype Callback = CloseCallback | ErrorCallback | ReadCallback | WriteCallback

  predicate Has(revents: Mask, bits: Mask) {
    revents & bits != 0
  }

  /** handleEventWithGuard: the callbacks run for one event, in order. */
  function Dispatched(revents: Mask): seq<Callback> {
    (if Has(revents, POLLHUP) && !Has(revents, POLLIN) then [CloseCallback] else []) +
    (if Has(revents, POLLERR | POLLNVAL) then [ErrorCallback] else []) +
    (if Has(revents, POLLIN | POLLPRI | POLLRDHUP) then [ReadCallback] else []) +
    (if Has(revents, POLLOUT) then [WriteCallback] else [])
  }

  lemma ReadBits(revents: Mask)
    ensures Has(revents, POLLIN | POLLPRI | POLLRDHUP) <==>
      Has(revents, POLLIN) || Has(revents, POLLPRI) || Has(revents, POLLRDHUP)
  {
    assert POLLIN | POLLPRI | POLLRDHUP == 0x2003;
  }

  function If(condition: bool, callback: Callback): (r: seq<Callback>)
    ensures forall c :: c in r <==> condition && c == callback
    ensures |r| <= 1
  {
    if condition then [callback] else []
  }

  /** The callbacks come in the order close, error, read, write, each at most once. */
  lemma PartsInOrder(close: bool, error: bool, read: bool, write: bool)
    ensures var d := If(close, CloseCallback) + If(error, ErrorCallback)
                     + If(read, ReadCallback) + If(write, WriteCallback);
      && (CloseCallback in d <==> close) && (ErrorCallback in d <==> error)
      && (ReadCallback in d <==> read) && (WriteCallback in d <==> write)
      && forall i, j :: 0 <= i < j < |d| ==> Rank(d[i]) < Rank(d[j])
  {
  }

  /** Which callbacks an event runs, and that they come in the order close, error, read, write. */
  lemma DispatchedIff(revents: Mask)
    ensures CloseCallback in Dispatched(revents) <==> revents & 0x10 != 0 && revents & 0x1 == 0
    ensures ErrorCallback in Dispatched(revents) <==> revents & 0x28 != 0
    ensures ReadCallback in Dispatched(revents) <==> revents & 0x2003 != 0
    ensures WriteCallback in Dispatched(revents) <==> revents & 0x4 != 0
    ensures forall i, j :: 0 <= i < j < |Dispatched(revents)| ==>
      Rank(Dispatched(revents)[i]) < Rank(Dispatched(revents)[j])
  {
    assert POLLERR | POLLNVAL == 0x28 && POLLIN | POLLPRI | POLLRDHUP == 0x2003;
    assert Has(revents, 0x10) == (revents & 0x10 != 0) && Has(revents, 0x1) == (revents & 0x1 != 0);
    assert Has(revents, 0x28) == (revents & 0x28 != 0) && Has(revents, 0x2003) == (revents & 0x2003 != 0);
    assert Has(revents, 0x4) == (revents & 0x4 != 0);
    hide Has;
    PartsInOrder(Has(revents, 0x10) && !Has(revents, 0x1), Has(revents, 0x28), Has(revents, 0x2003), Has(revents, 0x4));
    assert Dispatched(revents) == If(Has(revents, 0x10) && !Has(revents, 0x1), CloseCallback)
      + If(Has(revents, 0x28), ErrorCallback) + If(Has(revents, 0x2003), ReadCallback)
      + If(Has(revents, 0x4), WriteCallback);
    hide Dispatched, If;
  }

  function Rank(callback: Callback): nat {
    match callback
    case CloseCallback => 0
    case ErrorCallback => 1
    case ReadCallback => 2
    case WriteCallback => 3
  }

  // ---------- Interest of one channel ----------

  /** No bit but IN, PRI, OUT, ERR and HUP. */
  predicate OnlyPollBits(revents: Mask) {
    revents & 0xFFE0 == 0
  }

  predicate Reads(mask: Mask) {
    Has(mask, READ_EVENT)
  }

  predicate Writes(mask: Mask) {
    Has(mask, WRITE_EVENT)
  }

  /** Masks are combinations of the read and the write event. */
  predicate Plain(mask: Mask) {
    mask == NONE_EVENT || mask == READ_EVENT || mask == WRITE_EVENT || mask == READ_EVENT | WRITE_EVENT
  }

  function With(mask: Mask, bits: Mask): Mask {
    mask | bits
  }

  function Without(mask: Mask, bits: Mask): Mask {
    mask & !bits
  }

  lemma MaskBits(mask: Mask)
    requires Plain(mask)
    ensures Plain(With(mask, READ_EVENT)) && Reads(With(mask, READ_EVENT))
    ensures Writes(With(mask, READ_EVENT)) == Writes(mask)
    ensures Plain(With(mask, WRITE_EVENT)) && Writes(With(mask, WRITE_EVENT))
    ensures Reads(With(mask, WRITE_EVENT)) == Reads(mask)
    ensures Plain(Without(mask, READ_EVENT)) && !Reads(Without(mask, READ_EVENT))
    ensures Writes(Without(mask, READ_EVENT)) == Writes(mask)
    ensures Plain(Without(mask, WRITE_EVENT)) && !Writes(Without(mask, WRITE_EVENT))
    ensures Reads(Without(mask, WRITE_EVENT)) == Reads(mask)
  {
  }

  /** What a mask lets the kernel report: its own bits, errors and hang-ups. */
  predicate Lets(mask: Mask, revents: Mask) {
    revents & !(mask | POLLERR | POLLHUP) == 0
  }

  /** The kernel's masks in terms of poll's own bits. */
  lemma PlainBits(mask: Mask)
    requires Plain(mask)
    ensures Has(mask, 0x1) == Reads(mask) && Has(mask, 0x2) == Reads(mask) && Has(mask, 0x4) == Writes(mask)
    ensures mask & 0xFFF8 == 0
  {
  }

  lemma LetsIff(mask: Mask, revents: Mask)
    requires mask & 0xFFF8 == 0 && Has(mask, 0x1) == Has(mask, 0x2)
    ensures Lets(mask, revents) <==>
      && (Has(revents, 0x1) || Has(revents, 0x2) ==> Has(mask, 0x1))
      && (Has(revents, 0x4) ==> Has(mask, 0x4))
      && revents & 0xFFE0 == 0
  {
    LetsBits(mask, revents);
  }

  /** Bit by bit. */
  lemma LetsBits(mask: Mask, revents: Mask)
    requires mask & 0xFFF8 == 0
    ensures revents & !(mask | 0x8 | 0x10) == 0 <==>
      && (revents & 0x1 != 0 ==> mask & 0x1 != 0) && (revents & 0x2 != 0 ==> mask & 0x2 != 0)
      && (revents & 0x4 != 0 ==> mask & 0x4 != 0) && revents & 0xFFE0 == 0
  {
  }

  lemma NoneIsIdle(mask: Mask)
    requires Plain(mask)
    ensures mask == NONE_EVENT <==> !Reads(mask) && !Writes(mask)
  {
  }

  /** What a channel has enabled, and its index at the poller. */
  datatype Interest = Interest(read: bool, write: bool, index: int) {
    predicate Idle() {
      !read && !write
    }

    predicate Watched() {
      index == ADDED
    }

    /** updateChannel: a channel that was not being watched is added even when nothing is enabled. */
    function Refreshed(): Interest {
      this.(index := if index == ADDED && Idle() then DELETED else ADDED)
    }

    function ReadingEnabled(): Interest {
      this.(read := true).Refreshed()
    }

    function ReadingDisabled(): Interest {
      this.(read := false).Refreshed()
    }

    function WritingEnabled(): Interest {
      this.(write := true).Refreshed()
    }

    function WritingDisabled(): Interest {
      this.(write := false).Refreshed()
    }

    function AllDisabled(): Interest {
      this.(read := false, write := false).Refreshed()
    }

    function Removed(): Interest {
      this.(index := NEW)
    }

    /** What epoll can report for a channel: what was asked for, and always errors and hang-ups. */
    predicate Reports(revents: Mask) {
      && Watched()
      && (Has(revents, POLLIN) || Has(revents, POLLPRI) ==> read)
      && (Has(revents, POLLOUT) ==> write)
      && OnlyPollBits(revents)
    }
  }

  const NO_INTEREST := Interest(false, false, NEW)

  // ---------- Poller ----------

  class EPollPoller {
    var channels: map<int, Channel>
    var kernel: map<int, Mask>        // what epoll_wait watches
    ghost var universe: set<Channel>  // the channels alive on this loop

    /** A channel's three-valued index agrees with the poller's map and with the kernel's set. A new
        channel may share its descriptor with another one. */
    ghost predicate Tracked(c: Channel)
      reads this, c
    {
      && (c.index == NEW || c.index == ADDED || c.index == DELETED)
      && (c.index != NEW <==> c.fd in channels && channels[c.fd] == c)
      && (c.index == ADDED ==> c.fd in kernel)
      && (c.index == DELETED ==> c.fd !in kernel)
    }

    /** The kernel watches for the channel's own mask, and a channel not watched has an empty one. */
    ghost predicate Settled(c: Channel)
      reads this, c
    {
      && c.poller == this
      && c.addedToLoop == (c.index != NEW)
      && (c.index == ADDED ==> c.fd in kernel && kernel[c.fd] == c.events)
      && (c.index != ADDED ==> c.events == NONE_EVENT)
      && Plain(c.events)
    }

    /** Every entry belongs to a live channel that knows it. */
    ghost predicate Entries()
      reads this, universe
    {
      && (forall fd :: fd in channels ==> channels[fd] in universe && channels[fd].fd == fd)
      && (forall fd :: fd in kernel ==> fd in channels && channels[fd].index == ADDED)
    }

    /** x alone may be in the middle of a change. */
    ghost predicate ValidBut(x: Channel?)
      reads this, universe
    {
      && Entries()
      && (forall c :: c in universe ==> Tracked(c))
      && (forall c :: c in universe && c != x ==> Settled(c))
    }

    ghost predicate Valid()
      reads this, universe
    {
      ValidBut(null)
    }

    constructor ()
      ensures Valid() && universe == {} && channels == map[] && kernel == map[]
    {
      channels, kernel, universe := map[], map[], {};
    }

    /** epoll_ctl. */
    method EpollCtl(operation: Operation, fd: int, mask: Mask) returns (ok: bool)
      modifies this`kernel
      ensures ok == (operation.Add? == (fd !in old(kernel)))
      ensures !ok ==> kernel == old(kernel)
      ensures ok ==> kernel == if operation.Del? then old(kernel) - {fd} else old(kernel)[fd := mask]
    {
      ok := (operation == Add) == (fd !in kernel);
      if ok {
        kernel := if operation == Del then kernel - {fd} else kernel[fd := mask];
      }
    }

    /** update: its requires is what keeps epoll_ctl from failing. */
    method Update(operation: Operation, channel: Channel)
      requires operation.Add? <==> channel.fd !in kernel
      modifies this`kernel
      ensures kernel == if operation.Del? then old(kernel) - {channel.fd} else old(kernel)[channel.fd := channel.events]
    {
      var ok := EpollCtl(operation, channel.fd, channel.events);
      assert ok;
    }

    /** updateChannel, called after the channel's mask has been set; the last requires is the assert for
        a new channel. */
    method UpdateChannel(channel: Channel)
      requires channel in universe && ValidBut(channel)
      requires channel.poller == this && channel.addedToLoop && Plain(channel.events)
      requires channel.index == NEW ==> channel.fd !in channels
      modifies this`channels, this`kernel, channel`index
      ensures Valid()
      ensures channel.index == IndexAfter(old(channel.index), channel.events)
      ensures channels == old(channels)[channel.fd := channel]
      ensures kernel ==
        if channel.index == DELETED then old(kernel) - {channel.fd} else old(kernel)[channel.fd := channel.events]
    {
      var index := channel.index;
      if index == NEW || index == DELETED {
        var fd := channel.fd;
        if index == NEW {
          assert fd !in channels;
          channels := channels[fd := channel];
        } else {
          assert fd in channels && channels[fd] == channel;
        }
        channel.index := ADDED;
        Update(Add, channel);
      } else {
        assert channel.fd in channels && channels[channel.fd] == channel && index == ADDED;
        if channel.events == NONE_EVENT {
          Update(Del, channel);
          channel.index := DELETED;
        } else {
          Update(Mod, channel);
        }
      }
    }

    /** removeChannel, for a channel the poller knows, with no events enabled. */
    method RemoveChannel(channel: Channel)
      requires channel in universe && ValidBut(channel)
      requires channel.poller == this && !channel.addedToLoop
      requires channel.index != NEW && channel.events == NONE_EVENT
      modifies this`channels, this`kernel, channel`index
      ensures Valid()
      ensures channel.index == NEW
      ensures channels == old(channels) - {channel.fd}
      ensures kernel == old(kernel) - {channel.fd}
    {
      var fd := channel.fd;
      assert fd in channels && channels[fd] == channel;
      var index := channel.index;
      assert index == ADDED || index == DELETED;
      var n := if fd in channels then 1 else 0;
      channels := channels - {fd};
      assert n == 1;
      if index == ADDED {
        Update(Del, channel);
      }
      channel.index := NEW;
    }
  }

  /** The index a channel ends up with. A channel that was not being watched is added even when its
      mask is empty. */
  function IndexAfter(index: int, events: Mask): int {
    if index == ADDED && events == NONE_EVENT then DELETED else ADDED
  }

  /** What the agreement means for the kernel: it watches exactly the channels with index ADDED, each for
      its own mask, the map holds exactly those ADDED or DELETED, and a channel with any event enabled is
      watched. */
  lemma AgreesWithKernel(p: EPollPoller, c: Channel)
    requires p.Valid() && c in p.universe
    ensures c.index == ADDED <==> c.fd in p.kernel && c.fd in p.channels && p.channels[c.fd] == c
    ensures c.index == ADDED ==> p.kernel[c.fd] == c.events
    ensures c.index == ADDED || c.index == DELETED <==> c.fd in p.channels && p.channels[c.fd] == c
    ensures c.events != NONE_EVENT ==> c.index == ADDED
  {
    assert p.Tracked(c) && p.Settled(c);
  }

  /** For a watched channel the kernel's mask says IN and PRI exactly if it is reading, OUT exactly if it is
      writing, and nothing else; so the kernel can report for it exactly what its interest says. */
  lemma KernelReports(p: EPollPoller, c: Channel, revents: Mask)
    requires p.Valid() && c in p.universe && c.index == ADDED
    ensures c.fd in p.kernel
    ensures Has(p.kernel[c.fd], 0x1) == Has(p.kernel[c.fd], 0x2) == c.IsReading()
    ensures Has(p.kernel[c.fd], 0x4) == c.IsWriting()
    ensures Lets(p.kernel[c.fd], revents) <==> c.View().Reports(revents)
  {
    AgreesWithKernel(p, c);
    assert p.Settled(c);
    PlainBits(c.events);
    LetsIff(c.events, revents);
    hide Has, Plain, Reads, Writes, Lets;
  }

  // ---------- Channel ----------

  class Channel {
    const poller: EPollPoller
    const fd: int
    var events: Mask
    var index: int
    var addedToLoop: bool

    /** A new channel, also on a descriptor that a removed channel still names. */
    constructor (poller: EPollPoller, fd: int)
      requires poller.Valid()
      modifies poller`universe
      ensures this.poller == poller && this.fd == fd
      ensures poller.Valid() && poller.universe == old(poller.universe) + {this}
      ensures View() == NO_INTEREST && events == NONE_EVENT && !addedToLoop
    {
      this.poller, this.fd := poller, fd;
      events, index, addedToLoop := NONE_EVENT, NEW, false;
      new;
      poller.universe := poller.universe + {this};
    }

    ghost predicate Live()
      reads this, poller, poller.universe
    {
      this in poller.universe && poller.Valid() && poller.Settled(this)
    }

    /** The assert of updateChannel: a new channel may register only where no other one is. */
    ghost predicate Free()
      reads this, poller
    {
      index == NEW ==> fd !in poller.channels
    }

    function View(): Interest
      reads this
    {
      Interest(IsReading(), IsWriting(), index)
    }

    /** What every change of mask does to the poller and the kernel. */
    twostate predicate Registered()
      reads this, poller
    {
      && index == IndexAfter(old(index), events)
      && addedToLoop
      && poller.channels == old(poller.channels)[fd := this]
      && poller.kernel == if index == DELETED then old(poller.kernel) - {fd} else old(poller.kernel)[fd := events]
    }

    predicate IsReading()
      reads this
    {
      Reads(events)
    }

    predicate IsWriting()
      reads this
    {
      Writes(events)
    }

    /** update, with the mask just set. */
    method Update()
      requires this in poller.universe && poller.ValidBut(this) && Plain(events) && Free()
      modifies poller`channels, poller`kernel, this`index, this`addedToLoop
      ensures Live() && Registered()
      ensures View() == old(View()).Refreshed()
    {
      hide Reads, Writes, Plain;
      NoneIsIdle(events);
      addedToLoop := true;
      poller.UpdateChannel(this);
    }

    method EnableReading()
      requires Live() && Free()
      modifies poller`channels, poller`kernel, this
      ensures Live() && Registered() && events == With(old(events), READ_EVENT)
      ensures View() == old(View()).ReadingEnabled()
      ensures IsReading() && IsWriting() == old(IsWriting())
    {
      hide Reads, Writes, Plain, IndexAfter, With, Without;
      MaskBits(events);
      events := With(events, READ_EVENT);
      Update();
    }

    method DisableReading()
      requires Live() && Free()
      modifies poller`channels, poller`kernel, this
      ensures Live() && Registered() && events == Without(old(events), READ_EVENT)
      ensures View() == old(View()).ReadingDisabled()
      ensures !IsReading() && IsWriting() == old(IsWriting())
    {
      hide Reads, Writes, Plain, IndexAfter, With, Without;
      MaskBits(events);
      events := Without(events, READ_EVENT);
      Update();
    }

    method EnableWriting()
      requires Live() && Free()
      modifies poller`channels, poller`kernel, this
      ensures Live() && Registered() && events == With(old(events), WRITE_EVENT)
      ensures View() == old(View()).WritingEnabled()
      ensures IsReading() == old(IsReading()) && IsWriting()
    {
      hide Reads, Writes, Plain, IndexAfter, With, Without;
      MaskBits(events);
      events := With(events, WRITE_EVENT);
      Update();
    }

    method DisableWriting()
      requires Live() && Free()
      modifies poller`channels, poller`kernel, this
      ensures Live() && Registered() && events == Without(old(events), WRITE_EVENT)
      ensures View() == old(View()).WritingDisabled()
      ensures IsReading() == old(IsReading()) && !IsWriting()
    {
      hide Reads, Writes, Plain, IndexAfter, With, Without;
      MaskBits(events);
      events := Without(events, WRITE_EVENT);
      Update();
    }

    /** After disableAll the kernel still watches the descriptor, for errors and hang-ups only, exactly
        when it was not watching it before. */
    method DisableAll()
      requires Live() && Free()
      modifies poller`channels, poller`kernel, this
      ensures Live() && Registered() && events == NONE_EVENT
      ensures View() == old(View()).AllDisabled()
      ensures fd in poller.kernel <==> old(index) != ADDED
    {
      events := NONE_EVENT;
      Update();
    }

    /** remove. */
    method Remove()
      requires Live() && events == NONE_EVENT && index != NEW
      modifies poller`channels, poller`kernel, this`index, this`addedToLoop
      ensures Live() && !addedToLoop
      ensures View() == old(View()).Removed()
      ensures poller.channels == old(poller.channels) - {fd}
      ensures poller.kernel == old(poller.kernel) - {fd}
    {
      addedToLoop := false;
      poller.RemoveChannel(this);
    }

    /** The destructor, allowed by its asserts only for a channel not added to the loop: nothing refers
        to it any more. */
    method Destroy()
      requires Live() && !addedToLoop
      modifies poller`universe
      ensures poller.Valid() && poller.universe == old(poller.universe) - {this}
      ensures forall x :: x in poller.channels ==> poller.channels[x] != this
    {
      poller.universe := poller.universe - {this};
    }
  }
}
