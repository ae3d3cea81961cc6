/** The gap buffer: prependable | readable | writable, kept in one growable array. */
module Buffers {
  import opened Bytes

  const CHEAP_PREPEND: nat := 8
  const INITIAL_SIZE: nat := 1024
  const EXTRA_BUFFER: nat := 65536

  /** What readv reported: an errno, or the bytes it scattered. */
  datatype ReadResult = ReadFailed(errno: int) | ReadBytes(data: seq<byte>)

  /** What happened to the current storage: the size it was created with, the largest
      readable-plus-requested length asked of it, and whether anything was prepended. */
  datatype History = History(initialSize: nat, peak: nat, prepended: bool) {
    function Ask(readable: nat, len: nat): (h: History)
      ensures h.peak >= peak && h.peak >= readable + len && (h.peak == peak || h.peak == readable + len)
      ensures h.initialSize == initialSize && h.prepended == prepended
    {
      this.(peak := if peak < readable + len then readable + len else peak)
    }

    /** The storage never grows beyond this. */
    function SizeBound(): (n: nat)
      ensures n >= initialSize + 8 && n >= 2 * peak + 8
      ensures n == initialSize + 8 || n == 2 * peak + 8
    {
      var created, grown := CHEAP_PREPEND + initialSize, 2 * peak + CHEAP_PREPEND;
      if created < grown then grown else created
    }
  }

  lemma SliceOfSlice<T>(s: seq<T>, from: nat, lo: nat, hi: nat)
    requires lo <= hi && from + hi <= |s|
    ensures s[from..][lo..hi] == s[from + lo..from + hi]
  {
  }

  lemma Truncation(n: nat)
    ensures ToInt32(n) <= n && (ToInt32(n) == n <==> n < TWO_31)
  {
    assert n == TWO_32 * (n / TWO_32) + n % TWO_32;
  }

  lemma SameBehind<T>(s: seq<T>, t: seq<T>, lo: nat, hi: nat)
    requires lo <= hi <= |s| == |t| && s[lo..] == t[lo..]
    ensures s[lo..hi] == t[lo..hi]
  {
    SliceOfSlice(s, lo, 0, hi - lo);
    SliceOfSlice(t, lo, 0, hi - lo);
  }

  lemma SameBefore<T>(s: seq<T>, t: seq<T>, lo: nat, hi: nat)
    requires lo <= hi <= |t| <= |s| && s[..|t|] == t
    ensures s[lo..hi] == t[lo..hi]
  {
    assert forall k :: 0 <= k < |t| ==> s[k] == s[..|t|][k];
  }

  class Buffer {
    var buffer: array<byte>
    var readerIndex: nat
    var writerIndex: nat
    ghost var history: History

    /** The index order, the size bound, and the reserve in front while nothing is prepended. */
    ghost predicate Valid()
      reads this
    {
      && readerIndex <= writerIndex <= buffer.Length
      && CHEAP_PREPEND <= buffer.Length <= history.SizeBound()
      && (!history.prepended ==> CHEAP_PREPEND <= readerIndex)
    }

    /** The readable bytes. */
    ghost function Contents(): (s: seq<byte>)
      reads this, buffer
      requires Valid()
      ensures |s| == ReadableBytes()
    {
      buffer[readerIndex..writerIndex]
    }

    constructor (size: nat := INITIAL_SIZE)
      ensures Valid() && fresh(buffer) && Contents() == []
      ensures WritableBytes() == size && PrependableBytes() == 8
      ensures history == History(size, 0, false)
    {
      buffer := new byte[CHEAP_PREPEND + size](_ => 0);
      readerIndex := CHEAP_PREPEND;
      writerIndex := CHEAP_PREPEND;
      history := History(size, 0, false);
    }

    function ReadableBytes(): nat
      reads this
      requires Valid()
    {
      writerIndex - readerIndex
    }

    function WritableBytes(): nat
      reads this
      requires Valid()
    {
      buffer.Length - writerIndex
    }

    function PrependableBytes(): nat
      reads this
    {
      readerIndex
    }

    /** The content starts where it did, or right behind the reserve. */
    ghost predicate KeepsReserve(before: nat)
      reads this
    {
      readerIndex == before || readerIndex == CHEAP_PREPEND
    }

    /** len readable bytes from offset on, copied out of the storage. */
    function Peek(offset: nat, len: nat): (s: seq<byte>)
      reads this, buffer
      requires Valid() && offset + len <= ReadableBytes()
      ensures s == Contents()[offset..offset + len]
    {
      SliceOfSlice(buffer[..writerIndex], readerIndex, offset, offset + len);
      buffer[readerIndex + offset..readerIndex + offset + len]
    }

    method Swap(rhs: Buffer)
      requires Valid() && rhs.Valid()
      modifies this, rhs
      ensures Valid() && rhs.Valid()
      ensures buffer == old(rhs.buffer) && rhs.buffer == old(buffer)
      ensures Contents() == old(rhs.Contents()) && rhs.Contents() == old(Contents())
      ensures readerIndex == old(rhs.readerIndex) && rhs.readerIndex == old(readerIndex)
      ensures history == old(rhs.history) && rhs.history == old(history)
    {
      buffer, rhs.buffer := rhs.buffer, buffer;
      readerIndex, rhs.readerIndex := rhs.readerIndex, readerIndex;
      writerIndex, rhs.writerIndex := rhs.writerIndex, writerIndex;
      history, rhs.history := rhs.history, history;
    }

    method Retrieve(len: nat)
      requires Valid() && len <= ReadableBytes()
      modifies this
      ensures Valid() && buffer == old(buffer) && history == old(history)
      ensures Contents() == old(Contents())[len..]
      ensures Contents() == [] ==> readerIndex == CHEAP_PREPEND
    {
      if len < ReadableBytes() {
        readerIndex := readerIndex + len;
      } else {
        RetrieveAll();
      }
    }

    method RetrieveAll()
      requires Valid()
      modifies this
      ensures Valid() && buffer == old(buffer) && history == old(history)
      ensures Contents() == [] && readerIndex == CHEAP_PREPEND
    {
      readerIndex := CHEAP_PREPEND;
      writerIndex := CHEAP_PREPEND;
    }

    method RetrieveAsString(len: nat) returns (result: seq<byte>)
      requires Valid() && len <= ReadableBytes()
      modifies this
      ensures Valid() && buffer == old(buffer) && history == old(history)
      ensures result + Contents() == old(Contents()) && |result| == len
    {
      result := Peek(0, len);
      Retrieve(len);
    }

    method Append(data: seq<byte>)
      requires Valid()
      modifies this, buffer
      ensures Valid() && (buffer == old(buffer) || fresh(buffer))
      ensures Contents() == old(Contents()) + data
      ensures history == old(history.Ask(ReadableBytes(), |data|))
      ensures KeepsReserve(old(readerIndex))
      ensures |data| <= old(WritableBytes()) ==> WritableBytes() == old(WritableBytes()) - |data|
    {
      EnsureWritableBytes(|data|);
      Copy(data, writerIndex);
      HasWritten(|data|);
    }

    method EnsureWritableBytes(len: nat)
      requires Valid()
      modifies this, buffer
      ensures Valid() && (buffer == old(buffer) || fresh(buffer))
      ensures WritableBytes() >= len
      ensures Contents() == old(Contents())
      ensures history == old(history.Ask(ReadableBytes(), len))
      ensures KeepsReserve(old(readerIndex))
      ensures len <= old(WritableBytes()) ==> WritableBytes() == old(WritableBytes())
    {
      history := history.Ask(ReadableBytes(), len);
      if WritableBytes() < len {
        MakeSpace(len);
      }
    }

    /** Commit bytes already stored behind writerIndex. */
    method HasWritten(len: nat)
      requires Valid() && len <= WritableBytes()
      modifies this`writerIndex
      ensures Valid()
      ensures Contents() == old(Contents() + buffer[writerIndex..writerIndex + len])
    {
      SliceJoin(buffer[..], readerIndex, writerIndex, writerIndex + len);
      writerIndex := writerIndex + len;
    }

    method Unwrite(len: nat)
      requires Valid() && len <= ReadableBytes()
      modifies this`writerIndex
      ensures Valid()
      ensures Contents() == old(Contents()[..ReadableBytes() - len])
    {
      SliceOfSlice(buffer[..writerIndex], readerIndex, 0, ReadableBytes() - len);
      writerIndex := writerIndex - len;
    }

    method Prepend(data: seq<byte>)
      requires Valid() && |data| <= PrependableBytes()
      modifies this, buffer
      ensures Valid() && buffer == old(buffer)
      ensures Contents() == data + old(Contents())
      ensures history == old(history).(prepended := true)
    {
      ghost var was, before := buffer[..], Contents();
      readerIndex := readerIndex - |data|;
      history := history.(prepended := true);
      Copy(data, readerIndex);
      ghost var end := readerIndex + |data|;
      SameBehind(buffer[..], was, end, writerIndex);
      assert buffer[end..writerIndex] == before;
      SliceJoin(buffer[..], readerIndex, end, writerIndex);
    }

    /** Copy the content to right-sized storage with room for reserve more bytes. The content goes through
        an int length: a negative one does not survive the append, and one past 2^32 loses the rest. */
    method Shrink(reserve: nat) returns (ok: bool)
      requires Valid()
      modifies this
      ensures Valid() && ok == (ToInt32(old(ReadableBytes())) >= 0)
      ensures !ok ==> buffer == old(buffer) && Contents() == old(Contents()) && history == old(history)
      ensures ok ==>
        && fresh(buffer) && Contents() == old(Contents())[..ToInt32(old(ReadableBytes()))]
        && WritableBytes() >= reserve && PrependableBytes() == CHEAP_PREPEND
        && history == History(INITIAL_SIZE, old(ReadableBytes()) + reserve, false)
      ensures ok && Contents() == old(Contents()) <==> old(ReadableBytes()) < TWO_31
    {
      hide ToInt32, KeepsReserve;
      var length := ToInt32(ReadableBytes());
      Truncation(ReadableBytes());
      if length < 0 {
        return false;
      }
      var other := new Buffer();
      other.EnsureWritableBytes(ReadableBytes() + reserve);
      var content := Peek(0, length);
      other.Append(content);
      Swap(other);
      return true;
    }

    /** The bytes a scatter read may deliver at once. */
    function Offered(): (n: nat)
      reads this
      requires Valid()
      ensures n >= 0x1_0000 && (n == WritableBytes() <==> WritableBytes() >= 0x1_0000)
      ensures n <= WritableBytes() + 0x1_0000
    {
      WritableBytes() + (if WritableBytes() < EXTRA_BUFFER then EXTRA_BUFFER else 0)
    }

    /** Scatter read: the kernel fills the writable gap first, then a 64 KiB overflow area
        that is offered only when the gap is smaller than it. */
    method ReadFd(result: ReadResult) returns (n: int, savedErrno: int)
      requires Valid()
      requires result.ReadBytes? ==> |result.data| <= Offered()
      modifies this, buffer
      ensures Valid() && (buffer == old(buffer) || fresh(buffer))
      ensures result.ReadFailed? ==>
        n == -1 && savedErrno == result.errno && Contents() == old(Contents())
      ensures result.ReadBytes? ==>
        n == |result.data| && Contents() == old(Contents()) + result.data
      ensures history == if result.ReadBytes? && |result.data| > old(WritableBytes())
                         then old(history.Ask(ReadableBytes(), |result.data|)) else old(history)
    {
      hide Contents, KeepsReserve;
      savedErrno := 0;
      if result.ReadFailed? {
        return -1, result.errno;
      }
      n := |result.data|;
      var writable := WritableBytes();
      var extra := Readv(result.data);
      if n <= writable {
        HasWritten(n);
      } else {
        ghost var before, head := Contents(), result.data[..writable];
        HasWritten(writable);
        assert Contents() == before + head;
        Append(extra);
        Assoc(before, head, extra);
        SplitAt(result.data, writable);
      }
    }

    /** The kernel's part: data goes into the gap first, the rest is returned in the overflow area. */
    method Readv(data: seq<byte>) returns (extra: seq<byte>)
      requires Valid() && |data| <= Offered()
      modifies buffer
      ensures Valid() && Contents() == old(Contents())
      ensures |data| <= WritableBytes() ==>
        buffer[writerIndex..writerIndex + |data|] == data && extra == []
      ensures |data| > WritableBytes() ==>
        buffer[writerIndex..buffer.Length] == data[..WritableBytes()] && extra == data[WritableBytes()..]
    {
      var writable := WritableBytes();
      if |data| <= writable {
        Copy(data, writerIndex);
        extra := [];
      } else {
        Copy(data[..writable], writerIndex);
        extra := data[writable..];
      }
    }

    /** Integers of 1, 2, 4 or 8 bytes, in network byte order. */
    method AppendInt(x: int, size: nat)
      requires Valid() && size in {1, 2, 4, 8} && FitsSigned(x, size)
      modifies this, buffer
      ensures Valid() && (buffer == old(buffer) || fresh(buffer))
      ensures Contents() == old(Contents()) + EncodeInt(x, size)
      ensures history == old(history.Ask(ReadableBytes(), size))
    {
      Append(EncodeInt(x, size));
    }

    method PrependInt(x: int, size: nat)
      requires Valid() && size in {1, 2, 4, 8} && FitsSigned(x, size)
      requires size <= PrependableBytes()
      modifies this, buffer
      ensures Valid() && buffer == old(buffer)
      ensures Contents() == EncodeInt(x, size) + old(Contents())
      ensures history == old(history).(prepended := true)
    {
      Prepend(EncodeInt(x, size));
    }

    /** Whatever integer was encoded in front of the content is the one peeked. */
    method PeekInt(size: nat) returns (x: int)
      requires Valid() && size in {1, 2, 4, 8} && size <= ReadableBytes()
      ensures FitsSigned(x, size)
      ensures Contents() == EncodeInt(x, size) + Contents()[size..]
      ensures forall y, rest :: FitsSigned(y, size) && Contents() == EncodeInt(y, size) + rest ==> x == y
    {
      var s := Peek(0, size);
      hide EncodeInt, DecodeInt;
      x := DecodeInt(s);
      SplitAt(Contents(), size);
      IntOnto(s);
      forall y, rest | FitsSigned(y, size) && Contents() == EncodeInt(y, size) + rest
        ensures x == y
      {
        assert EncodeInt(y, size) == s;
        IntRoundTrip(y, size);
      }
    }

    method ReadInt(size: nat) returns (x: int)
      requires Valid() && size in {1, 2, 4, 8} && size <= ReadableBytes()
      modifies this
      ensures Valid() && buffer == old(buffer) && history == old(history)
      ensures FitsSigned(x, size)
      ensures EncodeInt(x, size) + Contents() == old(Contents())
    {
      x := PeekInt(size);
      Retrieve(size);
    }

    /** Called only when the gap behind is too small: grow, or slide the content left. */
    method MakeSpace(len: nat)
      requires Valid() && WritableBytes() < len
      requires ReadableBytes() + len <= history.peak
      modifies this, buffer
      ensures Valid() && history == old(history)
      ensures buffer == old(buffer) || fresh(buffer)
      ensures Contents() == old(Contents())
      ensures WritableBytes() >= len && KeepsReserve(old(readerIndex))
    {
      if WritableBytes() + PrependableBytes() < len + CHEAP_PREPEND {
        ghost var was := buffer[..];
        Resize(writerIndex + len);
        SameBefore(buffer[..], was, readerIndex, writerIndex);
      } else {
        assert CHEAP_PREPEND < readerIndex;
        SlideLeft();
      }
    }

    /** Move the readable bytes to the front, right behind the reserve. */
    method SlideLeft()
      requires Valid() && CHEAP_PREPEND < readerIndex
      modifies this, buffer
      ensures Valid() && history == old(history) && buffer == old(buffer)
      ensures Contents() == old(Contents()) && readerIndex == CHEAP_PREPEND
    {
      var readable := ReadableBytes();
      ghost var before := Contents();
      var i := 0;
      // The two ranges may overlap: every slot is read before it is overwritten.
      while i < readable
        modifies buffer
        invariant 0 <= i <= readable
        invariant forall k :: 0 <= k < i ==> buffer[CHEAP_PREPEND + k] == before[k]
        invariant forall k :: i <= k < readable ==> buffer[readerIndex + k] == before[k]
      {
        buffer[CHEAP_PREPEND + i] := buffer[readerIndex + i];
        i := i + 1;
      }
      readerIndex := CHEAP_PREPEND;
      writerIndex := readerIndex + readable;
      assert readable == ReadableBytes();
    }

    /** std::copy into the storage: nothing outside the range changes. */
    method Copy(data: seq<byte>, at: nat)
      requires at + |data| <= buffer.Length
      modifies buffer
      ensures buffer[at..at + |data|] == data
      ensures buffer[..at] == old(buffer[..at])
      ensures buffer[at + |data|..] == old(buffer[at + |data|..])
    {
      var i := 0;
      while i < |data|
        modifies buffer
        invariant 0 <= i <= |data|
        invariant forall k :: 0 <= k < i ==> buffer[at + k] == data[k]
        invariant buffer[..at] == old(buffer[..at])
        invariant buffer[at + |data|..] == old(buffer[at + |data|..])
      {
        buffer[at + i] := data[i];
        i := i + 1;
      }
    }

    /** vector::resize to a larger size: the old bytes stay, the new ones are zero. */
    method Resize(size: nat)
      requires buffer.Length <= size
      modifies this`buffer
      ensures fresh(buffer) && buffer.Length == size
      ensures buffer[..old(buffer.Length)] == old(buffer[..])
    {
      var larger := new byte[size](_ => 0);
      var i := 0;
      while i < buffer.Length
        invariant 0 <= i <= buffer.Length
        invariant larger[..i] == buffer[..i]
        modifies larger
      {
        larger[i] := buffer[i];
        i := i + 1;
      }
      buffer := larger;
    }
  }
}
