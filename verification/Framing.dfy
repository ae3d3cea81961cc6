/** The RPC frame on a byte stream: meta_size (int32, network order) | meta | payload. */
module Framing {
  import opened Bytes
  import opened RpcMetas

  datatype Frame = Frame(meta: RpcMeta, payload: seq<byte>)

  const PREFIX := 4

  /** What a sender may put in a frame: data_size tells the payload's length, and the frame
      stays below 2^31 bytes. */
  predicate ValidFrame(f: Frame) {
    && ValidMeta(f.meta)
    && f.meta.dataSize == |f.payload|
    && PREFIX + |Serialize(f.meta)| + |f.payload| < TWO_31
  }

  predicate Sendable(fs: seq<Frame>) {
    forall i :: 0 <= i < |fs| ==> ValidFrame(fs[i])
  }

  function Encode(f: Frame): (s: seq<byte>)
    requires ValidFrame(f)
  {
    Pow256Values();
    EncodeInt(|Serialize(f.meta)|, PREFIX) + Serialize(f.meta) + f.payload
  }

  function Stream(fs: seq<Frame>): seq<byte>
    requires Sendable(fs)
  {
    if fs == [] then [] else Encode(fs[0]) + Stream(fs[1..])
  }

  lemma {:induction false} StreamSnoc(fs: seq<Frame>, g: Frame)
    requires Sendable(fs) && ValidFrame(g)
    ensures Sendable(fs + [g]) && Stream(fs + [g]) == Stream(fs) + Encode(g)
  {
    hide Encode, ValidFrame;
    var gs := fs + [g];
    if fs == [] {
      assert gs[1..] == [];
    } else {
      StreamSnoc(fs[1..], g);
      assert gs[0] == fs[0] && gs[1..] == fs[1..] + [g];
      Assoc(Encode(fs[0]), Stream(fs[1..]), Encode(g));
    }
  }

  /** Even an empty message takes the four bytes of its length prefix. */
  lemma EncodeNonEmpty(f: Frame)
    requires ValidFrame(f)
    ensures |Encode(f)| >= PREFIX
  {
  }

  lemma StreamNonEmpty(fs: seq<Frame>)
    requires Sendable(fs)
    ensures Stream(fs) == [] <==> fs == []
  {
    if fs != [] { EncodeNonEmpty(fs[0]); }
  }

  // ---------- Decoding ----------

  /** What the loop does with the readable bytes: break, dispatch a frame and retrieve its size,
      or leave through an exception (std::length_error) or undefined behaviour. */
  datatype Step = NeedMore | Dispatch(frame: Frame, size: nat) | Fault

  /** len + sizeof(int32_t), computed in size_t. */
  function SizeAfterPrefix(len: int): int {
    if len + PREFIX >= 0 then len + PREFIX else len + PREFIX + TWO_64
  }

  function DecodeOne(data: seq<byte>): (r: Step)
    ensures r.Dispatch? ==> PREFIX <= r.size <= |data|
  {
    if |data| <= PREFIX then NeedMore
    else
      Pow256Values();
      var len := DecodeInt(data[..PREFIX]);
      if |data| <= SizeAfterPrefix(len) then NeedMore
      else if len < 0 then Fault
      else WithMeta(data, len)
  }

  /** The part of the iteration after the whole meta has arrived. */
  function WithMeta(data: seq<byte>, len: nat): (r: Step)
    requires PREFIX + len < |data| && len < TWO_31
    ensures r.Dispatch? ==> PREFIX <= r.size <= |data|
  {
    var meta := Parse(EMPTY, data[PREFIX..PREFIX + len]).meta;
    var sum := PREFIX + len + meta.dataSize;
    var length := ToInt32(sum);
    if length < 0 || |data| < length then NeedMore
    else if meta.dataSize < 0 || length != sum then Fault
    else Dispatch(Frame(meta, data[PREFIX + len..length]), length)
  }

  /** When a frame is dispatched, for any bytes at all: the length is not negative, a byte behind the meta
      has arrived, and so has the payload the meta tells of, in less than 2^31 bytes altogether. */
  lemma DispatchIff(data: seq<byte>, f: Frame, size: nat)
    ensures DecodeOne(data) == Dispatch(f, size) <==>
      && |data| > 4
      && var len := DecodeInt(data[..4]);
      && 0 <= len && |data| > len + 4
      && f.meta == Parse(EMPTY, data[4..len + 4]).meta
      && 0 <= f.meta.dataSize && size == len + 4 + f.meta.dataSize && size <= |data| && size < 0x8000_0000
      && f.payload == data[len + 4..size]
  {
    hide Parse, DecodeInt;
    Pow256Values();
  }

  /** When the loop waits: without a byte behind the length, or behind the meta, or without the whole
      payload; or when a length below -4, or a sum that wraps below 0, compares as a huge one. */
  lemma WaitsIff(data: seq<byte>)
    ensures DecodeOne(data) == NeedMore <==>
      |data| <= 4
      || var len := DecodeInt(data[..4]);
         if len < 0 then |data| <= (if len + 4 >= 0 then len + 4 else len + 4 + 0x1_0000_0000_0000_0000)
         else |data| <= len + 4
              || var sum := len + 4 + Parse(EMPTY, data[4..len + 4]).meta.dataSize;
                 ToInt32(sum) < 0 || |data| < ToInt32(sum)
  {
    hide Parse, DecodeInt, ToInt32;
    Pow256Values();
  }

  /** The whole loop: the frames dispatched, the bytes left in the buffer, and whether it faulted. */
  datatype Decoded = Decoded(frames: seq<Frame>, rest: seq<byte>, fault: bool)

  function Decode(data: seq<byte>): Decoded
    decreases |data|
  {
    match DecodeOne(data)
    case NeedMore => Decoded([], data, false)
    case Fault => Decoded([], data, true)
    case Dispatch(f, size) =>
      var d := Decode(data[size..]);
      d.(frames := [f] + d.frames)
  }

  // ---------- Chunk independence ----------

  /** One read: the chunk lands behind the left-over bytes and the loop runs. After a fault
      nothing is dispatched any more. */
  function Feed(d: Decoded, chunk: seq<byte>): Decoded {
    if d.fault then d.(rest := d.rest + chunk)
    else
      var e := Decode(d.rest + chunk);
      e.(frames := d.frames + e.frames)
  }

  function FeedAll(d: Decoded, chunks: seq<seq<byte>>): Decoded
    decreases |chunks|
  {
    if chunks == [] then d else FeedAll(Feed(d, chunks[0]), chunks[1..])
  }

  function Flatten(chunks: seq<seq<byte>>): seq<byte> {
    if chunks == [] then [] else chunks[0] + Flatten(chunks[1..])
  }

  const START := Decoded([], [], false)

  /** A decision other than "need more" is final. */
  lemma DecisionIsFinal(a: seq<byte>, b: seq<byte>)
    requires DecodeOne(a) != NeedMore
    ensures DecodeOne(a + b) == DecodeOne(a)
  {
    hide DecodeInt, Parse, Pow256;
    assert (a + b)[..PREFIX] == a[..PREFIX];
    var len := DecodeInt(a[..PREFIX]);
    Pow256Values();
    if len >= 0 {
      assert (a + b)[PREFIX..PREFIX + len] == a[PREFIX..PREFIX + len];
      var meta := Parse(EMPTY, a[PREFIX..PREFIX + len]).meta;
      var sum := PREFIX + len + meta.dataSize;
      if meta.dataSize >= 0 && ToInt32(sum) == sum {
        assert (a + b)[PREFIX + len..sum] == a[PREFIX + len..sum];
      }
    }
  }

  /** Two reads do what one read of both would. */
  lemma {:induction false} FeedContinues(a: seq<byte>, b: seq<byte>)
    ensures Feed(Decode(a), b) == Decode(a + b)
    decreases |a|
  {
    hide DecodeOne;
    match DecodeOne(a)
    case NeedMore =>
      assert Decode(a).rest == a;
    case Fault =>
      DecisionIsFinal(a, b);
    case Dispatch(f, size) =>
      DecisionIsFinal(a, b);
      assert (a + b)[size..] == a[size..] + b;
      FeedContinues(a[size..], b);
      var d := Decode(a[size..]);
      if !d.fault {
        assert [f] + (d.frames + Decode(d.rest + b).frames) == ([f] + d.frames) + Decode(d.rest + b).frames;
      }
  }

  lemma FlattenFront(a: seq<byte>, chunks: seq<seq<byte>>)
    requires chunks != []
    ensures a + Flatten(chunks) == a + chunks[0] + Flatten(chunks[1..])
  {
  }

  lemma {:induction false} FeedAllContinues(a: seq<byte>, chunks: seq<seq<byte>>)
    ensures FeedAll(Decode(a), chunks) == Decode(a + Flatten(chunks))
    decreases |chunks|
  {
    if |chunks| == 0 {
      assert a + Flatten(chunks) == a;
    } else {
      var c, cs := chunks[0], chunks[1..];
      calc {
        FeedAll(Decode(a), chunks);
        FeedAll(Feed(Decode(a), c), cs);
        { FeedContinues(a, c); }
        FeedAll(Decode(a + c), cs);
        { FeedAllContinues(a + c, cs); }
        Decode(a + c + Flatten(cs));
        { FlattenFront(a, chunks); }
        Decode(a + Flatten(chunks));
      }
    }
  }

  /** Whatever way a stream is cut into reads, frames, left-over bytes and fault are those of one read. */
  lemma ChunkIndependence(chunks: seq<seq<byte>>)
    ensures FeedAll(START, chunks) == Decode(Flatten(chunks))
  {
    FeedAllContinues([], chunks);
    assert Decode([]) == START;
    assert [] + Flatten(chunks) == Flatten(chunks);
  }

  // ---------- Round trip and residue ----------

  lemma EncodedParts(f: Frame, t: seq<byte>)
    requires ValidFrame(f)
    ensures var s, m := Encode(f) + t, |Serialize(f.meta)|;
      && |Encode(f)| == PREFIX + m + |f.payload|
      && DecodeInt(s[..PREFIX]) == m
      && s[PREFIX..PREFIX + m] == Serialize(f.meta)
      && s[PREFIX + m..|Encode(f)|] == f.payload
  {
    Pow256Values();
    hide Serialize, EncodeInt, DecodeInt;
    var m := |Serialize(f.meta)|;
    IntRoundTrip(m, PREFIX);
    FourParts(EncodeInt(m, PREFIX), Serialize(f.meta), f.payload, t);
  }

  lemma FourParts(a: seq<byte>, b: seq<byte>, c: seq<byte>, d: seq<byte>)
    ensures var s, i, j := a + b + c + d, |a| + |b|, |a| + |b| + |c|;
      s[..|a|] == a && s[|a|..i] == b && s[i..j] == c
  {
  }

  /** A frame is dispatched as soon as it is complete, except that one with an empty payload
      waits for at least one later byte. */
  lemma FrameDispatched(f: Frame, t: seq<byte>)
    requires ValidFrame(f) && (f.payload != [] || t != [])
    ensures DecodeOne(Encode(f) + t) == Dispatch(f, |Encode(f)|)
  {
    hide Parse, Serialize, EncodeInt, DecodeInt;
    Pow256Values();
    EncodedParts(f, t);
    RoundTrip(f.meta);
    var m := |Serialize(f.meta)|;
    assert WithMeta(Encode(f) + t, m) == Dispatch(f, |Encode(f)|);
  }

  lemma FrameWaits(f: Frame, n: nat)
    requires ValidFrame(f) && (n < |Encode(f)| || (n == |Encode(f)| && f.payload == []))
    ensures DecodeOne(Encode(f)[..n]) == NeedMore
  {
    hide Parse, Serialize, EncodeInt, DecodeInt;
    Pow256Values();
    EncodedParts(f, []);
    Assoc(Encode(f), [], []);
    assert Encode(f) + [] == Encode(f);
    var p, m := Encode(f)[..n], |Serialize(f.meta)|;
    if n > PREFIX {
      assert p[..PREFIX] == Encode(f)[..PREFIX];
      if n > PREFIX + m {
        assert p[PREFIX..PREFIX + m] == Serialize(f.meta);
        RoundTrip(f.meta);
        assert WithMeta(p, m) == NeedMore;
      }
    }
  }

  lemma DecodeFirst(f: Frame, t: seq<byte>)
    requires ValidFrame(f) && (f.payload != [] || t != [])
    ensures Decode(Encode(f) + t) == Decode(t).(frames := [f] + Decode(t).frames)
  {
    FrameDispatched(f, t);
    Halves(Encode(f), t);
  }

  /** Whether n bytes starting with frame f are enough to dispatch it. */
  predicate Releases(f: Frame, n: nat)
    requires ValidFrame(f)
  {
    n > |Encode(f)| || (n == |Encode(f)| && f.payload != [])
  }

  /** How many frames of the stream its first n bytes release, and the bytes held back. */
  function Delivered(fs: seq<Frame>, n: nat): (k: nat)
    requires Sendable(fs)
    ensures k <= |fs|
  {
    if fs == [] || !Releases(fs[0], n) then 0 else 1 + Delivered(fs[1..], n - |Encode(fs[0])|)
  }

  function Held(fs: seq<Frame>, n: nat): seq<byte>
    requires Sendable(fs) && n <= |Stream(fs)|
  {
    if fs == [] then []
    else if Releases(fs[0], n) then Held(fs[1..], n - |Encode(fs[0])|)
    else Encode(fs[0])[..n]
  }

  lemma DecodeHolds(f: Frame, n: nat)
    requires ValidFrame(f) && n <= |Encode(f)| && !Releases(f, n)
    ensures Decode(Encode(f)[..n]) == Decoded([], Encode(f)[..n], false)
  {
    FrameWaits(f, n);
  }

  lemma DecodeNothing()
    ensures Decode([]) == START
  {
  }

  /** Decoding any prefix of an encoded stream yields exactly the frames it releases, and leaves
      exactly the bytes held back. */
  lemma {:induction false} PrefixDecodes(fs: seq<Frame>, n: nat)
    requires Sendable(fs) && n <= |Stream(fs)|
    ensures Decode(Stream(fs)[..n]) == Decoded(fs[..Delivered(fs, n)], Held(fs, n), false)
    decreases |fs|
  {
    hide Decode, Encode, ValidFrame;
    if fs == [] {
      DecodeNothing();
    } else {
      var f, gs := fs[0], fs[1..];
      PrefixOfConcat(Encode(f), Stream(gs), n);
      if Releases(f, n) {
        var m := n - |Encode(f)|;
        PrefixDecodes(gs, m);
        DecodeFirst(f, Stream(gs)[..m]);
        assert [f] + gs[..Delivered(gs, m)] == fs[..1 + Delivered(gs, m)];
      } else {
        DecodeHolds(f, n);
      }
    }
  }

  /** The same for a stream arriving in pieces: whatever has arrived so far, however it was cut. */
  lemma ChunksOfStream(fs: seq<Frame>, n: nat, chunks: seq<seq<byte>>)
    requires Sendable(fs) && n <= |Stream(fs)| && Flatten(chunks) == Stream(fs)[..n]
    ensures FeedAll(START, chunks) == Decoded(fs[..Delivered(fs, n)], Held(fs, n), false)
  {
    ChunkIndependence(chunks);
    PrefixDecodes(fs, n);
  }

  /** What is held back is a proper prefix of the next frame, or one whole empty-payload frame,
      and together with the released frames it accounts for every byte received. */
  lemma {:induction false} Residue(fs: seq<Frame>, n: nat)
    requires Sendable(fs) && n <= |Stream(fs)|
    ensures var k, held := Delivered(fs, n), Held(fs, n);
      && Stream(fs)[..n] == Stream(fs[..k]) + held
      && (k == |fs| ==> held == [])
      && (k < |fs| ==> held <= Encode(fs[k]) && (held == Encode(fs[k]) ==> fs[k].payload == []))
    decreases |fs|
  {
    hide Encode, ValidFrame;
    if fs != [] {
      var f, gs := fs[0], fs[1..];
      PrefixOfConcat(Encode(f), Stream(gs), n);
      if Releases(f, n) {
        var m := n - |Encode(f)|;
        Residue(gs, m);
        var k := Delivered(gs, m);
        var front := fs[..1 + k];
        assert front[0] == f && front[1..] == gs[..k];
        Assoc(Encode(f), Stream(gs[..k]), Held(gs, m));
      } else {
        assert fs[..0] == [];
        Assoc([], [], Held(fs, n));
        assert Held(fs, n) == Encode(f)[..n];
      }
    }
  }

  /** A fully received stream is fully dispatched unless its last frame has an empty payload. */
  lemma {:induction false} WholeStream(fs: seq<Frame>)
    requires Sendable(fs)
    ensures Delivered(fs, |Stream(fs)|) == |fs| <==> fs == [] || fs[|fs| - 1].payload != []
    ensures fs != [] && fs[|fs| - 1].payload == [] ==> Held(fs, |Stream(fs)|) == Encode(fs[|fs| - 1])
  {
    hide Encode, ValidFrame;
    if fs != [] {
      WholeStream(fs[1..]);
      StreamNonEmpty(fs[1..]);
      if |fs| > 1 {
        assert fs[1..][|fs| - 2] == fs[|fs| - 1];
      }
    }
  }
}
