/** The two ends of the RPC connection: RpcChannel (client) and RpcServer. */
module RpcEndpoints {
  import opened Bytes
  import opened Buffers
  import opened RpcMetas
  import opened RpcMetaMessages
  import opened Framing

  /** Both onMessage loops: the decision of one iteration, taken on the buffer itself. */
  method FrontFrame(buff: Buffer) returns (step: Step)
    requires buff.Valid()
    ensures step == DecodeOne(buff.Contents())
  {
    hide WithMeta, EncodeInt, DecodeInt;
    if buff.ReadableBytes() <= PREFIX {
      return NeedMore;
    }
    Pow256Values();
    var len := buff.PeekInt(PREFIX);
    assert len == DecodeInt(buff.Contents()[..PREFIX]) by {
      assert buff.Contents()[..PREFIX] == EncodeInt(len, PREFIX);
      IntRoundTrip(len, PREFIX);
    }
    if buff.ReadableBytes() <= SizeAfterPrefix(len) {
      return NeedMore;
    }
    if len < 0 {
      return Fault;
    }
    step := FrontFrameWithMeta(buff, len);
  }

  method FrontFrameWithMeta(buff: Buffer, len: nat) returns (step: Step)
    requires buff.Valid() && PREFIX + len < buff.ReadableBytes() && len < TWO_31
    ensures step == WithMeta(buff.Contents(), len)
  {
    hide Parse;
    var metaData := buff.Peek(PREFIX, len);
    var meta := new Message();
    var parsed := meta.ParseFromString(metaData);
    var length := ToInt32(PREFIX + len + meta.dataSize);
    if length < 0 || buff.ReadableBytes() < length {
      return NeedMore;
    }
    if meta.dataSize < 0 || length != PREFIX + len + meta.dataSize {
      return Fault;
    }
    var payload := buff.Peek(PREFIX + len, meta.dataSize);
    return Dispatch(Frame(meta.View(), payload), length);
  }

  /** fixed64 on the wire, int64_t in the programs. */
  function SignedId(id: int): int {
    if id < TWO_63 then id else id - TWO_64
  }

  function UnsignedId(id: int): int {
    if id >= 0 then id else id + TWO_64
  }

  function IdOf(f: Frame): int {
    SignedId(f.meta.id)
  }

  // ---------- Client ----------

  /** The entry of out_: which of its two pointers are set. */
  datatype OutstandingCall = OutstandingCall(hasResponse: bool, hasDone: bool)

  /** A response that was filled in, and whether its done callback ran. */
  datatype Completion = Completion(id: int, payload: seq<byte>, ranDone: bool)

  datatype ChannelState = ChannelState(index: int, out: map<int, OutstandingCall>, completions: seq<Completion>)

  function RequestFrame(id: int, service: seq<byte>, methodName: seq<byte>, request: seq<byte>): Frame {
    Frame(RpcMeta(UnsignedId(id), service, methodName, |request|), request)
  }

  /** What the server must find in the frame of a call. */
  predicate CarriesCall(f: Frame, id: int, service: seq<byte>, methodName: seq<byte>, request: seq<byte>) {
    && IdOf(f) == id && f.meta.server == service && f.meta.methodName == methodName
    && f.payload == request && f.meta.dataSize == |request|
  }

  /** What the client must find in the frame of an answer. */
  predicate CarriesReply(f: Frame, id: int, response: seq<byte>) {
    IdOf(f) == id && f.payload == response && f.meta.dataSize == |response|
  }

  /** An id survives its trip through the unsigned field, negative ones included. */
  lemma IdRoundTrip(id: int)
    requires -TWO_63 <= id < TWO_63
    ensures SignedId(UnsignedId(id)) == id && 0 <= UnsignedId(id) < TWO_64
    ensures 0 <= id ==> UnsignedId(id) == id
  {
  }

  lemma RequestCarries(id: int, service: seq<byte>, methodName: seq<byte>, request: seq<byte>)
    requires -TWO_63 <= id < TWO_63
    ensures CarriesCall(RequestFrame(id, service, methodName, request), id, service, methodName, request)
  {
    IdRoundTrip(id);
  }

  lemma CallBytes(id: int, service: seq<byte>, methodName: seq<byte>, request: seq<byte>)
    requires ValidFrame(RequestFrame(id, service, methodName, request))
    ensures var meta := RpcMeta(UnsignedId(id), service, methodName, |request|);
      && ValidMeta(meta) && FitsSigned(|Serialize(meta)|, PREFIX)
      && Encode(RequestFrame(id, service, methodName, request))
         == EncodeInt(|Serialize(meta)|, PREFIX) + Serialize(meta) + request
  {
    Pow256Values();
    hide Serialize, EncodeInt;
  }

  /** A server that has received what was sent for a call, and anything behind it, finds that call first;
      with an empty request, only once something is behind it. */
  lemma CallIsDecoded(f: Frame, id: int, service: seq<byte>, methodName: seq<byte>, request: seq<byte>, t: seq<byte>)
    requires ValidFrame(f) && CarriesCall(f, id, service, methodName, request)
    ensures request != [] || t != [] ==>
      var d := Decode(Encode(f) + t);
      && |d.frames| == 1 + |Decode(t).frames| && d.rest == Decode(t).rest && d.fault == Decode(t).fault
      && IdOf(d.frames[0]) == id && d.frames[0].meta.server == service && d.frames[0].meta.methodName == methodName
      && d.frames[0].payload == request
    ensures request != [] ==> Decode(Encode(f)) == Decoded([f], [], false)
  {
    hide Encode, Decode;
    if request != [] || t != [] {
      DecodeFirst(f, t);
    }
    if request != [] {
      DecodeFirst(f, []);
      DecodeNothing();
      assert Encode(f) + [] == Encode(f);
    }
  }

  function Register(s: ChannelState, call: OutstandingCall): ChannelState {
    ChannelState(s.index + 1, s.out[s.index + 1 := call], s.completions)
  }

  /** The effect of one reply: its entry leaves out_ and completes; other ids have none. */
  function Reply(s: ChannelState, f: Frame): ChannelState {
    var id := IdOf(f);
    if id !in s.out then s
    else
      var call := s.out[id];
      ChannelState(s.index, s.out - {id},
                   if call.hasResponse then s.completions + [Completion(id, f.payload, call.hasDone)]
                   else s.completions)
  }

  function Replies(s: ChannelState, fs: seq<Frame>): ChannelState
    decreases |fs|
  {
    if fs == [] then s else Replies(Reply(s, fs[0]), fs[1..])
  }

  /** For any frames at all, including unknown and repeated ids: every id leaves the table, and what
      completes anew are calls that were outstanding, each once, each with a payload sent for it. */
  lemma {:induction false} AnyReplies(s: ChannelState, fs: seq<Frame>)
    ensures var t := Replies(s, fs);
      && t.index == s.index
      && t.out == s.out - (set f | f in fs :: IdOf(f))
      && s.completions <= t.completions
      && (forall k :: |s.completions| <= k < |t.completions| ==>
            && t.completions[k].id in s.out && t.completions[k].id !in t.out
            && s.out[t.completions[k].id].hasResponse
            && t.completions[k].ranDone == s.out[t.completions[k].id].hasDone
            && exists f :: f in fs && IdOf(f) == t.completions[k].id
                         && f.payload == t.completions[k].payload)
      && (forall k, l :: |s.completions| <= k < l < |t.completions| ==>
            t.completions[k].id != t.completions[l].id)
    decreases |fs|
  {
    if fs != [] {
      var u := Reply(s, fs[0]);
      AnyReplies(u, fs[1..]);
      var t := Replies(s, fs);
      assert fs[0] in fs && forall f :: f in fs <==> f == fs[0] || f in fs[1..];
      assert forall k :: |u.completions| <= k < |t.completions| ==> t.completions[k].id in u.out;
      if |u.completions| > |s.completions| {
        assert t.completions[|s.completions|] == u.completions[|s.completions|];
      }
    }
  }

  /** The first reply to an outstanding call completes it, with its payload; later ones do not count. */
  lemma {:induction false} FirstReplyCompletes(s: ChannelState, fs: seq<Frame>, i: nat)
    requires i < |fs| && IdOf(fs[i]) in s.out && s.out[IdOf(fs[i])].hasResponse
    requires forall j :: 0 <= j < i ==> IdOf(fs[j]) != IdOf(fs[i])
    ensures Completion(IdOf(fs[i]), fs[i].payload, s.out[IdOf(fs[i])].hasDone) in Replies(s, fs).completions
    decreases |fs|
  {
    hide IdOf;
    var u := Reply(s, fs[0]);
    AnyReplies(u, fs[1..]);
    if i > 0 {
      FirstReplyCompletes(u, fs[1..], i - 1);
    } else {
      assert u.completions[|s.completions|] == Completion(IdOf(fs[0]), fs[0].payload, s.out[IdOf(fs[0])].hasDone);
      assert Replies(s, fs).completions[|s.completions|] == u.completions[|s.completions|];
    }
  }

  class RpcChannel {
    var index: int
    var out: map<int, OutstandingCall>
    var connected: bool  // whether the weak reference to the connection locks
    var sent: seq<byte>
    var completions: seq<Completion>

    function View(): ChannelState
      reads this
    {
      ChannelState(index, out, completions)
    }

    constructor ()
      ensures View() == ChannelState(0, map[], []) && !connected && sent == []
    {
      index, out, connected, sent, completions := 0, map[], false, [], [];
    }

    /** Only the end of the connection itself, not a report of it going down, makes the weak reference
        to it expire. */
    method OnConnection(up: bool)
      modifies this`connected
      ensures connected == (old(connected) || up)
    {
      if up {
        connected := true;
      }
    }

    method ConnectionExpires()
      modifies this`connected
      ensures !connected
    {
      connected := false;
    }

    /** The call is registered even when there is no connection to send it on. */
    method CallMethod(service: seq<byte>, methodName: seq<byte>, request: seq<byte>, call: OutstandingCall)
      requires 0 <= index && index + 1 < TWO_63
      requires ValidFrame(RequestFrame(index + 1, service, methodName, request))
      modifies this
      ensures index == old(index) + 1 && out == old(out)[index := call] && completions == old(completions)
      ensures View() == Register(old(View()), call)
      ensures sent == old(sent) +
        if connected then Encode(RequestFrame(old(index) + 1, service, methodName, request)) else []
      ensures connected ==> exists f ::
        && ValidFrame(f) && sent == old(sent) + Encode(f)
        && IdOf(f) == index && f.meta.server == service && f.meta.methodName == methodName && f.payload == request
      ensures connected == old(connected)
    {
      hide Encode, RequestFrame, ValidFrame, ValidMeta, Serialize, EncodeInt, FitsSigned, IdOf, UnsignedId;
      ghost var f := RequestFrame(index + 1, service, methodName, request);
      RequestCarries(index + 1, service, methodName, request);
      CallBytes(index + 1, service, methodName, request);
      index := index + 1;
      var meta := RpcMeta(UnsignedId(index), service, methodName, |request|);
      var metaStr := Serialize(meta);
      Pow256Values();
      var serialized := EncodeInt(|metaStr|, PREFIX);
      serialized := serialized + metaStr;
      serialized := serialized + request;
      out := out[index := call];
      if connected {
        sent := sent + serialized;
      }
    }

    method OnMessage(buff: Buffer) returns (fault: bool)
      requires buff.Valid()
      modifies this, buff
      ensures buff.Valid() && buff.buffer == old(buff.buffer)
      ensures var d := Decode(old(buff.Contents()));
        buff.Contents() == d.rest && View() == Replies(old(View()), d.frames) && fault == d.fault
      ensures sent == old(sent) && connected == old(connected)
    {
      hide DecodeOne;
      ghost var all := Decode(buff.Contents());
      while true
        invariant buff.Valid() && buff.buffer == old(buff.buffer)
        invariant sent == old(sent) && connected == old(connected)
        invariant var d := Decode(buff.Contents());
          && d.rest == all.rest && d.fault == all.fault
          && Replies(View(), d.frames) == Replies(old(View()), all.frames)
        decreases buff.ReadableBytes()
      {
        var step := FrontFrame(buff);
        if !step.Dispatch? {
          return step.Fault?;
        }
        ghost var d := Decode(buff.Contents());
        assert d.frames[0] == step.frame && d.frames[1..] == Decode(buff.Contents()[step.size..]).frames;
        Complete(step.frame);
        buff.Retrieve(step.size);
      }
    }

    /** Match the reply by id; an unknown id changes nothing. */
    method Complete(f: Frame)
      modifies this
      ensures View() == Reply(old(View()), f) && sent == old(sent) && connected == old(connected)
    {
      var id := IdOf(f);
      var found := OutstandingCall(false, false);
      if id in out {
        found := out[id];
        out := out - {id};
      }
      if found.hasResponse {
        completions := completions + [Completion(id, f.payload, found.hasDone)];
      }
    }
  }

  // ---------- Server ----------

  function ReplyFrame(id: int, response: seq<byte>): Frame {
    Frame(RpcMeta(UnsignedId(id), [], [], |response|), response)
  }

  lemma ReplyCarries(id: int, response: seq<byte>)
    requires -TWO_63 <= id < TWO_63
    ensures CarriesReply(ReplyFrame(id, response), id, response)
  {
    IdRoundTrip(id);
  }

  lemma Requeue(running: seq<Frame>, f: Frame, fs: seq<Frame>)
    ensures running + ([f] + fs) == (running + [f]) + fs
  {
  }

  class RpcServer {
    /** Requests handed to their service whose done callback has not run yet, oldest first. */
    var running: seq<Frame>
    var connected: bool  // whether the weak reference to the connection locks
    var sent: seq<byte>

    constructor ()
      ensures running == [] && !connected && sent == []
    {
      running, connected, sent := [], false, [];
    }

    /** Only the end of the connection itself, not a report of it going down, makes the weak reference
        to it expire. */
    method OnConnection(up: bool)
      modifies this`connected
      ensures connected == (old(connected) || up)
    {
      if up {
        connected := true;
      }
    }

    method ConnectionExpires()
      modifies this`connected
      ensures !connected
    {
      connected := false;
    }

    method OnMessage(buff: Buffer) returns (fault: bool)
      requires buff.Valid()
      modifies this, buff
      ensures buff.Valid() && buff.buffer == old(buff.buffer)
      ensures var d := Decode(old(buff.Contents()));
        buff.Contents() == d.rest && running == old(running) + d.frames && fault == d.fault
      ensures sent == old(sent) && connected == old(connected)
    {
      hide DecodeOne;
      ghost var all := Decode(buff.Contents());
      while true
        invariant buff.Valid() && buff.buffer == old(buff.buffer)
        invariant sent == old(sent) && connected == old(connected)
        invariant var d := Decode(buff.Contents());
          && d.rest == all.rest && d.fault == all.fault
          && running + d.frames == old(running) + all.frames
        decreases buff.ReadableBytes()
      {
        var step := FrontFrame(buff);
        if !step.Dispatch? {
          return step.Fault?;
        }
        ghost var before := running;
        ProcRpcData(step.frame);
        buff.Retrieve(step.size);
        Requeue(before, step.frame, Decode(buff.Contents()).frames);
      }
    }

    method ProcRpcData(f: Frame)
      modifies this`running
      ensures running == old(running) + [f]
    {
      running := running + [f];
    }

    /** The service finishes the i-th running request, in any order, with any response. */
    method OnCallbackDone(i: nat, response: seq<byte>)
      requires i < |running| && 0 <= running[i].meta.id < TWO_64
      requires ValidFrame(ReplyFrame(SignedId(running[i].meta.id), response))
      modifies this
      ensures running == old(running[..i] + running[i + 1..])
      ensures sent == old(sent) +
        if connected then Encode(ReplyFrame(SignedId(old(running[i].meta.id)), response)) else []
      ensures connected ==> exists f ::
        ValidFrame(f) && CarriesReply(f, IdOf(old(running[i])), response) && sent == old(sent) + Encode(f)
      ensures connected == old(connected)
    {
      ReplyCarries(SignedId(running[i].meta.id), response);
      var id := SignedId(running[i].meta.id);
      running := running[..i] + running[i + 1..];
      var meta := RpcMeta(UnsignedId(id), [], [], |response|);
      var metaStr := Serialize(meta);
      Pow256Values();
      var data := EncodeInt(|metaStr|, PREFIX);
      data := data + metaStr;
      data := data + response;
      if connected {
        sent := sent + data;
      }
    }
  }
}
