/** Whole runs of one RpcChannel and one RpcServer over one connection, at byte level.
    Calls, deliveries of any number of bytes, single loop iterations at either end, and
    completions in any order interleave freely. */
module RpcProtocol {
  import opened Bytes
  import opened RpcMetas
  import opened Framing
  import opened RpcEndpoints

  /** A request the service has answered, with the answer it gave. */
  datatype Answer = Answer(request: Frame, response: seq<byte>)

  /** What the user passed to CallMethod. */
  datatype Arguments = Arguments(service: seq<byte>, methodName: seq<byte>, request: seq<byte>)

  datatype State = State(
    channel: ChannelState,
    toServer: seq<byte>,      // on the wire
    serverIn: seq<byte>,      // the server's input buffer
    running: seq<Frame>,      // handed to the service, done callback not run
    toClient: seq<byte>,
    clientIn: seq<byte>,
    // history
    calls: seq<Arguments>,    // of every call, in order
    requests: seq<Frame>,     // in call order
    dones: seq<bool>,         // whether each call came with a done callback
    replies: seq<Frame>,      // in the order they were sent
    answers: seq<Answer>,     // the answer behind each reply
    served: nat,              // requests dispatched by the server
    matched: nat)             // replies dispatched by the client

  ghost predicate Init(s: State) {
    s == State(ChannelState(0, map[], []), [], [], [], [], [], [], [], [], [], [], 0, 0)
  }

  // ---------- Steps ----------

  datatype Event =
    | Call(service: seq<byte>, methodName: seq<byte>, request: seq<byte>, hasDone: bool)
    | ServerReceive(n: nat)
    | ServerDispatch
    | Finish(i: nat, response: seq<byte>)
    | ClientReceive(n: nat)
    | ClientDispatch

  predicate Enabled(s: State, e: Event) {
    match e
    case Call(service, methodName, request, _) =>
      0 <= s.channel.index && s.channel.index + 1 < TWO_63
      && ValidFrame(RequestFrame(s.channel.index + 1, service, methodName, request))
    case ServerReceive(n) => n <= |s.toServer|
    case ServerDispatch => DecodeOne(s.serverIn).Dispatch?
    case Finish(i, response) =>
      i < |s.running| && ValidFrame(ReplyFrame(SignedId(s.running[i].meta.id), response))
    case ClientReceive(n) => n <= |s.toClient|
    case ClientDispatch => DecodeOne(s.clientIn).Dispatch?
  }

  function Apply(s: State, e: Event): State
    requires Enabled(s, e)
  {
    match e
    case Call(service, methodName, request, hasDone) =>
      var f := RequestFrame(s.channel.index + 1, service, methodName, request);
      s.(channel := Register(s.channel, OutstandingCall(true, hasDone)),
         toServer := s.toServer + Encode(f), calls := s.calls + [Arguments(service, methodName, request)],
         requests := s.requests + [f], dones := s.dones + [hasDone])
    case ServerReceive(n) =>
      s.(serverIn := s.serverIn + s.toServer[..n], toServer := s.toServer[n..])
    case ServerDispatch =>
      var step := DecodeOne(s.serverIn);
      s.(running := s.running + [step.frame], serverIn := s.serverIn[step.size..], served := s.served + 1)
    case Finish(i, response) =>
      var f := ReplyFrame(SignedId(s.running[i].meta.id), response);
      s.(running := s.running[..i] + s.running[i + 1..], toClient := s.toClient + Encode(f),
         replies := s.replies + [f], answers := s.answers + [Answer(s.running[i], response)])
    case ClientReceive(n) =>
      s.(clientIn := s.clientIn + s.toClient[..n], toClient := s.toClient[n..])
    case ClientDispatch =>
      var step := DecodeOne(s.clientIn);
      s.(channel := Reply(s.channel, step.frame), clientIn := s.clientIn[step.size..], matched := s.matched + 1)
  }

  /** A run: any sequence of enabled events from the initial state. */
  ghost predicate Run(s0: State, es: seq<Event>, s: State)
    decreases |es|
  {
    if es == [] then s == s0
    else Enabled(s0, es[0]) && Run(Apply(s0, es[0]), es[1..], s)
  }

  ghost predicate Reachable(s: State) {
    exists s0, es :: Init(s0) && Run(s0, es, s)
  }

  // ---------- Invariant ----------

  /** One direction of the connection: what is buffered and on the wire is exactly the frames
      not yet dispatched; the last frame is dispatched early only if it has a payload. */
  ghost predicate Direction(frames: seq<Frame>, done: nat, buffered: seq<byte>, wire: seq<byte>) {
    && done <= |frames|
    && Sendable(frames)
    && buffered + wire == Stream(frames[done..])
    && (0 < done == |frames| ==> frames[done - 1].payload != [])
  }

  function Ids(fs: seq<Frame>): set<int> {
    set i | 0 <= i < |fs| :: IdOf(fs[i])
  }

  ghost predicate Distinct(fs: seq<Frame>) {
    forall i, j :: 0 <= i < j < |fs| ==> IdOf(fs[i]) != IdOf(fs[j])
  }

  /** Every served request is either running or replied to, exactly once. */
  ghost predicate Accounted(s: State) {
    && Distinct(s.running) && Distinct(s.replies)
    && Ids(s.running) !! Ids(s.replies)
    && (forall id :: id in Ids(s.running) || id in Ids(s.replies) <==> 1 <= id <= s.served)
  }

  ghost predicate Calls(s: State) {
    && |s.requests| == |s.dones| == s.channel.index < TWO_63
    && (forall i :: 0 <= i < |s.requests| ==> IdOf(s.requests[i]) == i + 1)
    && (forall f :: f in s.running ==> 1 <= IdOf(f) <= |s.requests| && f == s.requests[IdOf(f) - 1])
  }

  /** Every request frame carries the arguments of its own call. */
  ghost predicate Carried(s: State) {
    && |s.calls| == |s.requests|
    && forall i :: 0 <= i < |s.requests| ==>
      CarriesCall(s.requests[i], i + 1, s.calls[i].service, s.calls[i].methodName, s.calls[i].request)
  }

  ghost predicate Answered(s: State) {
    && |s.answers| == |s.replies|
    && forall k :: 0 <= k < |s.replies| ==>
      && 1 <= IdOf(s.replies[k]) <= |s.requests|
      && s.answers[k] == Answer(s.requests[IdOf(s.replies[k]) - 1], s.replies[k].payload)
  }

  /** Outstanding calls: not served yet, running, or with a reply not matched yet. */
  ghost predicate Outstanding(s: State) {
    && s.matched <= |s.replies|
    && (forall id :: id in s.channel.out <==>
          s.served < id <= |s.requests| || id in Ids(s.running) || id in Ids(s.replies[s.matched..]))
    && (forall id :: id in s.channel.out ==>
          1 <= id <= |s.dones| && s.channel.out[id] == OutstandingCall(true, s.dones[id - 1]))
  }

  /** The completions are the matched replies, in order. */
  ghost predicate Completed(s: State) {
    && |s.channel.completions| == s.matched <= |s.replies|
    && forall k :: 0 <= k < s.matched ==>
      && 1 <= IdOf(s.replies[k]) <= |s.dones|
      && s.channel.completions[k]
         == Completion(IdOf(s.replies[k]), s.replies[k].payload, s.dones[IdOf(s.replies[k]) - 1])
  }

  ghost predicate Inv(s: State) {
    && Direction(s.requests, s.served, s.serverIn, s.toServer)
    && Direction(s.replies, s.matched, s.clientIn, s.toClient)
    && Calls(s) && Carried(s) && Accounted(s) && Answered(s) && Outstanding(s) && Completed(s)
  }

  // ---------- One direction ----------

  lemma SendKeeps(fs: seq<Frame>, done: nat, buffered: seq<byte>, wire: seq<byte>, f: Frame)
    requires Direction(fs, done, buffered, wire) && ValidFrame(f)
    ensures Direction(fs + [f], done, buffered, wire + Encode(f))
  {
    assert (fs + [f])[done..] == fs[done..] + [f];
    StreamSnoc(fs[done..], f);
    Assoc(buffered, wire, Encode(f));
  }

  lemma ReceiveKeeps(fs: seq<Frame>, done: nat, buffered: seq<byte>, wire: seq<byte>, n: nat)
    requires Direction(fs, done, buffered, wire) && n <= |wire|
    ensures Direction(fs, done, buffered + wire[..n], wire[n..])
  {
    Assoc(buffered, wire[..n], wire[n..]);
    assert wire[..n] + wire[n..] == wire;
  }

  /** A dispatched frame is always the next one sent. */
  lemma DispatchKeeps(fs: seq<Frame>, done: nat, buffered: seq<byte>, wire: seq<byte>)
    requires Direction(fs, done, buffered, wire) && DecodeOne(buffered).Dispatch?
    ensures done < |fs| && DecodeOne(buffered) == Dispatch(fs[done], |Encode(fs[done])|)
    ensures Direction(fs, done + 1, buffered[|Encode(fs[done])|..], wire)
  {
    hide DecodeOne, Encode, ValidFrame;
    StreamNonEmpty(fs[done..]);
    var f, gs := fs[done], fs[done + 1..];
    var n, tail := |Encode(f)|, Stream(gs);
    assert fs[done..][1..] == gs;
    DecisionIsFinal(buffered, wire);
    if f.payload == [] {
      FrameWaits(f, n);
      assert Encode(f)[..n] == Encode(f);
    }
    assert tail == [] ==> Encode(f) + tail == Encode(f);
    FrameDispatched(f, tail);
    Cut(buffered, wire, n);
    Halves(Encode(f), tail);
    StreamNonEmpty(gs);
  }

  /** Nothing on the wire and nothing to dispatch: everything was dispatched, or the last frame
      has an empty payload and waits. */
  lemma IdleDirection(fs: seq<Frame>, done: nat, buffered: seq<byte>)
    requires Direction(fs, done, buffered, []) && !DecodeOne(buffered).Dispatch?
    ensures done == |fs| || (done == |fs| - 1 && fs[done].payload == [])
  {
    hide DecodeOne, Encode, ValidFrame;
    if done < |fs| {
      var gs := fs[done + 1..];
      assert fs[done..][1..] == gs;
      assert buffered == buffered + [] == Encode(fs[done]) + Stream(gs);
      StreamNonEmpty(gs);
      if fs[done].payload != [] || gs != [] {
        FrameDispatched(fs[done], Stream(gs));
      }
    }
  }

  lemma StreamDecision(fs: seq<Frame>)
    requires Sendable(fs)
    ensures !DecodeOne(Stream(fs)).Fault?
  {
    NothingToDecode();
    hide DecodeOne, Encode, ValidFrame;
    if fs != [] {
      var f, tail := fs[0], Stream(fs[1..]);
      if f.payload != [] || tail != [] {
        FrameDispatched(f, tail);
      } else {
        FrameWaits(f, |Encode(f)|);
        assert Encode(f)[..|Encode(f)|] == Encode(f) == Encode(f) + tail;
      }
    }
  }

  /** Well-formed traffic never makes the decoder fault. */
  lemma NeverFaults(fs: seq<Frame>, done: nat, buffered: seq<byte>, wire: seq<byte>)
    requires Direction(fs, done, buffered, wire)
    ensures !DecodeOne(buffered).Fault?
  {
    hide DecodeOne, Stream, ValidFrame;
    StreamDecision(fs[done..]);
    if DecodeOne(buffered) != NeedMore {
      DecisionIsFinal(buffered, wire);
    }
  }

  lemma NothingToDecode()
    ensures DecodeOne([]) == NeedMore
  {
  }

  // ---------- Ids ----------

  lemma IdsSnoc(fs: seq<Frame>, f: Frame)
    ensures Ids(fs + [f]) == Ids(fs) + {IdOf(f)}
    ensures Distinct(fs) && IdOf(f) !in Ids(fs) ==> Distinct(fs + [f])
  {
    var gs := fs + [f];
    forall id | id in Ids(fs) + {IdOf(f)} ensures id in Ids(gs) {
      if id in Ids(fs) {
        var i :| 0 <= i < |fs| && IdOf(fs[i]) == id;
        assert gs[i] == fs[i];
      } else {
        assert gs[|fs|] == f;
      }
    }
  }

  lemma IdsRemove(fs: seq<Frame>, i: nat)
    requires Distinct(fs) && i < |fs|
    ensures Distinct(fs[..i] + fs[i + 1..])
    ensures Ids(fs[..i] + fs[i + 1..]) == Ids(fs) - {IdOf(fs[i])}
    ensures forall g :: g in fs[..i] + fs[i + 1..] ==> g in fs
  {
    var gs := fs[..i] + fs[i + 1..];
    assert forall j :: 0 <= j < |gs| ==> gs[j] == fs[if j < i then j else j + 1];
    forall id | id in Ids(fs) - {IdOf(fs[i])} ensures id in Ids(gs) {
      var j :| 0 <= j < |fs| && IdOf(fs[j]) == id;
      assert gs[if j < i then j else j - 1] == fs[j];
    }
  }

  lemma IdsSplit(fs: seq<Frame>, m: nat)
    requires Distinct(fs) && m <= |fs|
    ensures Ids(fs) == Ids(fs[..m]) + Ids(fs[m..]) && Ids(fs[..m]) !! Ids(fs[m..])
    ensures Distinct(fs[m..])
  {
    forall id | id in Ids(fs) ensures id in Ids(fs[..m]) + Ids(fs[m..]) {
      var i :| 0 <= i < |fs| && IdOf(fs[i]) == id;
      if i < m {
        assert fs[..m][i] == fs[i];
      } else {
        assert fs[m..][i - m] == fs[i];
      }
    }
  }

  lemma IdsStep(fs: seq<Frame>, m: nat)
    requires Distinct(fs) && m < |fs|
    ensures Ids(fs[m..]) == {IdOf(fs[m])} + Ids(fs[m + 1..])
    ensures IdOf(fs[m]) !in Ids(fs[m + 1..]) && IdOf(fs[m]) in Ids(fs)
  {
    IdsSplit(fs, m);
    var waiting := fs[m..];
    assert waiting[0] == fs[m] && waiting[1..] == fs[m + 1..];
    IdsRemove(waiting, 0);
    assert waiting[..0] + waiting[1..] == waiting[1..];
  }

  lemma FrameId(id: int, service: seq<byte>, methodName: seq<byte>, data: seq<byte>)
    requires 0 <= id < TWO_63
    ensures IdOf(RequestFrame(id, service, methodName, data)) == id == IdOf(ReplyFrame(id, data))
  {
  }

  // ---------- Every step keeps the invariant ----------

  lemma CallRegistered(s: State, t: State, f: Frame, hasDone: bool)
    requires Calls(s) && Accounted(s) && Answered(s) && Outstanding(s) && Completed(s)
    requires IdOf(f) == s.channel.index + 1 < TWO_63 && s.served <= |s.requests|
    requires t == s.(channel := Register(s.channel, OutstandingCall(true, hasDone)), toServer := t.toServer,
                     calls := t.calls, requests := s.requests + [f], dones := s.dones + [hasDone])
    ensures Calls(t) && Accounted(t) && Answered(t) && Outstanding(t) && Completed(t)
  {
    hide IdOf, Ids, Distinct;
    CallKeepsTable(s, t, f, hasDone);
    hide Outstanding;
  }

  /** The new id joins the table as one not served yet. */
  lemma CallKeepsTable(s: State, t: State, f: Frame, hasDone: bool)
    requires Calls(s) && Accounted(s) && Outstanding(s) && Answered(s) && s.served <= |s.requests|
    requires t == s.(channel := Register(s.channel, OutstandingCall(true, hasDone)), toServer := t.toServer,
                     calls := t.calls, requests := s.requests + [f], dones := s.dones + [hasDone])
    ensures Outstanding(t)
  {
    hide IdOf, Ids, Distinct, Accounted, Answered;
  }

  /** What a call does to the state, and the id it gets. */
  lemma CallEffect(s: State, e: Event)
    requires Enabled(s, e) && e.Call?
    ensures var f := RequestFrame(s.channel.index + 1, e.service, e.methodName, e.request);
      && ValidFrame(f) && IdOf(f) == s.channel.index + 1 < TWO_63
      && Apply(s, e) == s.(channel := Register(s.channel, OutstandingCall(true, e.hasDone)),
           toServer := s.toServer + Encode(f), calls := s.calls + [Arguments(e.service, e.methodName, e.request)],
           requests := s.requests + [f], dones := s.dones + [e.hasDone])
  {
    hide Encode, ValidFrame, DecodeOne;
    FrameId(s.channel.index + 1, e.service, e.methodName, e.request);
  }

  lemma CallKeeps(s: State, e: Event)
    requires Inv(s) && Enabled(s, e) && e.Call?
    ensures Inv(Apply(s, e))
  {
    assert s.served <= |s.requests| by { hide Encode, ValidFrame, Stream, DecodeOne; }
    hide Encode, ValidFrame, Stream, IdOf, RequestFrame, Enabled, Apply;
    hide Calls, Accounted, Answered, Outstanding, Completed, Direction;
    CallEffect(s, e);
    var f := RequestFrame(s.channel.index + 1, e.service, e.methodName, e.request);
    SendKeeps(s.requests, s.served, s.serverIn, s.toServer, f);
    CallRegistered(s, Apply(s, e), f, e.hasDone);
    RequestCarries(s.channel.index + 1, e.service, e.methodName, e.request);
    hide CarriesCall;
    assert s.channel.index == |s.requests| by { IndexIsCalls(s); }
  }

  lemma IndexIsCalls(s: State)
    requires Calls(s)
    ensures s.channel.index == |s.requests|
  {
  }

  lemma ServerDispatchKeeps(s: State)
    requires Inv(s) && Enabled(s, ServerDispatch)
    ensures Inv(Apply(s, ServerDispatch))
  {
    hide Encode, ValidFrame, Stream, DecodeOne;
    DispatchKeeps(s.requests, s.served, s.serverIn, s.toServer);
    var f := s.requests[s.served];
    assert IdOf(f) == s.served + 1;
    IdsSnoc(s.running, f);
  }

  /** A finished request moves from running to replied. */
  lemma FinishAccounted(s: State, t: State, i: nat, f: Frame)
    requires Accounted(s) && i < |s.running| && IdOf(f) == IdOf(s.running[i])
    requires t == s.(running := s.running[..i] + s.running[i + 1..], replies := s.replies + [f],
                     toClient := t.toClient, answers := t.answers)
    ensures Accounted(t)
    ensures Ids(s.running[..i] + s.running[i + 1..]) == Ids(s.running) - {IdOf(f)} && IdOf(f) in Ids(s.running)
    ensures forall r :: r in s.running[..i] + s.running[i + 1..] ==> r in s.running
  {
    hide IdOf;
    assert IdOf(s.running[i]) in Ids(s.running);
    IdsRemove(s.running, i);
    IdsSnoc(s.replies, f);
  }

  lemma FinishOutstanding(s: State, t: State, f: Frame)
    requires Outstanding(s) && IdOf(f) in Ids(s.running)
    requires t == s.(running := t.running, replies := s.replies + [f], toClient := t.toClient, answers := t.answers)
    requires Ids(t.running) == Ids(s.running) - {IdOf(f)}
    ensures Outstanding(t)
  {
    hide IdOf, Ids;
    assert (s.replies + [f])[s.matched..] == s.replies[s.matched..] + [f];
    IdsSnoc(s.replies[s.matched..], f);
  }

  lemma FinishAnswered(s: State, t: State, i: nat, f: Frame)
    requires Calls(s) && Answered(s) && Completed(s) && i < |s.running| && IdOf(f) == IdOf(s.running[i])
    requires t == s.(running := s.running[..i] + s.running[i + 1..], replies := s.replies + [f],
                     toClient := t.toClient, answers := s.answers + [Answer(s.running[i], f.payload)])
    requires forall r :: r in t.running ==> r in s.running
    ensures Calls(t) && Answered(t) && Completed(t)
  {
    hide IdOf;
    assert s.running[i] in s.running;
  }

  lemma FinishKeeps(s: State, i: nat, response: seq<byte>)
    requires Inv(s) && Enabled(s, Finish(i, response))
    ensures Inv(Apply(s, Finish(i, response)))
  {
    hide Encode, ValidFrame, Stream, DecodeOne, Accounted, Outstanding, Answered, Completed, Direction;
    var t := Apply(s, Finish(i, response));
    assert s.running[i] in s.running;
    var id := IdOf(s.running[i]);
    assert 1 <= id <= |s.requests| < TWO_63;
    FrameId(id, [], [], response);
    var f := ReplyFrame(id, response);
    hide IdOf, Calls;
    SendKeeps(s.replies, s.matched, s.clientIn, s.toClient, f);
    FinishAccounted(s, t, i, f);
    FinishOutstanding(s, t, f);
    FinishAnswered(s, t, i, f);
  }

  /** A matched reply belongs to an outstanding call and takes it out of the table. */
  lemma ReplyMatches(s: State)
    requires s.matched < |s.replies| && Accounted(s) && Outstanding(s)
    ensures var id := IdOf(s.replies[s.matched]);
      && id in s.channel.out && id <= s.served && id !in Ids(s.running)
      && id !in Ids(s.replies[s.matched + 1..])
      && Ids(s.replies[s.matched..]) == {id} + Ids(s.replies[s.matched + 1..])
  {
    hide IdOf, Ids;
    IdsStep(s.replies, s.matched);
  }

  lemma OutstandingKeeps(s: State, t: State)
    requires s.matched < |s.replies| && Accounted(s) && Outstanding(s)
    requires t == s.(channel := t.channel, clientIn := t.clientIn, matched := s.matched + 1)
    requires t.channel.out == s.channel.out - {IdOf(s.replies[s.matched])}
    ensures Outstanding(t)
  {
    hide IdOf, Ids, Accounted;
    ReplyMatches(s);
  }

  lemma CompletedKeeps(s: State, t: State)
    requires s.matched < |s.replies| && Answered(s) && Completed(s)
    requires |s.requests| == |s.dones|
    requires t == s.(channel := t.channel, clientIn := t.clientIn, matched := s.matched + 1)
    requires var f := s.replies[s.matched];
      1 <= IdOf(f) <= |s.dones| ==>
        t.channel.completions == s.channel.completions + [Completion(IdOf(f), f.payload, s.dones[IdOf(f) - 1])]
    ensures Completed(t)
  {
    hide IdOf;
  }

  /** What matching the next reply does to the channel. */
  lemma ReplyEffect(s: State)
    requires s.matched < |s.replies| && Accounted(s) && Outstanding(s)
    ensures var f := s.replies[s.matched];
      var c := Reply(s.channel, f);
      && c.index == s.channel.index && c.out == s.channel.out - {IdOf(f)}
      && 1 <= IdOf(f) <= |s.dones|
      && c.completions == s.channel.completions + [Completion(IdOf(f), f.payload, s.dones[IdOf(f) - 1])]
  {
    ReplyMatches(s);
    hide IdOf, Ids, Distinct, Accounted;
    assert s.channel.out[IdOf(s.replies[s.matched])] == OutstandingCall(true, s.dones[IdOf(s.replies[s.matched]) - 1]);
  }

  lemma ReplySame(s: State, t: State)
    requires Calls(s) && Accounted(s) && Answered(s)
    requires t == s.(channel := t.channel, clientIn := t.clientIn, matched := t.matched)
    requires t.channel.index == s.channel.index
    ensures Calls(t) && Accounted(t) && Answered(t)
  {
    hide IdOf, Ids, Distinct;
  }

  lemma ReplyKeeps(s: State, t: State)
    requires s.matched < |s.replies| && Calls(s) && Accounted(s) && Answered(s) && Outstanding(s) && Completed(s)
    requires t == s.(channel := Reply(s.channel, s.replies[s.matched]), clientIn := t.clientIn,
                     matched := s.matched + 1)
    ensures Calls(t) && Accounted(t) && Answered(t) && Outstanding(t) && Completed(t)
  {
    assert |s.requests| == |s.dones|;
    hide IdOf, Reply, Calls, Accounted, Answered, Outstanding, Completed;
    ReplyEffect(s);
    ReplySame(s, t);
    OutstandingKeeps(s, t);
    CompletedKeeps(s, t);
  }

  lemma ClientDispatchKeeps(s: State)
    requires Inv(s) && Enabled(s, ClientDispatch)
    ensures Inv(Apply(s, ClientDispatch))
  {
    hide Encode, ValidFrame, Stream, DecodeOne, Calls, Accounted, Answered, Outstanding, Completed;
    DispatchKeeps(s.replies, s.matched, s.clientIn, s.toClient);
    ReplyKeeps(s, Apply(s, ClientDispatch));
  }

  lemma StepKeeps(s: State, e: Event)
    requires Inv(s) && Enabled(s, e)
    ensures Inv(Apply(s, e))
  {
    hide Encode, ValidFrame, Stream, DecodeOne, Direction;
    match e
    case Call(_, _, _, _) => CallKeeps(s, e);
    case ServerReceive(n) => ReceiveKeeps(s.requests, s.served, s.serverIn, s.toServer, n);
    case ServerDispatch => ServerDispatchKeeps(s);
    case Finish(i, response) => FinishKeeps(s, i, response);
    case ClientReceive(n) => ReceiveKeeps(s.replies, s.matched, s.clientIn, s.toClient, n);
    case ClientDispatch => ClientDispatchKeeps(s);
  }

  lemma {:induction false} RunKeeps(s0: State, es: seq<Event>, s: State)
    requires Inv(s0) && Run(s0, es, s)
    ensures Inv(s)
    decreases |es|
  {
    if es != [] {
      StepKeeps(s0, es[0]);
      RunKeeps(Apply(s0, es[0]), es[1..], s);
    }
  }

  lemma ReachableInv(s: State)
    requires Reachable(s)
    ensures Inv(s)
  {
    hide Run;
    var s0, es :| Init(s0) && Run(s0, es, s);
    RunKeeps(s0, es, s);
  }

  // ---------- What holds in every run ----------

  /** The table holds exactly the calls whose request is not yet served (on the wire or buffered by the
      server), running, or answered by a reply the client has not matched yet; the bytes on the way are
      exactly those requests and replies; and neither decoder has faulted. */
  lemma OutIsInFlight(s: State)
    requires Reachable(s)
    ensures s.served <= |s.requests| && s.matched <= |s.replies|
    ensures forall id :: id in s.channel.out <==>
      s.served < id <= |s.requests| || id in Ids(s.running) || id in Ids(s.replies[s.matched..])
    ensures Sendable(s.requests[s.served..]) && s.serverIn + s.toServer == Stream(s.requests[s.served..])
    ensures Sendable(s.replies[s.matched..]) && s.clientIn + s.toClient == Stream(s.replies[s.matched..])
    ensures !DecodeOne(s.serverIn).Fault? && !DecodeOne(s.clientIn).Fault?
  {
    ReachableInv(s);
    hide IdOf, DecodeOne, Stream;
    NeverFaults(s.requests, s.served, s.serverIn, s.toServer);
    NeverFaults(s.replies, s.matched, s.clientIn, s.toClient);
  }

  /** The frame is that of the call with its id. */
  predicate OfItsCall(f: Frame, calls: seq<Arguments>) {
    && 1 <= IdOf(f) <= |calls|
    && var call := calls[IdOf(f) - 1];
       && f.meta.server == call.service && f.meta.methodName == call.methodName
       && f.payload == call.request && f.meta.dataSize == |call.request|
  }

  /** Every request served, running or answered carries the service, the method and the request bytes of the
      call with its id. */
  lemma RequestsCarryTheirCalls(s: State)
    requires Reachable(s)
    ensures |s.calls| == |s.requests| == s.channel.index
    ensures forall i :: 0 <= i < |s.requests| ==> IdOf(s.requests[i]) == i + 1 && OfItsCall(s.requests[i], s.calls)
    ensures forall f :: f in s.running ==> OfItsCall(f, s.calls)
    ensures forall k :: 0 <= k < |s.answers| ==> OfItsCall(s.answers[k].request, s.calls)
  {
    ReachableInv(s);
    CarriedArguments(s);
  }

  lemma CarriedArguments(s: State)
    requires Calls(s) && Carried(s) && Answered(s)
    ensures |s.calls| == |s.requests| == s.channel.index
    ensures forall i :: 0 <= i < |s.requests| ==> IdOf(s.requests[i]) == i + 1 && OfItsCall(s.requests[i], s.calls)
    ensures forall f :: f in s.running ==> OfItsCall(f, s.calls)
    ensures forall k :: 0 <= k < |s.answers| ==> OfItsCall(s.answers[k].request, s.calls)
  {
    hide IdOf;
  }

  /** Every call is either outstanding or completed, never both, and completes at most once. */
  lemma ExactlyOnce(s: State)
    requires Reachable(s)
    ensures forall k, l :: 0 <= k < l < |s.channel.completions| ==>
      s.channel.completions[k].id != s.channel.completions[l].id
    ensures forall id :: 1 <= id <= |s.requests| ==>
      (id in s.channel.out <==> !exists k :: 0 <= k < |s.channel.completions| && s.channel.completions[k].id == id)
  {
    ReachableInv(s);
    hide IdOf, Direction;
    IdsSplit(s.replies, s.matched);
    forall id | 1 <= id <= |s.requests|
      ensures id in s.channel.out <==> id !in Ids(s.replies[..s.matched])
    {
    }
    forall id ensures id in Ids(s.replies[..s.matched]) <==>
      exists k :: 0 <= k < |s.channel.completions| && s.channel.completions[k].id == id
    {
      MatchedIds(s, id);
    }
  }

  lemma MatchedIds(s: State, id: int)
    requires Completed(s)
    ensures id in Ids(s.replies[..s.matched]) <==>
      exists k :: 0 <= k < |s.channel.completions| && s.channel.completions[k].id == id
  {
    hide IdOf;
    if id in Ids(s.replies[..s.matched]) {
      var k :| 0 <= k < s.matched && IdOf(s.replies[..s.matched][k]) == id;
      assert s.channel.completions[k].id == id;
    }
    if k :| 0 <= k < |s.channel.completions| && s.channel.completions[k].id == id {
      assert IdOf(s.replies[..s.matched][k]) == id;
    }
  }

  /** A call completes with the response the service gave to that very request, and its done
      callback runs exactly if it came with one. */
  lemma RightResponse(s: State, k: nat)
    requires Reachable(s) && k < |s.channel.completions|
    ensures var c := s.channel.completions[k];
      && 1 <= c.id <= |s.requests| == |s.dones|
      && IdOf(s.requests[c.id - 1]) == c.id
      && k < |s.answers| && s.answers[k] == Answer(s.requests[c.id - 1], c.payload)
      && c.ranDone == s.dones[c.id - 1]
  {
    ReachableInv(s);
    RightAnswer(s, k);
  }

  lemma RightAnswer(s: State, k: nat)
    requires Calls(s) && Answered(s) && Completed(s) && k < |s.channel.completions|
    ensures var c := s.channel.completions[k];
      && 1 <= c.id <= |s.requests| == |s.dones|
      && IdOf(s.requests[c.id - 1]) == c.id
      && k < |s.answers| && s.answers[k] == Answer(s.requests[c.id - 1], c.payload)
      && c.ranDone == s.dones[c.id - 1]
  {
    hide IdOf;
  }

  ghost predicate Quiet(s: State) {
    && s.toServer == [] && s.toClient == [] && s.running == []
    && !DecodeOne(s.serverIn).Dispatch? && !DecodeOne(s.clientIn).Dispatch?
  }

  /** The frame at the end of a direction has no payload to complete it. */
  predicate EndsEmpty(fs: seq<Frame>) {
    fs != [] && fs[|fs| - 1].payload == []
  }

  /** When nothing is moving any more, every call has completed if and only if neither the last
      request nor the last reply was empty. */
  lemma QuietIsDone(s: State)
    requires Reachable(s) && Quiet(s)
    ensures s.channel.out.Keys == {} <==> !EndsEmpty(s.requests) && !EndsEmpty(s.replies)
    ensures |s.channel.out.Keys| <= 2
  {
    ReachableInv(s);
    QuietInv(s);
  }

  /** In an idle direction something waits exactly when the last frame is empty. */
  lemma IdleIff(fs: seq<Frame>, done: nat, buffered: seq<byte>)
    requires Direction(fs, done, buffered, []) && !DecodeOne(buffered).Dispatch?
    ensures |fs| - 1 <= done <= |fs| && (done < |fs| <==> EndsEmpty(fs))
  {
    hide DecodeOne, Stream;
    IdleDirection(fs, done, buffered);
  }

  lemma QuietInv(s: State)
    requires Inv(s) && Quiet(s)
    ensures s.channel.out.Keys == {} <==> !EndsEmpty(s.requests) && !EndsEmpty(s.replies)
    ensures |s.channel.out.Keys| <= 2
  {
    hide DecodeOne, Accounted, Answered, Completed, Outstanding, Calls, Direction, EndsEmpty, IdOf;
    IdleIff(s.requests, s.served, s.serverIn);
    IdleIff(s.replies, s.matched, s.clientIn);
    OutWhenQuiet(s);
  }

  /** At most one call waits in each direction. */
  lemma OutWhenQuiet(s: State)
    requires Accounted(s) && Outstanding(s) && s.running == []
    requires |s.requests| - 1 <= s.served <= |s.requests| && |s.replies| - 1 <= s.matched
    ensures s.channel.out.Keys ==
      (if s.served < |s.requests| then {|s.requests|} else {})
      + (if s.matched < |s.replies| then {IdOf(s.replies[s.matched])} else {})
  {
    hide IdOf;
    assert Ids(s.running) == {} == Ids([]);
    assert s.replies[|s.replies|..] == [];
    if s.matched < |s.replies| {
      IdsStep(s.replies, s.matched);
      assert s.replies[s.matched + 1..] == [];
    } else {
      assert s.replies[s.matched..] == [];
    }
    forall id ensures id in s.channel.out.Keys <==>
      (s.served < |s.requests| && id == |s.requests|)
      || (s.matched < |s.replies| && id == IdOf(s.replies[s.matched]))
    {
      assert id in s.channel.out <==> s.served < id <= |s.requests| || id in Ids(s.replies[s.matched..]);
    }
  }

  /** A first call whose request serializes to no bytes is received in full and never served. */
  lemma EmptyRequestStalls(service: seq<byte>, methodName: seq<byte>) returns (s: State)
    requires ValidFrame(RequestFrame(1, service, methodName, []))
    ensures Reachable(s) && Quiet(s) && 1 in s.channel.out && |s.requests| == 1
  {
    hide Encode, ValidFrame, DecodeOne;
    var f := RequestFrame(1, service, methodName, []);
    var s0 := State(ChannelState(0, map[], []), [], [], [], [], [], [], [], [], [], [], 0, 0);
    var call := Call(service, methodName, [], true);
    var s1 := Apply(s0, call);
    var n := |Encode(f)|;
    assert s1.toServer == Encode(f) by { Halves([], Encode(f)); assert [] + Encode(f) == Encode(f); }
    s := Apply(s1, ServerReceive(n));
    assert s.serverIn == Encode(f)[..n] && s.toServer == [];
    FrameWaits(f, n);
    NothingToDecode();
    assert Run(s1, [ServerReceive(n)], s);
    assert [call, ServerReceive(n)][1..] == [ServerReceive(n)];
    assert Run(s0, [call, ServerReceive(n)], s);
  }

  // ---------- The methods are runs ----------

  function Times(e: Event, n: nat): seq<Event> {
    seq(n, i => e)
  }

  /** One onMessage loop of the client is a run of ClientDispatch steps. */
  lemma {:induction false} ChannelLoopIsARun(s: State)
    ensures var d := Decode(s.clientIn);
      Run(s, Times(ClientDispatch, |d.frames|),
          s.(channel := Replies(s.channel, d.frames), clientIn := d.rest, matched := s.matched + |d.frames|))
    decreases |s.clientIn|
  {
    hide DecodeOne, Reply;
    if DecodeOne(s.clientIn).Dispatch? {
      var d := Decode(s.clientIn);
      var t := Apply(s, ClientDispatch);
      ChannelLoopIsARun(t);
      assert d.frames[1..] == Decode(t.clientIn).frames;
      assert Times(ClientDispatch, |d.frames|)[1..] == Times(ClientDispatch, |d.frames| - 1);
    }
  }

  lemma {:induction false} ServerLoopIsARun(s: State)
    ensures var d := Decode(s.serverIn);
      Run(s, Times(ServerDispatch, |d.frames|),
          s.(running := s.running + d.frames, serverIn := d.rest, served := s.served + |d.frames|))
    decreases |s.serverIn|
  {
    hide DecodeOne;
    if DecodeOne(s.serverIn).Dispatch? {
      var d := Decode(s.serverIn);
      var t := Apply(s, ServerDispatch);
      ServerLoopIsARun(t);
      Assoc(s.running, [d.frames[0]], d.frames[1..]);
      assert d.frames == [d.frames[0]] + d.frames[1..];
      assert d.frames[1..] == Decode(t.serverIn).frames;
      assert Times(ServerDispatch, |d.frames|)[1..] == Times(ServerDispatch, |d.frames| - 1);
    } else {
      assert s.running + [] == s.running;
    }
  }
}
