/** An honest client session against an honest server over two FIFO streams, as one machine whose steps interleave
    freely. Faults (timeouts, cancellation, lost connections, a failing destination) may strike at any moment. */
module Duplex {
  import opened Bytes
  import opened Messages
  import opened Body
  import C = Client
  import S = Server
  import Uri

  datatype Config = Config(client: C.Config, server: S.Config)

  /** Both ends speak the same protocol about the same authority. */
  ghost predicate Linked(cfg: Config) {
    && cfg.client.rules == cfg.server.rules && cfg.client.authority == cfg.server.authority
    && Uri.IsAuthority(cfg.client.authority)
  }

  datatype ClientPhase =
    | Greeting
    | AtRest
    | AwaitContinue(id: uint32, call: C.Call)
    | Uploading(id: uint32, call: C.Call, left: seq<Frame>)
    | Replying(id: uint32, call: C.Call, state: C.State)
    | Quit

  datatype Done = Done(id: uint32, call: C.Call, answer: C.Answer, got: seq<byte>)

  /** todo is what the server's last turn has yet to send; phase is where it stands after that. History: done lists
      the calls that returned success, asked the provider calls; faulted tells whether the server met a fault. */
  datatype State = State(
    client: ClientPhase, nextID: uint32, todo: seq<Frame>, phase: S.Phase,
    toServer: seq<Frame>, toClient: seq<Frame>, done: seq<Done>, asked: seq<S.Call>, faulted: bool)

  /** Right after the handshake of the transport: HELLO is on its way. */
  const INITIAL := State(Greeting, 1, [], S.AwaitHello, [C.HELLO], [], [], [], false)

  datatype Step =
    | Begin(call: C.Call)
    | SayClose
    | ClientRead
    | ClientSend
    | ServerSend
    | ServerRead
    | ClientFault(k: nat)
    | ServerCut(k: nat)
    | ServerEnd(ending: Cause)

  predicate Reading(c: ClientPhase) { c.Greeting? || c.AwaitContinue? || c.Replying? }

  /** A call the public methods let through: its target came from ParseURI. */
  predicate Callable(call: C.Call) {
    C.CallOk(call) && Uri.IsResource(call.path, call.query)
  }

  predicate Enabled(s: State, step: Step) {
    match step
    case Begin(call) => s.client.AtRest? && s.nextID != 0 && Callable(call)
    case SayClose => s.client.AtRest?
    case ClientRead => Reading(s.client) && s.toClient != []
    case ClientSend => s.client.Uploading? && s.client.left != []
    case ServerSend => s.todo != []
    case ServerRead => s.todo == [] && !s.phase.Stopped? && s.toServer != []
    case ClientFault(k) => !s.client.Quit? && k <= |s.toServer|
    case ServerCut(k) => k <= |s.toClient|
    case ServerEnd(_) => s.todo == [] && !s.phase.Stopped?
  }

  function BeginCall(cfg: Config, s: State, call: C.Call): State
    requires Enabled(s, Begin(call))
  {
    var id := s.nextID;
    var request := C.RequestFrame(cfg.client, id, call);
    var next := (id + 1) % 0x1_0000_0000;
    if cfg.client.oversize(request.meta) then s.(client := Quit, nextID := next)
    else s.(client := if call.Fetch? then Replying(id, call, C.AwaitReply) else AwaitContinue(id, call),
            nextID := next, toServer := s.toServer + [request])
  }

  /** Session.Fetch and Session.Exchange take one frame. */
  function ClientTakes(cfg: Config, s: State, f: Frame): State
    requires Reading(s.client)
  {
    match s.client
    case Greeting =>
      s.(client := if C.WelcomeOk(cfg.client.rules, f) then AtRest else Quit)
    case AwaitContinue(id, call) =>
      if call.Fetch? || C.OnContinue(cfg.client, id, f).Some? || cfg.client.oversize(C.SubmitFrame(id, call).meta) then
        s.(client := Quit)
      else s.(client := Uploading(id, call, C.UploadFrames(cfg.client, id, call)))
    case Replying(id, call, state) =>
      if !C.Waiting(state) then s
      else match C.OnFrame(cfg.client, id, call, state, f)
        case Finished(answer, got) => s.(client := AtRest, done := s.done + [Done(id, call, answer, got)])
        case Failed(_, _) => s.(client := Quit)
        case waiting => s.(client := Replying(id, call, waiting))
  }

  function ClientSends(s: State): State
    requires Enabled(s, ClientSend)
  {
    var rest := s.client.left[1..];
    s.(toServer := s.toServer + [s.client.left[0]],
       client := if rest == [] then Replying(s.client.id, s.client.call, C.AwaitReply) else s.client.(left := rest))
  }

  ghost function Apply(cfg: Config, s: State, step: Step): State
    requires Enabled(s, step)
  {
    match step
    case Begin(call) => BeginCall(cfg, s, call)
    case SayClose => s.(client := Quit, toServer := s.toServer + [Frame(Close, 0, Empty, [])])
    case ClientRead => ClientTakes(cfg, s.(toClient := s.toClient[1..]), s.toClient[0])
    case ClientSend => ClientSends(s)
    case ServerSend => s.(todo := s.todo[1..], toClient := s.toClient + [s.todo[0]])
    case ServerRead =>
      var t := S.OnFrame(cfg.server, s.phase, s.toServer[0]);
      s.(toServer := s.toServer[1..], todo := t.frames, phase := t.next, asked := s.asked + t.calls)
    case ClientFault(k) => s.(client := Quit, toServer := s.toServer[..k])
    case ServerCut(k) => s.(toClient := s.toClient[..k], todo := [], phase := S.Stopped, faulted := true)
    case ServerEnd(ending) =>
      var t := S.OnEnd(cfg.server, s.phase, ending);
      s.(todo := t.frames, phase := t.next, faulted := true)
  }

  /** The state after a whole schedule of steps, if each was possible when its turn came. */
  ghost function After(cfg: Config, s: State, steps: seq<Step>): Option<State>
    decreases |steps|
  {
    if steps == [] then Some(s)
    else if !Enabled(s, steps[0]) then None
    else After(cfg, Apply(cfg, s, steps[0]), steps[1..])
  }

  // ----- what a successful call must have delivered -----

  function Sent(call: C.Call): S.Submission
    requires call.Exchange?
  {
    S.Submission(call.method_, call.headers, call.body)
  }

  /** The resource's own bytes, or none for HEAD. */
  predicate Carries(resource: S.Resource, method_: string, got: seq<byte>) {
    && resource.body.Some?
    && (if method_ == "HEAD" then got == []
        else resource.body.value.data == got && resource.body.value.clean && resource.size == |got|)
  }

  /** What a successful call was answered. FETCH: the bytes and media type of the resource the provider opened for
      that path and query. EXCHANGE: an application provider's own status, headers, media type and bytes for that
      submission; from a provider that only serves resources, 200 and the resource for GET and HEAD, and a fixed 405
      for every other method. HEAD carries no bytes. The provider calls this takes have been made. */
  predicate Delivers(cfg: Config, asked: seq<S.Call>, id: uint32, call: C.Call, answer: C.Answer, got: seq<byte>) {
    match call
    case Fetch(path, query) =>
      var c := S.Open(id, path, query);
      var p := cfg.server.handler(c);
      && c in asked && p.Provided? && Carries(p.resource, "GET", got)
      && answer == C.Stored(p.resource.mediaType, |got|)
    case Exchange(path, query, method_, headers, body) =>
      if cfg.server.isApp then
        var c := S.Exchange(id, path, query, S.Submission(method_, headers, body));
        var p := cfg.server.handler(c);
        && c in asked && p.Provided? && Carries(p.resource, method_, got)
        && answer == C.Application(p.status, p.headers, p.resource.mediaType, |got|)
      else if method_ == "GET" || method_ == "HEAD" then
        var c := S.Open(id, path, query);
        var p := cfg.server.handler(c);
        && c in asked && p.Provided? && Carries(p.resource, method_, got)
        && answer == C.Application(200, [], p.resource.mediaType, |got|)
      else
        && S.Spells(got, S.GetOnly())
        && answer == C.Application(405, [Header("allow", "GET, HEAD")], "text/plain; charset=utf-8", |got|)
  }

  predicate AllDelivered(cfg: Config, s: State) {
    forall i :: 0 <= i < |s.done| ==>
      Delivers(cfg, s.asked, s.done[i].id, s.done[i].call, s.done[i].answer, s.done[i].got)
  }

  /** A request the client can write and the server lets in; id counts the requests of the session. */
  predicate Admitted(cfg: Config, id: uint32, call: C.Call) {
    !cfg.client.oversize(C.RequestFrame(cfg.client, id, call).meta) && id <= cfg.server.maxRequests && cfg.server.allow(id)
  }

  /** An application answer both ends can carry. */
  predicate Sendable(cfg: Config, method_: string, status: int, headers: seq<Header>, resource: S.Resource) {
    var size := if method_ == "HEAD" then 0 else resource.size;
    && resource.body.Some? && ValidMediaType(resource.mediaType) && 200 <= status <= 599 && HeadersOk(headers)
    && 0 <= resource.size <= cfg.server.maxBytes && resource.size <= MAX_APP_RESPONSE && size <= cfg.client.maxBytes
    && !cfg.server.oversize(Reply(status, headers, resource.mediaType, size))
    && (method_ != "HEAD" ==> Exact(resource.body.value, size))
  }

  /** The fixed 405 is small, but limits and time can be smaller. */
  predicate FixedAnswerFits(cfg: Config, id: uint32) {
    var size := |S.GetOnly()|;
    && size <= cfg.server.maxBytes && size <= cfg.client.maxBytes && cfg.server.lapse(id) != Some(0)
    && !cfg.server.oversize(Reply(405, [Header("allow", "GET, HEAD")], "text/plain; charset=utf-8", size))
  }

  /** When a call must succeed: it is admitted, and the provider's answer is one both ends can carry. */
  predicate Serviceable(cfg: Config, id: uint32, call: C.Call) {
    && Admitted(cfg, id, call)
    && match call
       case Fetch(path, query) =>
         var p := cfg.server.handler(S.Open(id, path, query));
         && p.Provided? && p.resource.body.Some? && ValidMediaType(p.resource.mediaType)
         && 0 <= p.resource.size <= cfg.server.maxBytes && p.resource.size <= MAX_RESOURCE
         && p.resource.size <= cfg.client.maxBytes && Exact(p.resource.body.value, p.resource.size)
       case Exchange(path, query, method_, headers, body) =>
         && !cfg.client.oversize(C.SubmitFrame(id, call).meta) && !cfg.server.late(id)
         && (if cfg.server.isApp then
               var p := cfg.server.handler(S.Exchange(id, path, query, S.Submission(method_, headers, body)));
               p.Provided? && Sendable(cfg, method_, p.status, p.headers, p.resource)
             else if method_ == "GET" || method_ == "HEAD" then
               var p := cfg.server.handler(S.Open(id, path, query));
               p.Provided? && Sendable(cfg, method_, 200, [], p.resource)
             else FixedAnswerFits(cfg, id))
  }

  // ----- the invariant -----

  function Next(id: uint32): uint32 { (id + 1) % 0x1_0000_0000 }

  /** Frames on their way to the client, sent or not. */
  function Pending(s: State): seq<Frame> { s.toClient + s.todo }

  predicate NoReply(fs: seq<Frame>) {
    forall i :: 0 <= i < |fs| ==> fs[i].kind != Response
  }

  predicate IsError(fs: seq<Frame>) { |fs| == 1 && fs[0].kind == Error }

  /** The upload still to be read leads the server to exactly the submission of this call. */
  predicate UploadAhead(cfg: Config, phase: S.Phase, id: uint32, call: C.Call, ahead: seq<Frame>) {
    && call.Exchange? && C.CallOk(call)
    && Admitted(cfg, id, call) && !cfg.client.oversize(C.SubmitFrame(id, call).meta)
    && (match phase
        case AwaitSubmit(last, count, path, query) =>
          && last == id && count == id && path == call.path && query == call.query
          && ahead == C.UploadFrames(cfg.client, id, call)
        case TakeUpload(last, count, path, query, method_, headers, size, got) =>
          && last == id && count == id && path == call.path && query == call.query
          && method_ == call.method_ && headers == call.headers && size == |call.body|
          && Drain(cfg.server.rules, id, size, got, ahead) == (Complete(call.body), [])
        case _ => false)
  }

  /** Reading fs from there ends the call exactly, with what the provider holds, or fails it; and if whole, it does
      end the call, with success exactly when the call is serviceable. */
  predicate Ends(cfg: Config, asked: seq<S.Call>, id: uint32, call: C.Call, state: C.State, fs: seq<Frame>, whole: bool) {
    var (end, rest) := C.Run(cfg.client, id, call, state, fs);
    && (end.Finished? ==> rest == [] && Delivers(cfg, asked, id, call, end.answer, end.got))
    && (whole ==> !C.Waiting(end) && (end.Finished? <==> Serviceable(cfg, id, call)))
  }

  /** The reply of a call is on its way; a server that is idle again has put all of it there. */
  predicate Heading(cfg: Config, s: State) {
    && s.client.Replying? && C.Waiting(s.client.state)
    && Ends(cfg, s.asked, s.client.id, s.client.call, s.client.state, Pending(s), s.phase.Idle? || !s.faulted)
  }

  predicate IdleAt(phase: S.Phase, last: int) { phase.Idle? && phase.last == last && phase.count == last }

  /** The request of this call is the only thing in flight. */
  predicate RequestInFlight(cfg: Config, s: State, id: uint32, call: C.Call) {
    && IdleAt(s.phase, id - 1) && !cfg.client.oversize(C.RequestFrame(cfg.client, id, call).meta)
    && s.toServer == [C.RequestFrame(cfg.client, id, call)] && Pending(s) == []
  }

  predicate ContinueInFlight(cfg: Config, s: State, id: uint32, call: C.Call) {
    && s.phase == S.AwaitSubmit(id, id, call.path, call.query) && Admitted(cfg, id, call)
    && s.toServer == [] && Pending(s) == [Frame(Continue, id, Ready(PROFILE, MAX_APP_REQUEST), [])]
  }

  predicate InvGreeting(s: State) {
    && s.nextID == 1
    && (|| (s.phase.AwaitHello? && s.toServer == [C.HELLO] && Pending(s) == [])
        || (IdleAt(s.phase, 0) && s.toServer == [] && Pending(s) == [S.WELCOME])
        || (s.phase.Stopped? && s.faulted && (Pending(s) == [] || Pending(s) == [S.WELCOME])))
  }

  /** Between calls both streams are empty and the two ID counters agree. */
  predicate InvAtRest(s: State) {
    && Pending(s) == []
    && (|| (s.phase.Stopped? && s.faulted)
        || (s.phase.Idle? && s.toServer == [] && IdleAt(s.phase, s.phase.last) && s.nextID == Next(s.phase.last)))
  }

  predicate InvAwaitContinue(cfg: Config, s: State)
    requires s.client.AwaitContinue?
  {
    var id, call := s.client.id, s.client.call;
    && call.Exchange? && Callable(call) && s.nextID == Next(id)
    && (|| RequestInFlight(cfg, s, id, call)
        || ContinueInFlight(cfg, s, id, call)
        || (s.phase.Stopped? && NoReply(Pending(s))
            && (s.faulted || (IsError(Pending(s)) && !Admitted(cfg, id, call)))))
  }

  predicate InvUploading(cfg: Config, s: State)
    requires s.client.Uploading?
  {
    var id, call := s.client.id, s.client.call;
    && call.Exchange? && Callable(call) && s.nextID == Next(id) && s.client.left != []
    && (|| (Pending(s) == [] && UploadAhead(cfg, s.phase, id, call, s.toServer + s.client.left))
        || (s.phase.Stopped? && s.faulted && NoReply(Pending(s))))
  }

  predicate InvReplying(cfg: Config, s: State)
    requires s.client.Replying?
  {
    var id, call := s.client.id, s.client.call;
    && Callable(call) && s.nextID == Next(id) && C.Waiting(s.client.state)
    && (|| (call.Fetch? && s.client.state.AwaitReply? && RequestInFlight(cfg, s, id, call))
        || (s.client.state.AwaitReply? && Pending(s) == [] && UploadAhead(cfg, s.phase, id, call, s.toServer))
        || (s.phase.Stopped? && Heading(cfg, s) && (s.faulted || !Serviceable(cfg, id, call)))
        || (IdleAt(s.phase, id) && s.toServer == [] && Heading(cfg, s)))
  }

  predicate Inv(cfg: Config, s: State) {
    && AllDelivered(cfg, s)
    && (match s.client
        case Greeting => InvGreeting(s)
        case AtRest => InvAtRest(s)
        case AwaitContinue(_, _) => InvAwaitContinue(cfg, s)
        case Uploading(_, _, _) => InvUploading(cfg, s)
        case Replying(_, _, _) => InvReplying(cfg, s)
        case Quit => true)
  }

  // ----- Run and what lies ahead -----

  lemma RunStep(cfg: C.Config, id: uint32, call: C.Call, st: C.State, f: Frame, rest: seq<Frame>)
    requires C.Waiting(st)
    ensures C.Run(cfg, id, call, st, [f] + rest) == C.Run(cfg, id, call, C.OnFrame(cfg, id, call, st, f), rest)
  {
    assert ([f] + rest)[1..] == rest;
  }

  lemma {:induction false} RunSplit(cfg: C.Config, id: uint32, call: C.Call, st: C.State, a: seq<Frame>, b: seq<Frame>)
    ensures var (end, rest) := C.Run(cfg, id, call, st, a);
            C.Run(cfg, id, call, st, a + b)
            == if C.Waiting(end) then C.Run(cfg, id, call, end, b) else (end, rest + b)
    decreases |a|
  {
    if a == [] {
      assert a + b == b;
    } else if C.Waiting(st) {
      assert (a + b)[1..] == a[1..] + b;
      RunSplit(cfg, id, call, C.OnFrame(cfg, id, call, st, a[0]), a[1..], b);
    }
  }

  /** Cutting off or extending with an ERROR cannot turn what lies ahead into a wrong success. */
  lemma {:induction false} NoReplyNoFinish(cfg: C.Config, id: uint32, call: C.Call, fs: seq<Frame>)
    requires NoReply(fs)
    ensures !C.Run(cfg, id, call, C.AwaitReply, fs).0.Finished?
    decreases |fs|
  {
    if fs != [] {
      assert fs[0].kind != Response;
      assert C.OnReply(cfg, id, call, fs[0]).Failed?;
    }
  }

  lemma RunErrorFails(cfg: C.Config, id: uint32, call: C.Call, st: C.State, e: Frame)
    requires C.Waiting(st) && e.kind == Error
    ensures C.Run(cfg, id, call, st, [e]).0.Failed?
  {
    RunStep(cfg, id, call, st, e, []);
    assert [e] + [] == [e];
  }

  /** A reply finishes the call exactly when its head is accepted and its body has the announced size. */
  lemma ReplyHeads(cfg: C.Config, id: uint32, call: C.Call, head: Frame, c: Content, size: nat, tail: seq<Frame>)
    requires head.id == id && head.kind == Response && (head.meta.Described? || head.meta.Reply?) && head.meta.size == size
    requires if Exact(c, size) then tail == [] else IsError(tail)
    ensures var (end, rest) := C.Run(cfg, id, call, C.AwaitReply, [head] + SenderFrames(cfg.rules.sha, id, c, size) + tail);
            var st := C.OnReply(cfg, id, call, head);
            && !C.Waiting(end)
            && (end.Finished? <==> st.Taking? && Exact(c, size))
            && (end.Finished? ==> rest == [] && end.got == c.data && st == C.Taking(end.answer, []))
  {
    var body := SenderFrames(cfg.rules.sha, id, c, size);
    assert [head] + body + tail == [head] + (body + tail);
    RunStep(cfg, id, call, C.AwaitReply, head, body + tail);
    var st := C.OnReply(cfg, id, call, head);
    OnReplySize(cfg, id, call, head);
    hide C.OnReply, SenderFrames;
    if st.Taking? {
      C.RunIsDrain(cfg, id, call, st.answer, [], body + tail);
      if Exact(c, size) {
        SentIsVerified(cfg.rules, id, c.data, tail);
        ExactSends(cfg.rules.sha, id, c.data);
      } else {
        DrainMismatch(cfg.rules, id, c, size, tail);
      }
    }
  }

  lemma OnReplySize(cfg: C.Config, id: uint32, call: C.Call, head: Frame)
    ensures var st := C.OnReply(cfg, id, call, head);
            && (st.Taking? || st.Failed?)
            && (st.Taking? ==> st.got == [] && (head.meta.Described? || head.meta.Reply?) && st.answer.size == head.meta.size)
  {
  }

  lemma DrainMismatch(r: Rules, id: uint32, c: Content, size: nat, tail: seq<Frame>)
    requires !Exact(c, size) && |tail| == 1 && tail[0].kind == Error
    ensures Drain(r, id, size, [], SenderFrames(r.sha, id, c, size) + tail).0.Rejected?
  {
    var k := SentBytes(c, size);
    var datas := DataFrames(id, c.data[..k]);
    ChunkingIsExact(id, c.data[..k]);
    assert k <= size;
    DrainData(r, id, size, [], datas, tail);
    assert Take(r, id, size, [] + Bodies(datas), tail[0]).Rejected?;
  }

  /** What is sent of an upload leads an honest server to exactly that submission. */
  lemma UploadHeads(cfg: Config, id: uint32, call: C.Call)
    requires Linked(cfg) && call.Exchange?
    ensures C.UploadFrames(cfg.client, id, call)
         == [C.SubmitFrame(id, call)] + BodyFrames(cfg.server.rules.sha, id, call.body)
    ensures Drain(cfg.server.rules, id, |call.body|, [], BodyFrames(cfg.server.rules.sha, id, call.body))
         == (Complete(call.body), [])
  {
    SentIsVerified(cfg.server.rules, id, call.body, []);
    assert BodyFrames(cfg.server.rules.sha, id, call.body) + [] == BodyFrames(cfg.server.rules.sha, id, call.body);
  }

  // ----- every step keeps the invariant -----

  lemma DeliveredStays(cfg: Config, s: State, t: State)
    requires AllDelivered(cfg, s) && t.done == s.done && s.asked <= t.asked
    ensures AllDelivered(cfg, t)
  {
    assert forall c :: c in s.asked ==> c in t.asked;
  }

  /** Nothing that lacks a RESPONSE can finish a call. */
  lemma CutShort(cfg: Config, asked: seq<S.Call>, id: uint32, call: C.Call, fs: seq<Frame>)
    requires NoReply(fs)
    ensures Ends(cfg, asked, id, call, C.AwaitReply, fs, false)
  {
    NoReplyNoFinish(cfg.client, id, call, fs);
  }

  lemma AskWaits(cfg: Config, s: State)
    requires s.client.Replying? && s.client.state.AwaitReply? && s.client.call.Fetch? && Callable(s.client.call)
    requires s.nextID == Next(s.client.id) && RequestInFlight(cfg, s, s.client.id, s.client.call)
    ensures InvReplying(cfg, s)
  {
    hide Callable, RequestInFlight;
  }

  lemma BeginFetches(cfg: Config, s: State, call: C.Call)
    requires InvAtRest(s) && Enabled(s, Begin(call)) && BeginCall(cfg, s, call).client.Replying?
    ensures InvReplying(cfg, BeginCall(cfg, s, call))
  {
    hide InvReplying, Ends, Callable, C.RequestFrame;
    var t := BeginCall(cfg, s, call);
    var request := C.RequestFrame(cfg.client, s.nextID, call);
    assert t == s.(client := Replying(s.nextID, call, C.AwaitReply), nextID := Next(s.nextID), toServer := s.toServer + [request]);
    assert Pending(t) == Pending(s) == [];
    hide Pending, BeginCall;
    if s.phase.Stopped? {
      CutShort(cfg, s.asked, s.nextID, call, []);
      ReplyWaits(cfg, t);
    } else {
      Appended(s.toServer, request);
      AskWaits(cfg, t);
    }
  }

  lemma Appended<T>(fs: seq<T>, f: T)
    requires fs == []
    ensures fs + [f] == [f]
  {
  }

  lemma BeginKeeps(cfg: Config, s: State, call: C.Call)
    requires Linked(cfg) && Inv(cfg, s) && Enabled(s, Begin(call))
    ensures Inv(cfg, BeginCall(cfg, s, call))
  {
    hide AllDelivered, Ends, Callable, UploadAhead, C.CallOk, C.RequestFrame;
    var t := BeginCall(cfg, s, call);
    DeliveredStays(cfg, s, t);
    if t.client.Replying? {
      BeginFetches(cfg, s, call);
    }
  }

  lemma GreetingTakes(cfg: Config, s: State)
    requires Linked(cfg) && Inv(cfg, s) && Enabled(s, ClientRead) && s.client.Greeting?
    ensures Inv(cfg, Apply(cfg, s, ClientRead))
  {
    var t := Apply(cfg, s, ClientRead);
    assert Pending(s) == [s.toClient[0]] + Pending(t);
    DeliveredStays(cfg, s, t);
  }

  lemma ContinueTakes(cfg: Config, s: State)
    requires Linked(cfg) && Inv(cfg, s) && Enabled(s, ClientRead) && s.client.AwaitContinue?
    ensures Inv(cfg, Apply(cfg, s, ClientRead))
  {
    hide AllDelivered, InvAwaitContinue, InvUploading, C.UploadFrames, C.OnContinue;
    var t := Apply(cfg, s, ClientRead);
    DeliveredStays(cfg, s, t);
    if t.client.Uploading? {
      UploadStarts(cfg, s, t);
    }
  }

  lemma ContinueCases(cfg: Config, s: State)
    requires s.toClient != [] && s.toClient[0].kind == Continue && s.client.AwaitContinue? && InvAwaitContinue(cfg, s)
    ensures ContinueInFlight(cfg, s, s.client.id, s.client.call)
            || (s.phase.Stopped? && s.faulted && NoReply(Pending(s)))
  {
    assert Pending(s)[0] == s.toClient[0];
  }

  lemma UploadStarts(cfg: Config, s: State, t: State)
    requires Enabled(s, ClientRead) && s.client.AwaitContinue? && InvAwaitContinue(cfg, s)
    requires t == Apply(cfg, s, ClientRead) && t.client.Uploading?
    ensures InvUploading(cfg, t)
  {
    var id, call, f := s.client.id, s.client.call, s.toClient[0];
    PendingPop(s, t);
    assert f.kind == Continue && !cfg.client.oversize(C.SubmitFrame(id, call).meta);
    ContinueCases(cfg, s);
    assert call.Exchange? && Callable(call) && s.nextID == Next(id);
    assert t == s.(toClient := t.toClient, client := Uploading(id, call, C.UploadFrames(cfg.client, id, call)));
    hide C.OnContinue, InvAwaitContinue, BodyFrames, Admitted, C.SubmitFrame, Apply, Pending;
    if s.phase.Stopped? {
      NoReplyTail(f, Pending(t));
      hide ContinueInFlight, NoReply;
    } else {
      assert Pending(t) == [];
      assert t.toServer + t.client.left == t.client.left;
    }
  }

  lemma NoReplyTail(f: Frame, fs: seq<Frame>)
    requires NoReply([f] + fs)
    ensures NoReply(fs)
  {
    assert forall i :: 0 <= i < |fs| ==> fs[i] == ([f] + fs)[i + 1];
  }

  lemma DoneGrows(cfg: Config, s: State, t: State, d: Done)
    requires AllDelivered(cfg, s) && t.done == s.done + [d] && t.asked == s.asked
    requires Delivers(cfg, s.asked, d.id, d.call, d.answer, d.got)
    ensures AllDelivered(cfg, t)
  {
    hide Delivers;
  }

  lemma EndsStep(cfg: Config, asked: seq<S.Call>, id: uint32, call: C.Call, state: C.State,
                 f: Frame, rest: seq<Frame>, whole: bool)
    requires C.Waiting(state) && Ends(cfg, asked, id, call, state, [f] + rest, whole)
    ensures var t := C.OnFrame(cfg.client, id, call, state, f);
            && (C.Waiting(t) ==> Ends(cfg, asked, id, call, t, rest, whole))
            && (t.Finished? ==> rest == [] && Delivers(cfg, asked, id, call, t.answer, t.got))
            && (whole && !C.Waiting(t) ==> (t.Finished? <==> Serviceable(cfg, id, call)))
  {
    RunStep(cfg.client, id, call, state, f, rest);
    hide C.OnFrame, Delivers, Serviceable;
  }

  lemma ReplyCases(cfg: Config, s: State)
    requires s.toClient != [] && s.client.Replying? && InvReplying(cfg, s)
    ensures ReplyComing(cfg, s)
  {
    hide Ends, UploadAhead;
  }

  /** A reply on its way: the second half of the invariant of a waiting client. */
  predicate ReplyComing(cfg: Config, s: State) {
    && Heading(cfg, s) && Callable(s.client.call) && s.nextID == Next(s.client.id)
    && ReplyBy(cfg, s, s.client.id, s.client.call)
  }

  lemma ReplyWaits(cfg: Config, s: State)
    requires ReplyComing(cfg, s)
    ensures InvReplying(cfg, s)
  {
    hide Ends, Callable;
  }

  /** What holds of the server once a reply is on its way. */
  predicate ReplyBy(cfg: Config, s: State, id: uint32, call: C.Call) {
    || (s.phase.Stopped? && (s.faulted || !Serviceable(cfg, id, call)))
    || (IdleAt(s.phase, id) && s.toServer == [])
  }

  lemma PendingPop(s: State, t: State)
    requires s.toClient != [] && t.toClient == s.toClient[1..] && t.todo == s.todo
    ensures Pending(s) == [s.toClient[0]] + Pending(t)
  {
  }

  lemma ReplyGoesOn(cfg: Config, s: State, f: Frame, t: State)
    requires ReplyComing(cfg, s) && Pending(s) == [f] + Pending(t)
    requires t == s.(toClient := t.toClient, client := t.client) && t.client.Replying?
    requires t.client.id == s.client.id && t.client.call == s.client.call
    requires t.client.state == C.OnFrame(cfg.client, s.client.id, s.client.call, s.client.state, f) && C.Waiting(t.client.state)
    ensures ReplyComing(cfg, t)
  {
    hide C.OnFrame, Callable, Serviceable, C.Run, Pending;
    EndsStep(cfg, s.asked, s.client.id, s.client.call, s.client.state, f, Pending(t), s.phase.Idle? || !s.faulted);
    hide Ends;
  }

  lemma ReplyEnds(cfg: Config, s: State, f: Frame, t: State, d: Done)
    requires ReplyComing(cfg, s) && AllDelivered(cfg, s) && Pending(s) == [f] + Pending(t)
    requires t == s.(toClient := t.toClient, client := AtRest, done := s.done + [d])
    requires d.id == s.client.id && d.call == s.client.call
    requires C.OnFrame(cfg.client, d.id, d.call, s.client.state, f) == C.Finished(d.answer, d.got)
    ensures InvAtRest(t) && AllDelivered(cfg, t)
    ensures Serviceable(cfg, d.id, d.call) || s.faulted
  {
    hide C.OnFrame, AllDelivered, Delivers, Callable, Serviceable, C.Run, Pending;
    EndsStep(cfg, s.asked, d.id, d.call, s.client.state, f, Pending(t), s.phase.Idle? || !s.faulted);
    hide Ends;
    DoneGrows(cfg, s, t, d);
  }

  lemma ReplyTakes(cfg: Config, s: State)
    requires Linked(cfg) && Inv(cfg, s) && Enabled(s, ClientRead) && s.client.Replying?
    ensures Inv(cfg, Apply(cfg, s, ClientRead))
  {
    var t := Apply(cfg, s, ClientRead);
    var f := s.toClient[0];
    ReplyCases(cfg, s);
    assert C.Waiting(s.client.state);
    hide C.OnFrame, AllDelivered, InvReplying, Pending, ReplyComing, InvAtRest;
    var after := C.OnFrame(cfg.client, s.client.id, s.client.call, s.client.state, f);
    PendingPop(s, t);
    if after.Finished? {
      ReplyEnds(cfg, s, f, t, Done(s.client.id, s.client.call, after.answer, after.got));
    } else {
      DeliveredStays(cfg, s, t);
      if C.Waiting(after) {
        ReplyGoesOn(cfg, s, f, t);
        ReplyWaits(cfg, t);
      }
    }
  }

  lemma ClientSendKeeps(cfg: Config, s: State)
    requires Linked(cfg) && Inv(cfg, s) && Enabled(s, ClientSend)
    ensures Inv(cfg, Apply(cfg, s, ClientSend))
  {
    hide UploadAhead, AllDelivered, Ends, Callable, RequestInFlight, S.OnFrame, C.OnFrame, NoReply;
    var t := Apply(cfg, s, ClientSend);
    DeliveredStays(cfg, s, t);
    var ahead := s.toServer + s.client.left;
    if t.client.Uploading? {
      assert t.toServer + t.client.left == ahead;
    } else {
      assert t.toServer == ahead;
      if s.phase.Stopped? && NoReply(Pending(s)) {
        CutShort(cfg, s.asked, s.client.id, s.client.call, Pending(t));
      }
    }
  }

  lemma ServerSendKeeps(cfg: Config, s: State)
    requires Inv(cfg, s) && Enabled(s, ServerSend)
    ensures Inv(cfg, Apply(cfg, s, ServerSend))
  {
    var t := Apply(cfg, s, ServerSend);
    assert Pending(t) == Pending(s);
    DeliveredStays(cfg, s, t);
    hide UploadAhead, Delivers, Ends, NoReply, Callable;
  }

  lemma PrefixEnds(cfg: Config, asked: seq<S.Call>, id: uint32, call: C.Call, state: C.State,
                   fs: seq<Frame>, more: seq<Frame>, whole: bool)
    requires Ends(cfg, asked, id, call, state, fs + more, whole)
    ensures Ends(cfg, asked, id, call, state, fs, false)
  {
    RunSplit(cfg.client, id, call, state, fs, more);
    hide C.Run, Delivers, Serviceable;
  }

  /** A stopped server with less on its way to a client in its reply. */
  lemma StoppedReplies(cfg: Config, s: State, t: State)
    requires s.client.Replying? && InvReplying(cfg, s)
    requires t.client == s.client && t.asked == s.asked && t.nextID == s.nextID && t.phase.Stopped? && t.faulted
    requires Pending(t) <= Pending(s) || (UploadAhead(cfg, s.phase, s.client.id, s.client.call, s.toServer) && NoReply(Pending(t)))
    ensures InvReplying(cfg, t)
  {
    var id, call, state := s.client.id, s.client.call, s.client.state;
    hide Ends, Delivers, Callable, C.Run;
    if Heading(cfg, s) && Pending(t) <= Pending(s) {
      var more := Pending(s)[|Pending(t)|..];
      assert Pending(s) == Pending(t) + more;
      PrefixEnds(cfg, s.asked, id, call, state, Pending(t), more, s.phase.Idle? || !s.faulted);
    } else {
      CutShort(cfg, s.asked, id, call, Pending(t));
    }
  }

  lemma CutKeeps(cfg: Config, s: State, k: nat)
    requires Inv(cfg, s) && Enabled(s, ServerCut(k))
    ensures Inv(cfg, Apply(cfg, s, ServerCut(k)))
  {
    var t := Apply(cfg, s, ServerCut(k));
    assert Pending(t) == s.toClient[..k];
    assert Pending(t) <= Pending(s);
    DeliveredStays(cfg, s, t);
    hide UploadAhead, Delivers, Ends, Callable;
    if s.client.Replying? {
      StoppedReplies(cfg, s, t);
    }
  }

  lemma EndKeeps(cfg: Config, s: State, ending: Cause)
    requires Inv(cfg, s) && Enabled(s, ServerEnd(ending))
    ensures Inv(cfg, Apply(cfg, s, ServerEnd(ending)))
  {
    var t := Apply(cfg, s, ServerEnd(ending));
    DeliveredStays(cfg, s, t);
    assert Pending(s) == s.toClient;
    hide AllDelivered, Ends, Callable, Drain, C.UploadFrames, C.CallOk, Admitted, C.RequestFrame;
    if s.client.Replying? {
      StoppedReplies(cfg, s, t);
    }
  }

  // ----- the server's turns keep it -----

  lemma SubmitStep(cfg: Config, phase: S.Phase, id: uint32, call: C.Call, ahead: seq<Frame>)
    requires Linked(cfg) && UploadAhead(cfg, phase, id, call, ahead) && phase.AwaitSubmit?
    ensures |ahead| > 1
    ensures var t := S.OnFrame(cfg.server, phase, ahead[0]);
            t.frames == [] && t.calls == [] && UploadAhead(cfg, t.next, id, call, ahead[1..])
  {
    UploadHeads(cfg, id, call);
    assert |BodyFrames(cfg.server.rules.sha, id, call.body)| > 0;
    hide C.UploadFrames, BodyFrames, Drain, HeadersOk, Admitted;
    assert ahead[1..] == BodyFrames(cfg.server.rules.sha, id, call.body);
  }

  lemma DrainLast(r: Rules, id: uint32, size: int, got: seq<byte>, fs: seq<Frame>, body: seq<byte>)
    requires |fs| == 1 && Drain(r, id, size, got, fs) == (Complete(body), [])
    ensures Take(r, id, size, got, fs[0]) == Complete(body)
  {
    var t := Take(r, id, size, got, fs[0]);
    assert t.Receiving? ==> Drain(r, id, size, t.got, fs[1..]).0 == t;
  }

  lemma UploadStep(cfg: Config, phase: S.Phase, id: uint32, call: C.Call, ahead: seq<Frame>)
    requires Linked(cfg) && UploadAhead(cfg, phase, id, call, ahead)
    ensures ahead != []
    ensures var t := S.OnFrame(cfg.server, phase, ahead[0]);
            if |ahead| == 1 then phase.TakeUpload? && t == S.OnVerified(cfg.server, phase, call.body)
            else t.frames == [] && t.calls == [] && UploadAhead(cfg, t.next, id, call, ahead[1..])
  {
    if phase.AwaitSubmit? {
      SubmitStep(cfg, phase, id, call, ahead);
    } else {
      hide S.OnVerified, C.UploadFrames, Admitted, C.CallOk;
      if |ahead| == 1 {
        DrainLast(cfg.server.rules, id, phase.size, phase.got, ahead, call.body);
      }
      hide Take;
    }
  }

  /** What a plan puts on the wire, read by the client, finishes the call exactly when the plan does not fail and
      its RESPONSE is accepted. */
  lemma PlanHeads(cfg: Config, id: uint32, count: nat, call: C.Call, calls: seq<S.Call>, plan: S.Plan,
                  head: Frame, c: Content, size: nat)
    requires Linked(cfg)
    requires plan.frames == [] ==> plan.failure.Some?
    requires plan.frames != [] ==>
      && head.id == id && head.kind == Response && (head.meta.Described? || head.meta.Reply?) && head.meta.size == size
      && plan.frames == [head] + SenderFrames(cfg.client.rules.sha, id, c, size)
      && (plan.failure == None <==> Exact(c, size))
    ensures var fs := S.Carry(cfg.server, id, count, calls, plan).frames;
            var (end, rest) := C.Run(cfg.client, id, call, C.AwaitReply, fs);
            var st := C.OnReply(cfg.client, id, call, head);
            && !C.Waiting(end)
            && (end.Finished? <==> plan.failure == None && st.Taking?)
            && (end.Finished? ==> rest == [] && end.got == c.data && st == C.Taking(end.answer, []))
  {
    var t := S.Carry(cfg.server, id, count, calls, plan);
    if plan.frames == [] {
      RunErrorFails(cfg.client, id, call, C.AwaitReply, t.frames[0]);
      assert t.frames == [t.frames[0]];
    } else {
      var tail := t.frames[|plan.frames|..];
      assert t.frames == [head] + SenderFrames(cfg.client.rules.sha, id, c, size) + tail;
      ReplyHeads(cfg.client, id, call, head, c, size, tail);
    }
  }

  lemma FetchServed(cfg: Config, id: uint32, call: C.Call, asked: seq<S.Call>)
    requires Linked(cfg) && call.Fetch? && Admitted(cfg, id, call)
    ensures var c := S.Open(id, call.path, call.query);
            var t := S.Carry(cfg.server, id, id, [c], S.TransferPlan(cfg.server, id, cfg.server.handler(c)));
            && Ends(cfg, asked + [c], id, call, C.AwaitReply, t.frames, true)
            && (t.next.Stopped? ==> !Serviceable(cfg, id, call))
  {
    var c := S.Open(id, call.path, call.query);
    var p := cfg.server.handler(c);
    var plan := S.TransferPlan(cfg.server, id, p);
    if plan.frames == [] {
      PlanHeads(cfg, id, id, call, [c], plan, S.WELCOME, Content([], true, None), 0);
    } else {
      var head := plan.frames[0];
      PlanHeads(cfg, id, id, call, [c], plan, head, p.resource.body.value, p.resource.size);
    }
    hide C.Run, S.Carry, SenderFrames;
  }

  /** What the provider side of an exchange came up with, delivered or not, in the terms of one provision. */
  lemma ProvisionServed(cfg: Config, id: uint32, call: C.Call, calls: seq<S.Call>, p: S.Provision)
    requires Linked(cfg) && call.Exchange?
    ensures var t := S.Carry(cfg.server, id, id, calls, S.ReplyPlan(cfg.server, id, call.method_, p));
            var (end, rest) := C.Run(cfg.client, id, call, C.AwaitReply, t.frames);
            && !C.Waiting(end)
            && (end.Finished? <==> p.Provided? && Sendable(cfg, call.method_, p.status, p.headers, p.resource))
            && (end.Finished? ==>
                  && rest == [] && Carries(p.resource, call.method_, end.got)
                  && end.answer == C.Application(p.status, p.headers, p.resource.mediaType, |end.got|))
            && (t.next.Stopped? ==> !end.Finished?)
  {
    var plan := S.ReplyPlan(cfg.server, id, call.method_, p);
    hide HeadersOk;
    if plan.frames == [] {
      PlanHeads(cfg, id, id, call, calls, plan, S.WELCOME, Content([], true, None), 0);
    } else {
      var head := plan.frames[0];
      var content, size := S.Payload(call.method_, p.resource), S.PayloadSize(call.method_, p.resource);
      PlanHeads(cfg, id, id, call, calls, plan, head, content, size);
    }
    hide C.Run, S.Carry, SenderFrames;
  }

  lemma ExchangeServed(cfg: Config, id: uint32, call: C.Call, asked: seq<S.Call>)
    requires Linked(cfg) && call.Exchange? && Admitted(cfg, id, call)
    requires !cfg.client.oversize(C.SubmitFrame(id, call).meta) && !cfg.server.late(id)
    ensures var (calls, p) := S.Dispatch(cfg.server, id, call.path, call.query, Sent(call));
            var t := S.Carry(cfg.server, id, id, calls, S.ReplyPlan(cfg.server, id, call.method_, p));
            && Ends(cfg, asked + calls, id, call, C.AwaitReply, t.frames, true)
            && (t.next.Stopped? ==> !Serviceable(cfg, id, call))
  {
    var (calls, p) := S.Dispatch(cfg.server, id, call.path, call.query, Sent(call));
    ProvisionServed(cfg, id, call, calls, p);
    S.SubmissionAnswered(cfg.server, id, call.path, call.query, Sent(call));
    if !cfg.server.isApp && call.method_ != "GET" && call.method_ != "HEAD" {
      NotAllowedSendable(cfg, id, call);
    }
    hide S.Dispatch, S.ReplyPlan, S.Carry, C.Run, Sendable, Admitted, S.GetOnly, S.Ascii;
  }

  lemma NotAllowedSendable(cfg: Config, id: uint32, call: C.Call)
    requires call.Exchange? && !cfg.server.isApp && call.method_ != "GET" && call.method_ != "HEAD"
    ensures var p := S.Dispatch(cfg.server, id, call.path, call.query, Sent(call)).1;
            Sendable(cfg, call.method_, p.status, p.headers, p.resource) <==> FixedAnswerFits(cfg, id)
  {
    AllowHeaderOk();
    assert |S.GetOnly()| == 40 && ValidMediaType("text/plain; charset=utf-8");
    hide S.GetOnly, HeadersOk, ValidMediaType;
    ShortLapse(cfg.server.lapse(id));
  }

  lemma ShortLapse(lapse: Option<nat>)
    ensures lapse.Some? && lapse.value * MAX_CHUNK < 40 <==> lapse == Some(0)
  {
  }

  lemma AllowHeaderOk()
    ensures HeadersOk([Header("allow", "GET, HEAD")])
  {
  }

  // the server takes the request of a call

  predicate AsksFor(cfg: Config, id: uint32, call: C.Call, f: Frame) {
    && id > 0 && Uri.IsResource(call.path, call.query) && f == C.RequestFrame(cfg.client, id, call)
  }

  lemma RequestTurn(cfg: Config, id: uint32, call: C.Call, f: Frame)
    requires Linked(cfg) && AsksFor(cfg, id, call, f) && !cfg.client.oversize(f.meta)
    ensures var t := S.OnRequest(cfg.server, id - 1, id - 1, f);
            if !Admitted(cfg, id, call) then IsError(t.frames) && t.calls == [] && t.next.Stopped?
            else if call.Fetch? then
              var c := S.Open(id, call.path, call.query);
              t == S.Carry(cfg.server, id, id, [c], S.TransferPlan(cfg.server, id, cfg.server.handler(c)))
            else t == S.Turn([Frame(Continue, id, Ready(PROFILE, MAX_APP_REQUEST), [])], [],
                             S.AwaitSubmit(id, id, call.path, call.query))
  {
    hide S.TransferPlan, S.Carry;
  }

  lemma RequestRead(cfg: Config, s: State, t: State)
    requires Linked(cfg) && s.client.AwaitContinue? && InvAwaitContinue(cfg, s) && Enabled(s, ServerRead)
    requires t == Apply(cfg, s, ServerRead)
    ensures InvAwaitContinue(cfg, t) && t.asked == s.asked
  {
    var id, call, f := s.client.id, s.client.call, s.toServer[0];
    assert RequestInFlight(cfg, s, id, call);
    RequestTurn(cfg, id, call, f);
    hide C.RequestFrame, Uri.IsResource, C.CallOk, Admitted, S.OnRequest;
    assert Pending(t) == t.todo;
  }

  lemma FetchRead(cfg: Config, s: State, t: State)
    requires Linked(cfg) && s.client.Replying? && s.client.call.Fetch? && Enabled(s, ServerRead)
    requires RequestInFlight(cfg, s, s.client.id, s.client.call) && s.client.state.AwaitReply?
    requires t == Apply(cfg, s, ServerRead) && Callable(s.client.call) && s.nextID == Next(s.client.id)
    ensures ReplyComing(cfg, t)
  {
    var id, call, f := s.client.id, s.client.call, s.toServer[0];
    hide S.OnRequest, S.Carry, S.TransferPlan, Ends, Serviceable, Uri.IsResource;
    var turn := S.OnRequest(cfg.server, id - 1, id - 1, f);
    assert s.toServer[1..] == [] && t == s.(toServer := [], todo := turn.frames, phase := turn.next, asked := s.asked + turn.calls);
    assert AsksFor(cfg, id, call, f) && !cfg.client.oversize(f.meta);
    assert s.toClient == [];
    hide RequestInFlight, Apply, C.RequestFrame, AsksFor, Admitted;
    RequestTurn(cfg, id, call, f);
    FetchEnds(cfg, s.asked, id, call, turn);
    FetchComing(cfg, s, t, turn);
  }

  lemma FetchComing(cfg: Config, s: State, t: State, turn: S.Turn)
    requires s.client.Replying? && s.client.state.AwaitReply? && Callable(s.client.call) && s.nextID == Next(s.client.id)
    requires t == s.(toServer := [], todo := turn.frames, phase := turn.next, asked := s.asked + turn.calls)
    requires s.toClient == []
    requires Ends(cfg, t.asked, s.client.id, s.client.call, C.AwaitReply, turn.frames, true)
    requires (turn.next.Stopped? && !Serviceable(cfg, s.client.id, s.client.call)) || IdleAt(turn.next, s.client.id)
    ensures ReplyComing(cfg, t)
  {
    hide Callable, Serviceable, C.Run, Delivers;
    assert Pending(t) == turn.frames;
  }

  lemma FetchEnds(cfg: Config, asked: seq<S.Call>, id: uint32, call: C.Call, turn: S.Turn)
    requires Linked(cfg) && call.Fetch?
    requires if !Admitted(cfg, id, call) then IsError(turn.frames) && turn.calls == [] && turn.next.Stopped?
             else
               var c := S.Open(id, call.path, call.query);
               turn == S.Carry(cfg.server, id, id, [c], S.TransferPlan(cfg.server, id, cfg.server.handler(c)))
    ensures Ends(cfg, asked + turn.calls, id, call, C.AwaitReply, turn.frames, true)
    ensures (turn.next.Stopped? && !Serviceable(cfg, id, call)) || IdleAt(turn.next, id)
  {
    hide S.TransferPlan;
    if Admitted(cfg, id, call) {
      FetchServed(cfg, id, call, asked);
      hide Ends, Serviceable;
    } else {
      ErrorEnds(cfg, asked + [], id, call, turn.frames);
      hide Ends;
    }
  }

  /** An ERROR is a whole, failing reply. */
  lemma ErrorEnds(cfg: Config, asked: seq<S.Call>, id: uint32, call: C.Call, fs: seq<Frame>)
    requires IsError(fs) && !Serviceable(cfg, id, call)
    ensures Ends(cfg, asked, id, call, C.AwaitReply, fs, true)
  {
    RunErrorFails(cfg.client, id, call, C.AwaitReply, fs[0]);
    assert fs == [fs[0]];
    hide Serviceable;
  }

  // the server takes part of an upload

  lemma UploadRead(cfg: Config, s: State, t: State, id: uint32, call: C.Call, ahead: seq<Frame>)
    requires Linked(cfg) && Enabled(s, ServerRead) && s.toServer <= ahead && UploadAhead(cfg, s.phase, id, call, ahead)
    requires t == Apply(cfg, s, ServerRead) && Pending(s) == []
    ensures |ahead| > 1 ==> Pending(t) == [] && t.asked == s.asked && UploadAhead(cfg, t.phase, id, call, ahead[1..])
    ensures |ahead| == 1 ==> t.toServer == [] && Ends(cfg, t.asked, id, call, C.AwaitReply, Pending(t), true)
                             && ReplyBy(cfg, t, id, call)
  {
    UploadStep(cfg, s.phase, id, call, ahead);
    if |ahead| == 1 {
      UploadDone(cfg, s.phase, id, call, ahead, s.asked);
      assert Pending(t) == t.todo;
    }
    hide UploadAhead, S.OnFrame, Ends, Serviceable;
  }

  lemma UploadDone(cfg: Config, phase: S.Phase, id: uint32, call: C.Call, ahead: seq<Frame>, asked: seq<S.Call>)
    requires Linked(cfg) && UploadAhead(cfg, phase, id, call, ahead) && phase.TakeUpload?
    ensures var t := S.OnVerified(cfg.server, phase, call.body);
            && Ends(cfg, asked + t.calls, id, call, C.AwaitReply, t.frames, true)
            && ((t.next.Stopped? && !Serviceable(cfg, id, call)) || IdleAt(t.next, id))
  {
    hide Drain, S.Dispatch, S.ReplyPlan, Ends;
    if cfg.server.late(id) {
      ErrorEnds(cfg, asked + [], id, call, S.OnVerified(cfg.server, phase, call.body).frames);
    } else {
      ExchangeServed(cfg, id, call, asked);
      hide Serviceable;
    }
  }

  lemma Popped<T>(a: seq<T>, b: seq<T>)
    requires a != []
    ensures (a + b)[1..] == a[1..] + b && a <= a + b && (b != [] ==> |a + b| > 1)
  {
  }

  lemma UploadingRead(cfg: Config, s: State, t: State)
    requires Linked(cfg) && s.client.Uploading? && InvUploading(cfg, s) && Enabled(s, ServerRead)
    requires t == Apply(cfg, s, ServerRead)
    ensures InvUploading(cfg, t) && t.asked == s.asked
  {
    var ahead := s.toServer + s.client.left;
    Popped(s.toServer, s.client.left);
    hide UploadAhead, Ends, ReplyBy, S.OnFrame, Callable, Pending, NoReply;
    UploadRead(cfg, s, t, s.client.id, s.client.call, ahead);
  }

  lemma ReplyingRead(cfg: Config, s: State, t: State)
    requires Linked(cfg) && s.client.Replying? && InvReplying(cfg, s) && Enabled(s, ServerRead)
    requires t == Apply(cfg, s, ServerRead)
    ensures InvReplying(cfg, t)
  {
    var id, call := s.client.id, s.client.call;
    hide S.OnFrame, Callable, RequestInFlight, UploadAhead, Ends;
    if UploadAhead(cfg, s.phase, id, call, s.toServer) {
      UploadRead(cfg, s, t, id, call, s.toServer);
      if |s.toServer| == 1 {
        ReplyWaits(cfg, t);
      }
    } else {
      FetchRead(cfg, s, t);
      ReplyWaits(cfg, t);
    }
  }

  lemma ReadKeeps(cfg: Config, s: State)
    requires Linked(cfg) && Inv(cfg, s) && Enabled(s, ServerRead)
    ensures Inv(cfg, Apply(cfg, s, ServerRead))
  {
    var t := Apply(cfg, s, ServerRead);
    DeliveredStays(cfg, s, t);
    hide AllDelivered, InvAwaitContinue, InvReplying, InvUploading;
    match s.client
    case AwaitContinue(_, _) => hide S.OnFrame; RequestRead(cfg, s, t);
    case Uploading(_, _, _) => hide S.OnFrame; UploadingRead(cfg, s, t);
    case Replying(_, _, _) => hide S.OnFrame; ReplyingRead(cfg, s, t);
    case _ =>
  }

  lemma StepKeeps(cfg: Config, s: State, step: Step)
    requires Linked(cfg) && Inv(cfg, s) && Enabled(s, step)
    ensures Inv(cfg, Apply(cfg, s, step))
  {
    match step
    case Begin(call) => hide Inv; BeginKeeps(cfg, s, call);
    case ClientRead =>
      hide Inv;
      match s.client {
        case Greeting => GreetingTakes(cfg, s);
        case AwaitContinue(_, _) => ContinueTakes(cfg, s);
        case Replying(_, _, _) => ReplyTakes(cfg, s);
      }
    case ClientSend => hide Inv; ClientSendKeeps(cfg, s);
    case ServerSend => hide Inv; ServerSendKeeps(cfg, s);
    case ServerRead => hide Inv; ReadKeeps(cfg, s);
    case ServerCut(k) => hide Inv; CutKeeps(cfg, s, k);
    case ServerEnd(ending) => hide Inv; EndKeeps(cfg, s, ending);
    case SayClose => DeliveredStays(cfg, s, Apply(cfg, s, step));
    case ClientFault(_) => DeliveredStays(cfg, s, Apply(cfg, s, step));
  }

  // ----- what every schedule keeps -----

  lemma {:induction false} InvAlways(cfg: Config, s: State, steps: seq<Step>)
    requires Linked(cfg) && Inv(cfg, s) && After(cfg, s, steps).Some?
    ensures Inv(cfg, After(cfg, s, steps).value)
    decreases |steps|
  {
    if steps != [] {
      StepKeeps(cfg, s, steps[0]);
      hide Inv;
      InvAlways(cfg, Apply(cfg, s, steps[0]), steps[1..]);
    }
  }

  /** The calls a schedule begins. */
  function Begun(steps: seq<Step>): seq<C.Call>
    decreases |steps|
  {
    if steps == [] then [] else (if steps[0].Begin? then [steps[0].call] else []) + Begun(steps[1..])
  }

  predicate About(c: ClientPhase, id: uint32, call: C.Call) {
    (c.AwaitContinue? || c.Uploading? || c.Replying?) && c.id == id && c.call == call
  }

  predicate InCall(s: State) { s.client.AwaitContinue? || s.client.Uploading? || s.client.Replying? }

  /** The finished calls are the begun ones in order, numbered from 1, but for a last one that is under way or failed. */
  predicate Tracks(s: State, begun: seq<C.Call>) {
    && |s.done| <= |begun|
    && (forall i :: 0 <= i < |s.done| ==> s.done[i].call == begun[i] && s.done[i].id == i + 1)
    && (s.client.Greeting? ==> begun == [] && s.nextID == 1)
    && (s.client.AtRest? ==> |begun| == |s.done| < 0x1_0000_0000 && s.nextID == Next(|begun|))
    && (InCall(s) ==> |begun| == |s.done| + 1 == s.client.id && s.client.call == begun[|s.done|] && s.nextID == Next(s.client.id))
    && (s.client.Quit? ==> |begun| <= |s.done| + 1)
  }

  lemma BeginTracks(cfg: Config, s: State, call: C.Call, begun: seq<C.Call>)
    requires Enabled(s, Begin(call)) && Tracks(s, begun)
    ensures Tracks(Apply(cfg, s, Begin(call)), begun + [call])
  {
    hide Callable, C.RequestFrame;
  }

  lemma QuietTracks(cfg: Config, s: State, step: Step, begun: seq<C.Call>)
    requires Enabled(s, step) && Tracks(s, begun) && !step.Begin? && !step.ClientRead?
    ensures Tracks(Apply(cfg, s, step), begun)
  {
    hide S.OnFrame, S.OnEnd;
  }

  lemma StepTracks(cfg: Config, s: State, step: Step, begun: seq<C.Call>)
    requires Enabled(s, step) && Tracks(s, begun)
    ensures Tracks(Apply(cfg, s, step), begun + if step.Begin? then [step.call] else [])
  {
    hide Tracks, Apply, Enabled;
    if step.Begin? {
      BeginTracks(cfg, s, step.call, begun);
    } else {
      assert begun + [] == begun;
      if step.ClientRead? {
        ReadTracks(cfg, s, begun);
      } else {
        QuietTracks(cfg, s, step, begun);
      }
    }
  }

  lemma ReadTracks(cfg: Config, s: State, begun: seq<C.Call>)
    requires Enabled(s, ClientRead) && Tracks(s, begun)
    ensures Tracks(Apply(cfg, s, ClientRead), begun)
  {
    hide C.OnFrame, C.OnContinue, C.UploadFrames, Expect;
  }

  lemma {:induction false} RunTracks(cfg: Config, s: State, steps: seq<Step>, begun: seq<C.Call>)
    requires After(cfg, s, steps).Some? && Tracks(s, begun)
    ensures Tracks(After(cfg, s, steps).value, begun + Begun(steps))
    decreases |steps|
  {
    hide Tracks, Apply, Enabled;
    if steps == [] {
      assert begun + [] == begun;
    } else {
      var first := if steps[0].Begin? then [steps[0].call] else [];
      var t := Apply(cfg, s, steps[0]);
      assert After(cfg, s, steps) == After(cfg, t, steps[1..]) && Begun(steps) == first + Begun(steps[1..]);
      StepTracks(cfg, s, steps[0], begun);
      hide After, Begun;
      RunTracks(cfg, t, steps[1..], begun + first);
      assert begun + first + Begun(steps[1..]) == begun + (first + Begun(steps[1..]));
    }
  }

  // ----- the provider is asked once, or not at all -----

  /** A call that a provider of resources alone is never asked about. */
  predicate Unasked(cfg: Config, call: C.Call) {
    call.Exchange? && !cfg.server.isApp && call.method_ != "GET" && call.method_ != "HEAD"
  }

  predicate Increasing(asked: seq<S.Call>) {
    forall i, j :: 0 <= i < j < |asked| ==> asked[i].id < asked[j].id
  }

  predicate NoneFor(asked: seq<S.Call>, id: uint32) {
    forall i :: 0 <= i < |asked| ==> asked[i].id != id
  }

  /** No two provider calls share a request ID, and none was made for a finished call that needs none. */
  predicate AskedOnce(cfg: Config, s: State) {
    && Increasing(s.asked)
    && forall i :: 0 <= i < |s.done| && Unasked(cfg, s.done[i].call) ==> NoneFor(s.asked, s.done[i].id)
  }

  /** The largest request ID the client has used. */
  function Top(s: State): nat { |s.done| + if InCall(s) || s.client.Quit? then 1 else 0 }

  function LastOf(phase: S.Phase): nat {
    if phase.Idle? || phase.AwaitSubmit? || phase.TakeUpload? then phase.last else 0
  }

  predicate UpTo(fs: seq<Frame>, top: nat) {
    forall i :: 0 <= i < |fs| ==> fs[i].id <= top
  }

  predicate Behind(asked: seq<S.Call>, floor: int) {
    forall i :: 0 <= i < |asked| ==> asked[i].id <= floor
  }

  predicate DoneBehind(done: seq<Done>, floor: int) {
    forall i :: 0 <= i < |done| ==> done[i].id <= floor
  }

  predicate Numbered(s: State) {
    && Behind(s.asked, Top(s)) && UpTo(s.toServer, Top(s)) && LastOf(s.phase) <= Top(s)
    && (s.client.Uploading? ==> UpTo(s.client.left, Top(s)))
  }

  predicate Floored(cfg: Config, s: State) {
    !s.phase.Stopped? ==>
      S.Within(cfg.server, s.phase) && Behind(s.asked, S.Floor(s.phase)) && DoneBehind(s.done, S.Floor(s.phase))
  }

  predicate Counted(cfg: Config, s: State) {
    && AskedOnce(cfg, s) && Numbered(s) && Floored(cfg, s)
    && (InCall(s) && Unasked(cfg, s.client.call) ==> NoneFor(s.asked, s.client.id))
  }

  /** A turn's provider call and the phase it leads to concern no later ID than the frame or the phase before. */
  lemma TurnUpTo(cfg: S.Config, phase: S.Phase, f: Frame, top: nat)
    requires !phase.Stopped? && f.id <= top && LastOf(phase) <= top
    ensures var t := S.OnFrame(cfg, phase, f); Behind(t.calls, top) && LastOf(t.next) <= top
  {
    hide S.TransferPlan, S.ReplyPlan, S.Refusal, S.SubmitRefusal, Take;
  }

  /** The server never asks for a call that needs no answer from its provider. */
  lemma NotAsked(cfg: Config, s: State)
    requires Linked(cfg) && Inv(cfg, s) && Enabled(s, ServerRead) && InCall(s) && Unasked(cfg, s.client.call)
    ensures S.OnFrame(cfg.server, s.phase, s.toServer[0]).calls == []
  {
    var id, call := s.client.id, s.client.call;
    hide AllDelivered, Ends, Callable, NoReply, Delivers, Serviceable;
    if UploadAhead(cfg, s.phase, id, call, s.toServer + if s.client.Uploading? then s.client.left else []) {
      NotAskedUploading(cfg, s, id, call, s.toServer + if s.client.Uploading? then s.client.left else []);
    } else {
      assert s.toServer + [] == s.toServer;
      assert RequestInFlight(cfg, s, id, call) by {
        hide UploadAhead, C.RequestFrame;
      }
      assert Callable(call) by {
        hide UploadAhead, C.RequestFrame;
      }
      NotAskedYet(cfg, s, id, call);
    }
  }

  lemma NotAskedYet(cfg: Config, s: State, id: uint32, call: C.Call)
    requires Linked(cfg) && RequestInFlight(cfg, s, id, call) && Callable(call) && call.Exchange?
    ensures S.OnFrame(cfg.server, s.phase, s.toServer[0]).calls == []
  {
    RequestTurn(cfg, id, call, s.toServer[0]);
    hide S.OnRequest, Admitted;
  }

  lemma NotAskedUploading(cfg: Config, s: State, id: uint32, call: C.Call, ahead: seq<Frame>)
    requires Linked(cfg) && Enabled(s, ServerRead) && s.toServer <= ahead && UploadAhead(cfg, s.phase, id, call, ahead)
    requires Unasked(cfg, call)
    ensures S.OnFrame(cfg.server, s.phase, s.toServer[0]).calls == []
  {
    UploadStep(cfg, s.phase, id, call, ahead);
    S.SubmissionAnswered(cfg.server, id, call.path, call.query, Sent(call));
    hide S.OnFrame, S.ReplyPlan, S.Dispatch;
  }

  lemma OneMoreCall(asked: seq<S.Call>, calls: seq<S.Call>, floor: int)
    requires Increasing(asked) && Behind(asked, floor) && |calls| <= 1 && (calls != [] ==> floor < calls[0].id)
    ensures Increasing(asked + calls)
    ensures forall top :: Behind(asked, top) && Behind(calls, top) ==> Behind(asked + calls, top)
    ensures forall id: uint32 :: NoneFor(asked, id) && (id <= floor || calls == []) ==> NoneFor(asked + calls, id)
  {
  }

  lemma BehindMore(asked: seq<S.Call>, done: seq<Done>, a: int, b: int)
    requires a <= b
    ensures Behind(asked, a) ==> Behind(asked, b)
    ensures DoneBehind(done, a) ==> DoneBehind(done, b)
  {
  }

  lemma ReadCounted(cfg: Config, s: State)
    requires Linked(cfg) && Inv(cfg, s) && Counted(cfg, s) && Enabled(s, ServerRead)
    ensures Counted(cfg, Apply(cfg, s, ServerRead))
  {
    var turn := S.OnFrame(cfg.server, s.phase, s.toServer[0]);
    S.TurnOrdered(cfg.server, s.phase, s.toServer[0]);
    TurnUpTo(cfg.server, s.phase, s.toServer[0], Top(s));
    if InCall(s) && Unasked(cfg, s.client.call) {
      NotAsked(cfg, s);
    }
    hide Inv, S.OnFrame, Unasked;
    var t := Apply(cfg, s, ServerRead);
    assert t == s.(toServer := s.toServer[1..], todo := turn.frames, phase := turn.next, asked := s.asked + turn.calls);
    hide Apply, Enabled;
    TurnCounted(cfg, s, t, turn);
  }

  lemma TurnCounted(cfg: Config, s: State, t: State, turn: S.Turn)
    requires Counted(cfg, s) && !s.phase.Stopped? && s.toServer != []
    requires t == s.(toServer := s.toServer[1..], todo := turn.frames, phase := turn.next, asked := s.asked + turn.calls)
    requires |turn.calls| <= 1 && S.Within(cfg.server, turn.next) && (turn.calls != [] ==> S.Floor(s.phase) < turn.calls[0].id)
    requires turn.next.Stopped? || (S.Floor(s.phase) <= S.Floor(turn.next)
                                    && (turn.calls != [] ==> turn.calls[0].id <= S.Floor(turn.next)))
    requires Behind(turn.calls, Top(s)) && LastOf(turn.next) <= Top(s)
    requires InCall(s) && Unasked(cfg, s.client.call) ==> turn.calls == []
    ensures Counted(cfg, t)
  {
    OneMoreCall(s.asked, turn.calls, S.Floor(s.phase));
    BehindMore(s.asked, s.done, S.Floor(s.phase), if turn.next.Stopped? then S.Floor(s.phase) else S.Floor(turn.next));
    assert !turn.next.Stopped? ==> Behind(turn.calls, S.Floor(turn.next));
    hide S.Within, S.Floor, Unasked, Behind, NoneFor, Increasing;
    assert UpTo(t.toServer, Top(t));
    assert Floored(cfg, t) && Numbered(t);
    hide Floored, Numbered, UpTo;
    assert AskedOnce(cfg, t) by {
      ReadAskedOnce(cfg, s, t, turn.calls);
    }
  }

  lemma ReadAskedOnce(cfg: Config, s: State, t: State, calls: seq<S.Call>)
    requires AskedOnce(cfg, s) && Floored(cfg, s) && !s.phase.Stopped?
    requires t.done == s.done && t.asked == s.asked + calls && Increasing(t.asked)
    requires calls != [] ==> S.Floor(s.phase) < calls[0].id && |calls| == 1
    ensures AskedOnce(cfg, t)
  {
    hide Unasked, Increasing;
  }

  lemma BeginCounted(cfg: Config, s: State, call: C.Call, begun: seq<C.Call>)
    requires Counted(cfg, s) && Tracks(s, begun) && Enabled(s, Begin(call))
    ensures Counted(cfg, BeginCall(cfg, s, call))
  {
    hide S.Within, S.Floor, Unasked, Callable;
  }

  lemma {:induction false} UploadUpTo(cfg: Config, id: uint32, call: C.Call)
    requires call.Exchange?
    ensures UpTo(C.UploadFrames(cfg.client, id, call), id)
  {
    ChunkingIsExact(id, call.body);
    hide DataFrames;
    var datas := DataFrames(id, call.body);
    var all := C.UploadFrames(cfg.client, id, call);
    forall i | 0 <= i < |all| ensures all[i].id == id {
      assert 1 <= i <= |datas| ==> all[i] == datas[i - 1];
    }
  }

  lemma ClientCounted(cfg: Config, s: State, begun: seq<C.Call>)
    requires Linked(cfg) && Inv(cfg, s) && Counted(cfg, s) && Tracks(s, begun) && Enabled(s, ClientRead)
    ensures Counted(cfg, Apply(cfg, s, ClientRead))
  {
    var t := Apply(cfg, s, ClientRead);
    if s.client.Replying? && t.client.AtRest? {
      FinishCounted(cfg, s, t, begun);
    } else {
      if t.client.Uploading? {
        UploadUpTo(cfg, s.client.id, s.client.call);
      }
      hide Inv, C.OnFrame, C.OnContinue, C.UploadFrames, C.SubmitFrame, Floored, AskedOnce;
      assert t.asked == s.asked && t.done == s.done && t.phase == s.phase && t.toServer == s.toServer;
      assert Top(t) >= Top(s);
      SameCounted(cfg, s, t);
    }
  }

  lemma SameCounted(cfg: Config, s: State, t: State)
    requires Counted(cfg, s) && t.asked == s.asked && t.done == s.done && t.phase == s.phase && t.toServer == s.toServer
    requires Top(t) >= Top(s) && (t.client.Uploading? ==> UpTo(t.client.left, Top(t)))
    requires InCall(t) ==> InCall(s) && t.client.id == s.client.id && t.client.call == s.client.call
    ensures Counted(cfg, t)
  {
    BehindMore(s.asked, s.done, Top(s), Top(t));
    UpToMore(s.toServer, Top(s), Top(t));
    hide Unasked, Behind, UpTo, NoneFor, Increasing, Top;
  }

  lemma UpToMore(fs: seq<Frame>, a: nat, b: nat)
    requires a <= b
    ensures UpTo(fs, a) ==> UpTo(fs, b)
  {
  }

  lemma FinishCounted(cfg: Config, s: State, t: State, begun: seq<C.Call>)
    requires Inv(cfg, s) && Counted(cfg, s) && Tracks(s, begun) && Enabled(s, ClientRead)
    requires s.client.Replying? && t == Apply(cfg, s, ClientRead) && t.client.AtRest?
    ensures Counted(cfg, t)
  {
    assert InvReplying(cfg, s);
    ReplyCases(cfg, s);
    assert ReplyBy(cfg, s, s.client.id, s.client.call);
    hide Inv, InvReplying, ReplyComing, C.OnFrame, Serviceable, Unasked, Behind, UpTo, NoneFor, Increasing;
    var d := t.done[|s.done|];
    assert t.done == s.done + [d] && d.id == s.client.id && d.call == s.client.call;
    assert t == s.(toClient := t.toClient, client := AtRest, done := s.done + [d]);
    hide Apply, Enabled;
    assert Top(t) == Top(s);
    assert Floored(cfg, t);
    assert AskedOnce(cfg, t);
  }

  lemma StepCounted(cfg: Config, s: State, step: Step, begun: seq<C.Call>)
    requires Linked(cfg) && Inv(cfg, s) && Counted(cfg, s) && Tracks(s, begun) && Enabled(s, step)
    ensures Counted(cfg, Apply(cfg, s, step))
  {
    match step
    case Begin(call) => hide Inv, Counted, Tracks; BeginCounted(cfg, s, call, begun);
    case ClientRead => hide Inv, Counted, Tracks; ClientCounted(cfg, s, begun);
    case ServerRead => hide Inv, Counted, Tracks; ReadCounted(cfg, s);
    case _ => hide Inv, S.Within, S.Floor, Unasked, Tracks;
  }

  lemma {:induction false} RunCounted(cfg: Config, s: State, steps: seq<Step>, begun: seq<C.Call>)
    requires Linked(cfg) && Inv(cfg, s) && Counted(cfg, s) && Tracks(s, begun) && After(cfg, s, steps).Some?
    ensures Counted(cfg, After(cfg, s, steps).value)
    decreases |steps|
  {
    hide Inv, Counted, Tracks, Apply, Enabled;
    if steps != [] {
      StepCounted(cfg, s, steps[0], begun);
      StepKeeps(cfg, s, steps[0]);
      StepTracks(cfg, s, steps[0], begun);
      RunCounted(cfg, Apply(cfg, s, steps[0]), steps[1..], begun + if steps[0].Begin? then [steps[0].call] else []);
    }
  }

  /** In every run of the two ends, whatever interleaving and faults: the calls that returned success are the first
      ones begun, in order, and each delivered exactly what an independent lookup gives, for which the provider was
      asked once or not at all; and a client between calls whose server is still there finds both streams empty and
      the two ID counters in step. */
  lemma SessionIsLookups(cfg: Config, steps: seq<Step>)
    requires Linked(cfg) && After(cfg, INITIAL, steps).Some?
    ensures var s := After(cfg, INITIAL, steps).value;
            && AllDelivered(cfg, s) && Tracks(s, Begun(steps)) && AskedOnce(cfg, s)
            && (s.client.AtRest? && (!s.phase.Stopped? || !s.faulted) ==>
                  && s.toServer == [] && s.toClient == [] && s.todo == []
                  && s.phase.Idle? && s.nextID == Next(s.phase.last) && s.phase.last == |s.done|)
  {
    assert Inv(cfg, INITIAL) && Tracks(INITIAL, []);
    InvAlways(cfg, INITIAL, steps);
    RunTracks(cfg, INITIAL, steps, []);
    RunCounted(cfg, INITIAL, steps, []);
    assert [] + Begun(steps) == Begun(steps);
    var s := After(cfg, INITIAL, steps).value;
    hide After, AllDelivered, Begun, InvAwaitContinue, InvReplying, InvUploading, AskedOnce;
    if s.client.AtRest? && (!s.phase.Stopped? || !s.faulted) {
      assert InvAtRest(s) && Pending(s) == [];
      NextOnce(s.phase.last, |s.done|);
    }
  }

  lemma NextOnce(a: uint32, b: uint32)
    ensures Next(a) == Next(b) <==> a == b
  {
  }

  // ----- without faults: no deadlock, an end to every call, and exactly when it succeeds -----

  /** The steps of the two ends while a call or the greeting is under way. */
  predicate Normal(step: Step) { step.ClientRead? || step.ClientSend? || step.ServerSend? || step.ServerRead? }

  predicate Busy(s: State) { s.client.Greeting? || InCall(s) }

  /** With no timeouts or loss the two ends never both wait with nothing in flight, unless the session is at rest. */
  lemma NoDeadlock(cfg: Config, s: State) returns (step: Step)
    requires Linked(cfg) && Inv(cfg, s) && !s.faulted && Busy(s)
    ensures Normal(step) && Enabled(s, step)
  {
    hide Callable, AllDelivered, Admitted, Drain, S.OnFrame;
    if s.todo != [] {
      step := ServerSend;
    } else if s.toClient != [] && Reading(s.client) {
      step := ClientRead;
    } else if s.client.Uploading? {
      step := ClientSend;
    } else {
      step := ServerRead;
      assert Pending(s) == [];
      if s.client.Replying? {
        SilenceMeansRequests(cfg, s);
      }
    }
  }

  lemma SilenceMeansRequests(cfg: Config, s: State)
    requires Linked(cfg) && s.client.Replying? && InvReplying(cfg, s) && !s.faulted && Pending(s) == []
    ensures !s.phase.Stopped? && s.toServer != []
  {
    if UploadAhead(cfg, s.phase, s.client.id, s.client.call, s.toServer) {
      UploadStep(cfg, s.phase, s.client.id, s.client.call, s.toServer);
    }
    hide Callable, Delivers, Serviceable, Admitted;
  }

  /** What is left to do in a call: phases first, then frames. */
  function Stage(s: State): nat {
    (if s.phase.AwaitHello? || (s.phase.Idle? && s.toServer != []) then 3
     else if s.phase.AwaitSubmit? || s.phase.TakeUpload? then 1 else 0)
    + (if s.client.AwaitContinue? then 1 else 0)
  }

  function Work(s: State): nat {
    |s.toServer| + |s.toClient| + 2 * |s.todo| + if s.client.Uploading? then 2 * |s.client.left| else 0
  }

  predicate Closer(t: State, s: State) {
    Stage(t) < Stage(s) || (Stage(t) == Stage(s) && Work(t) < Work(s))
  }

  lemma ReadIsCloser(cfg: Config, s: State)
    requires Linked(cfg) && Inv(cfg, s) && Busy(s) && Enabled(s, ServerRead)
    ensures Closer(Apply(cfg, s, ServerRead), s)
  {
    var t := Apply(cfg, s, ServerRead);
    if s.phase.AwaitSubmit? || s.phase.TakeUpload? {
      var id, call := s.client.id, s.client.call;
      var ahead := s.toServer + if s.client.Uploading? then s.client.left else [];
      hide S.OnFrame, UploadAhead, Ends, Callable, AllDelivered, NoReply;
      Popped(s.toServer, if s.client.Uploading? then s.client.left else []);
      assert UploadAhead(cfg, s.phase, id, call, ahead) by {
        assert s.toServer + [] == s.toServer;
      }
      UploadReadsOn(cfg, s, id, call, ahead);
    } else if s.phase.Idle? {
      hide UploadAhead, Ends, Callable, AllDelivered, NoReply, Admitted, S.Carry, S.Refusal, S.TransferPlan;
      assert |s.toServer| == 1 && s.toServer[1..] == [];
      OnRequestNext(cfg, s.phase, s.toServer[0]);
    }
  }

  lemma OnRequestNext(cfg: Config, phase: S.Phase, f: Frame)
    requires phase.Idle?
    ensures !S.OnFrame(cfg.server, phase, f).next.AwaitHello? && !S.OnFrame(cfg.server, phase, f).next.TakeUpload?
  {
    hide S.Refusal, S.TransferPlan;
  }

  lemma UploadReadsOn(cfg: Config, s: State, id: uint32, call: C.Call, ahead: seq<Frame>)
    requires Linked(cfg) && Enabled(s, ServerRead) && s.toServer <= ahead && UploadAhead(cfg, s.phase, id, call, ahead)
    ensures var t := Apply(cfg, s, ServerRead);
            || (|ahead| > 1 && t.todo == [] && !t.phase.Idle? && !t.phase.AwaitHello?)
            || (|ahead| == 1 && t.toServer == [] && (t.phase.Idle? || t.phase.Stopped?))
  {
    UploadStep(cfg, s.phase, id, call, ahead);
    if |ahead| == 1 {
      UploadDone(cfg, s.phase, id, call, ahead, s.asked);
    }
    hide S.OnFrame, Ends;
  }

  /** Every step of the two ends in a call ends it or leaves less to do. */
  lemma StepIsCloser(cfg: Config, s: State, step: Step)
    requires Linked(cfg) && Inv(cfg, s) && Busy(s) && Normal(step) && Enabled(s, step)
    ensures var t := Apply(cfg, s, step); t.faulted == s.faulted && (!Busy(t) || Closer(t, s))
  {
    assert s.client.Replying? ==> C.Waiting(s.client.state);
    hide Inv, S.OnFrame;
    match step
    case ServerRead => hide Closer; ReadIsCloser(cfg, s);
    case ClientSend =>
    case ServerSend =>
    case ClientRead => ClientReadIsCloser(cfg, s);
  }

  lemma ClientReadIsCloser(cfg: Config, s: State)
    requires Enabled(s, ClientRead) && Busy(s) && (s.client.Replying? ==> C.Waiting(s.client.state))
    ensures var t := Apply(cfg, s, ClientRead); t.faulted == s.faulted && (!Busy(t) || Closer(t, s))
  {
    hide C.OnFrame, C.OnContinue, C.UploadFrames, C.SubmitFrame;
  }

  /** A call that ends without faults ends well exactly when it is serviceable. */
  lemma CallEnds(cfg: Config, s: State, step: Step, id: uint32, call: C.Call)
    requires Linked(cfg) && Inv(cfg, s) && !s.faulted && About(s.client, id, call) && Normal(step) && Enabled(s, step)
    ensures var t := Apply(cfg, s, step);
            if InCall(t) then About(t.client, id, call) && t.done == s.done
            else if Serviceable(cfg, id, call) then
              && t.client.AtRest? && |t.done| == |s.done| + 1 && t.done[..|s.done|] == s.done
              && t.done[|s.done|].id == id && t.done[|s.done|].call == call
            else t.client.Quit? && t.done == s.done
  {
    var t := Apply(cfg, s, step);
    if InCall(t) || !step.ClientRead? {
      hide Inv, S.OnFrame, C.OnFrame, C.OnContinue, C.UploadFrames, Serviceable, Callable;
    } else if s.client.AwaitContinue? {
      ContinueFails(cfg, s, t);
    } else {
      ReplyDecides(cfg, s, t);
    }
  }

  lemma ContinueFails(cfg: Config, s: State, t: State)
    requires !s.faulted && Enabled(s, ClientRead) && s.client.AwaitContinue? && InvAwaitContinue(cfg, s)
    requires t == Apply(cfg, s, ClientRead) && !InCall(t)
    ensures !Serviceable(cfg, s.client.id, s.client.call) && t.client.Quit? && t.done == s.done
  {
    assert Pending(s)[0] == s.toClient[0];
    hide C.UploadFrames, HeadersOk, C.RequestFrame;
  }

  lemma ReplyDecides(cfg: Config, s: State, t: State)
    requires !s.faulted && Enabled(s, ClientRead) && s.client.Replying? && InvReplying(cfg, s) && AllDelivered(cfg, s)
    requires t == Apply(cfg, s, ClientRead) && !InCall(t)
    ensures var id, call := s.client.id, s.client.call;
            if Serviceable(cfg, id, call) then
              && t.client.AtRest? && |t.done| == |s.done| + 1 && t.done[..|s.done|] == s.done
              && t.done[|s.done|].id == id && t.done[|s.done|].call == call
            else t.client.Quit? && t.done == s.done
  {
    ReplyCases(cfg, s);
    PendingPop(s, t);
    hide InvReplying, AllDelivered, C.OnFrame, Pending, Serviceable, Callable, Delivers;
    EndsStep(cfg, s.asked, s.client.id, s.client.call, s.client.state, s.toClient[0], Pending(t), true);
    hide Ends;
  }

  /** Every run without faults brings a call to its end, however the two ends interleave: to success, with one more
      call delivered, exactly when the call is serviceable, and else to failure. */
  lemma {:induction false} EveryRunEnds(cfg: Config, run: nat -> State, steps: nat -> Step, i: nat, id: uint32, call: C.Call)
    returns (j: nat)
    requires Linked(cfg) && Inv(cfg, run(i)) && !run(i).faulted && About(run(i).client, id, call)
    requires forall k :: i <= k && InCall(run(k)) ==>
               Normal(steps(k)) && Enabled(run(k), steps(k)) && run(k + 1) == Apply(cfg, run(k), steps(k))
    ensures i < j && Inv(cfg, run(j)) && !run(j).faulted
    ensures if Serviceable(cfg, id, call) then
              && run(j).client.AtRest? && |run(j).done| == |run(i).done| + 1 && run(j).done[..|run(i).done|] == run(i).done
              && run(j).done[|run(i).done|].id == id && run(j).done[|run(i).done|].call == call
            else run(j).client.Quit? && run(j).done == run(i).done
    decreases Stage(run(i)), Work(run(i))
  {
    hide Inv, Apply, Serviceable, Enabled, Stage, Work;
    StepKeeps(cfg, run(i), steps(i));
    StepIsCloser(cfg, run(i), steps(i));
    CallEnds(cfg, run(i), steps(i), id, call);
    j := i + 1;
    if InCall(run(i + 1)) {
      j := EveryRunEnds(cfg, run, steps, i + 1, id, call);
    }
  }

  /** And such a run always exists: from any moment of a call there is a schedule that ends it. */
  lemma {:induction false} CallCanEnd(cfg: Config, s: State) returns (steps: seq<Step>)
    requires Linked(cfg) && Inv(cfg, s) && !s.faulted && Busy(s)
    ensures forall i :: 0 <= i < |steps| ==> Normal(steps[i])
    ensures After(cfg, s, steps).Some? && !Busy(After(cfg, s, steps).value)
    decreases Stage(s), Work(s)
  {
    var step := NoDeadlock(cfg, s);
    hide Inv, Enabled, Stage, Work, Apply, Busy;
    StepKeeps(cfg, s, step);
    StepIsCloser(cfg, s, step);
    var t := Apply(cfg, s, step);
    var more: seq<Step> := [];
    if Busy(t) {
      more := CallCanEnd(cfg, t);
    }
    steps := [step] + more;
    assert steps[1..] == more;
  }

  /** A call that fails before its first frame is out is not serviceable. */
  lemma BeginRefuses(cfg: Config, s: State, call: C.Call)
    requires Enabled(s, Begin(call))
    ensures var t := BeginCall(cfg, s, call);
            if t.client.Quit? then !Serviceable(cfg, s.nextID, call) else About(t.client, s.nextID, call)
  {
  }
}
